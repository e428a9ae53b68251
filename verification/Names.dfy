/** Routine names: a 128-bit hash in base 62 behind a prefix. */
module Names {
  const MAX_ROUTINE_LEN := 31
  const TWO_TO_THE_64 := 0x1_0000_0000_0000_0000

  /** The digits 0-9, A-Z and a-z. */
  function Digit(i: nat): char
    requires i < 62
  {
    if i < 10 then '0' + i as char else if i < 36 then 'A' + (i - 10) as char else 'a' + (i - 36) as char
  }

  lemma DigitIsInjective(i: nat, j: nat)
    requires i < 62 && j < 62 && Digit(i) == Digit(j)
    ensures i == j
  {}

  predicate Alphanumeric(c: char) { '0' <= c <= '9' || 'A' <= c <= 'Z' || 'a' <= c <= 'z' }

  /** What a character counts in base 62. */
  function DigitValue(c: char): nat
    requires Alphanumeric(c)
  {
    if c <= '9' then (c - '0') as nat else if c <= 'Z' then 10 + (c - 'A') as nat else 36 + (c - 'a') as nat
  }

  lemma DigitCounts(i: nat)
    requires i < 62
    ensures Alphanumeric(Digit(i)) && DigitValue(Digit(i)) == i
  {}

  /** k rounds of the loop: one digit of each half, the lowest first. */
  function Digits(one: nat, two: nat, k: nat): (s: string)
    ensures |s| == 2 * k
    decreases k
  {
    if k == 0 then [] else [Digit(one % 62), Digit(two % 62)] + Digits(one / 62, two / 62, k - 1)
  }

  function Pow62(k: nat): nat { if k == 0 then 1 else 62 * Pow62(k - 1) }

  /** Every other character from the first on, read as a number with its lowest digit first. */
  function Reading(s: string): nat
    requires forall c <- s :: Alphanumeric(c)
    decreases |s|
  {
    if s == "" then 0 else DigitValue(s[0]) + 62 * Reading(if |s| >= 2 then s[2..] else "")
  }

  /** The characters are digits and letters. Those at even places are the first half in base 62, and those at odd
      places the second, lowest digit first. */
  lemma {:induction false} DigitsRead(one: nat, two: nat, k: nat)
    requires one < Pow62(k) && two < Pow62(k)
    ensures var s := Digits(one, two, k);
      (forall c <- s :: Alphanumeric(c)) && Reading(s) == one && (k > 0 ==> Reading(s[1..]) == two)
    decreases k
  {
    if k > 0 {
      var s, rest := Digits(one, two, k), Digits(one / 62, two / 62, k - 1);
      DigitCounts(one % 62);
      DigitCounts(two % 62);
      DigitsRead(one / 62, two / 62, k - 1);
      assert s[2..] == rest && s == [s[0], s[1]] + rest;
      assert s[1..][0] == Digit(two % 62);
      if k > 1 { assert s[1..][2..] == rest[1..]; }
    }
  }

  /** Enough digits tell all pairs apart. */
  lemma {:induction false} DigitsAreInjective(one: nat, two: nat, one': nat, two': nat, k: nat)
    requires one < Pow62(k) && two < Pow62(k) && one' < Pow62(k) && two' < Pow62(k)
    requires Digits(one, two, k) == Digits(one', two', k)
    ensures one == one' && two == two'
    decreases k
  {
    if k > 0 {
      var s, s' := Digits(one, two, k), Digits(one', two', k);
      assert s[0] == s'[0] && s[1] == s'[1] && s[2..] == s'[2..];
      DigitIsInjective(one % 62, one' % 62);
      DigitIsInjective(two % 62, two' % 62);
      DigitsAreInjective(one / 62, two / 62, one' / 62, two' / 62, k - 1);
    }
  }

  /** The digits of a number do not change if a multiple of the next power is added. */
  lemma {:induction false} DigitsRepeat(two: nat, k: nat)
    ensures Digits(Pow62(k), two, k) == Digits(0, two, k)
    decreases k
  {
    if k > 0 {
      DigitsRepeat(two / 62, k - 1);
      assert Pow62(k) % 62 == 0 && Pow62(k) / 62 == Pow62(k - 1);
    }
  }

  lemma ElevenDigits()
    ensures Pow62(10) < TWO_TO_THE_64 < Pow62(11)
  {
    assert Pow62(3) == 238328;
    assert Pow62(6) == 56800235584;
    assert Pow62(9) == 13537086546263552;
    assert Pow62(10) == 839299365868340224;
    assert Pow62(11) == 52036560683837093888;
  }

  lemma {:induction false} PowGrows(i: nat, j: nat)
    requires i <= j
    ensures Pow62(i) <= Pow62(j)
    decreases j - i
  {
    if i < j { PowGrows(i, j - 1); }
  }

  /** 2 k characters tell all 128-bit hashes apart. */
  ghost predicate TellsApart(k: nat) {
    forall one: nat, two: nat, one': nat, two': nat
      | one < TWO_TO_THE_64 && two < TWO_TO_THE_64 && one' < TWO_TO_THE_64 && two' < TWO_TO_THE_64
        && Digits(one, two, k) == Digits(one', two', k)
      :: one == one' && two == two'
  }

  /** Eleven digits per half are needed and suffice. */
  lemma TellsApartIff(k: nat)
    ensures TellsApart(k) <==> k >= 11
  {
    ElevenDigits();
    if k >= 11 {
      PowGrows(11, k);
      forall one: nat, two: nat, one': nat, two': nat
        | one < TWO_TO_THE_64 && two < TWO_TO_THE_64 && one' < TWO_TO_THE_64 && two' < TWO_TO_THE_64
          && Digits(one, two, k) == Digits(one', two', k)
        ensures one == one' && two == two'
      {
        DigitsAreInjective(one, two, one', two', k);
      }
    } else {
      PowGrows(k, 10);
      PowGrows(0, k);
      DigitsRepeat(0, k);
      assert Digits(Pow62(k), 0, k) == Digits(0, 0, k);
    }
  }

  /** ydb_hash_to_string, which writes two characters at a time. */
  method HashToString(one: nat, two: nat, buffer: array<char>, length: nat)
    requires length + length % 2 <= buffer.Length
    modifies buffer
    ensures buffer[..] == Digits(one, two, (length + 1) / 2) + old(buffer[length + length % 2..])
  {
    hide Digits, Digit;
    ghost var all := Digits(one, two, (length + 1) / 2);
    ghost var end := length + length % 2;
    assert end == 2 * ((length + 1) / 2) && (length == end || length == end - 1);
    var hashOne, hashTwo, i := one, two, 0;
    ghost var k := (length + 1) / 2;
    assert buffer[..0] == [] && [] + all == all;
    while i < length
      invariant 0 <= i <= end && i + 2 * k == end && k >= 0
      invariant buffer[..i] + Digits(hashOne, hashTwo, k) == all
      invariant buffer[i..] == old(buffer[i..])
    {
      ghost var was := buffer[..i];
      DigitsStep(hashOne, hashTwo, k);
      buffer[i] := Digit(hashOne % 62);
      hashOne := hashOne / 62;
      buffer[i + 1] := Digit(hashTwo % 62);
      hashTwo := hashTwo / 62;
      assert buffer[..i + 2] == was + [buffer[i], buffer[i + 1]];
      Associates(was, [buffer[i], buffer[i + 1]], Digits(hashOne, hashTwo, k - 1));
      i := i + 2;
      k := k - 1;
    }
    DigitsNone(hashOne, hashTwo);
    assert buffer[..i] + [] == buffer[..i];
    assert buffer[..] == buffer[..i] + buffer[i..];
  }

  lemma DigitsStep(one: nat, two: nat, k: nat)
    requires k > 0
    ensures Digits(one, two, k) == [Digit(one % 62), Digit(two % 62)] + Digits(one / 62, two / 62, k - 1)
  {}

  lemma DigitsNone(one: nat, two: nat)
    ensures Digits(one, two, 0) == []
  {}

  lemma Associates(x: string, y: string, z: string)
    ensures x + (y + z) == (x + y) + z
  {}

  datatype FileType = CrossReference | OutputPlan | Neither

  function Prefix(t: FileType): string
    requires !t.Neither?
  {
    if t.CrossReference? then "%ydboctoX" else "%ydboctoP"
  }

  function RoutineName(one: nat, two: nat, t: FileType): string
    requires !t.Neither?
  {
    Prefix(t) + Digits(one, two, 11)
  }

  /** Cells of memory outside a buffer keep their values. */
  ghost predicate KeepsRest(before: seq<char>, after: seq<char>, buffer: nat, length: nat) {
    |before| == |after| && forall x | 0 <= x < |before| && !(buffer <= x < buffer + length) :: after[x] == before[x]
  }

  /** The name and a zero stand in the buffer, and nothing else has changed. */
  ghost predicate NamedIn(before: seq<char>, after: seq<char>, buffer: nat, name: string) {
    && |before| == |after| && buffer + |name| < |after|
    && after[buffer..buffer + |name|] == name && after[buffer + |name|] == 0 as char
    && forall x | 0 <= x < |after| && !(buffer <= x <= buffer + |name|) :: after[x] == before[x]
  }

  /** generate_routine_name, on a buffer somewhere in memory: the name and a terminating zero. The zero
      goes behind a buffer of the least length that is asserted. */
  method GenerateRoutineName(one: nat, two: nat, t: FileType, memory: array<char>, buffer: nat, bufferLength: nat)
    returns (length: nat)
    requires bufferLength >= MAX_ROUTINE_LEN && buffer + bufferLength < memory.Length
    modifies memory
    ensures t.Neither? ==> length == 0 && memory[..] == old(memory[..])
    ensures !t.Neither? ==> length == MAX_ROUTINE_LEN
    ensures !t.Neither? ==> NamedIn(old(memory[..]), memory[..], buffer, RoutineName(one, two, t))
    ensures t.CrossReference? ==> memory[buffer..buffer + 9] == "%ydboctoX"
    ensures t.OutputPlan? ==> memory[buffer..buffer + 9] == "%ydboctoP"
    ensures KeepsRest(old(memory[..]), memory[..], buffer, bufferLength) <==>
      t.Neither? || bufferLength > MAX_ROUTINE_LEN || old(memory[buffer + MAX_ROUTINE_LEN]) == 0 as char
  {
    hide Digits;
    var hashLength := MAX_ROUTINE_LEN - 9;
    var hash := new char[MAX_ROUTINE_LEN];
    HashToString(one, two, hash, hashLength);
    assert hash[..hashLength] == Digits(one, two, 11);
    if t.Neither? { return 0; }
    ghost var before := memory[..];
    var prefix := Prefix(t);
    Copy(memory, buffer, prefix);
    Copy(memory, buffer + |prefix|, hash[..hashLength]);
    Copy(memory, buffer + |prefix| + hashLength, [0 as char]);
    length := MAX_ROUTINE_LEN;
    NameCopied(before, memory[..], buffer, prefix, hash[..hashLength]);
    KeepsRestIff(before, memory[..], buffer, bufferLength, RoutineName(one, two, t));
    assert memory[buffer..buffer + 9] == memory[..][buffer..buffer + 31][..9] == prefix;
  }

  /** strncpy. */
  method Copy(memory: array<char>, at: nat, s: string)
    requires at + |s| <= memory.Length
    modifies memory
    ensures forall x | 0 <= x < memory.Length :: memory[x] == if at <= x < at + |s| then s[x - at] else old(memory[x])
  {
    for i := 0 to |s|
      invariant forall x | 0 <= x < memory.Length :: memory[x] == if at <= x < at + i then s[x - at] else old(memory[x])
    {
      memory[at + i] := s[i];
    }
  }

  lemma NameCopied(before: seq<char>, after: seq<char>, buffer: nat, prefix: string, hash: string)
    requires |before| == |after| && buffer + |prefix| + |hash| < |after|
    requires forall i | 0 <= i < |prefix| :: after[buffer + i] == prefix[i]
    requires forall i | 0 <= i < |hash| :: after[buffer + |prefix| + i] == hash[i]
    requires after[buffer + |prefix| + |hash|] == 0 as char
    requires forall x | 0 <= x < |after| && !(buffer <= x <= buffer + |prefix| + |hash|) :: after[x] == before[x]
    ensures NamedIn(before, after, buffer, prefix + hash)
  {
    var name := prefix + hash;
    forall i | 0 <= i < |name| ensures after[buffer + i] == name[i] {
      if i >= |prefix| { assert after[buffer + |prefix| + (i - |prefix|)] == hash[i - |prefix|]; }
    }
  }

  lemma KeepsRestIff(before: seq<char>, after: seq<char>, buffer: nat, length: nat, name: string)
    requires NamedIn(before, after, buffer, name) && length >= |name|
    ensures KeepsRest(before, after, buffer, length) <==> length > |name| || before[buffer + |name|] == 0 as char
  {
    var end := buffer + |name|;
    assert after[end] == 0 as char;
  }

  lemma NameLength(one: nat, two: nat, t: FileType)
    requires !t.Neither?
    ensures |RoutineName(one, two, t)| == MAX_ROUTINE_LEN
  {}

  /** Both halves of the hash can be read off the name. */
  lemma NameReads(one: nat, two: nat, t: FileType)
    requires one < TWO_TO_THE_64 && two < TWO_TO_THE_64 && !t.Neither?
    ensures var hash := RoutineName(one, two, t)[9..];
      (forall c <- hash :: Alphanumeric(c)) && Reading(hash) == one && Reading(hash[1..]) == two
  {
    ElevenDigits();
    DigitsRead(one, two, 11);
    hide Digits, Reading;
    assert RoutineName(one, two, t)[9..] == Digits(one, two, 11);
  }

  /** With a buffer of MAX_ROUTINE_LEN characters, which is what run_query and emit_physical_plan give
      it, the character behind the buffer is lost. */
  method NameInShortBuffer(one: nat, two: nat) returns (before: char, after: char)
    ensures before == 'x' && after == 0 as char
  {
    NameLength(one, two, OutputPlan);
    hide RoutineName, KeepsRest;
    var memory := new char[MAX_ROUTINE_LEN + 1](_ => 'x');
    before := memory[MAX_ROUTINE_LEN];
    var length := GenerateRoutineName(one, two, OutputPlan, memory, 0, MAX_ROUTINE_LEN);
    after := memory[..][MAX_ROUTINE_LEN];
  }

  /** Different hashes, or different kinds of file, have different names. */
  lemma NamesAreInjective(one: nat, two: nat, t: FileType, one': nat, two': nat, t': FileType)
    requires one < TWO_TO_THE_64 && two < TWO_TO_THE_64 && one' < TWO_TO_THE_64 && two' < TWO_TO_THE_64
    requires !t.Neither? && !t'.Neither? && RoutineName(one, two, t) == RoutineName(one', two', t')
    ensures one == one' && two == two' && t == t'
  {
    hide Digits, Pow62;
    var n, n' := RoutineName(one, two, t), RoutineName(one', two', t');
    assert n[8] == Prefix(t)[8] && n'[8] == Prefix(t')[8];
    assert n[9..] == Digits(one, two, 11) && n'[9..] == Digits(one', two', 11);
    ElevenDigits();
    DigitsAreInjective(one, two, one', two', 11);
  }
}
