/** What the six comparisons mean, in SQL and in the M code that they are printed as. */
module Comparisons {
  import opened Where
  import opened Negation

  predicate Comparison(tag: Tag) {
    tag.Equals? || tag.NotEquals? || tag.LessThan? || tag.GreaterThan? || tag.LessThanOrEquals?
    || tag.GreaterThanOrEquals?
  }

  function Truth2(b: bool): Truth { if b then True else False }

  /** Two numbers compared. */
  predicate Compares(tag: Tag, x: int, y: int)
    requires Comparison(tag)
  {
    match tag
    case Equals => x == y
    case NotEquals => x != y
    case LessThan => x < y
    case GreaterThan => y < x
    case LessThanOrEquals => x <= y
    case GreaterThanOrEquals => y <= x
  }

  /** Section 8.2 of ISO/IEC 9075:1992: a comparison with Null is unknown. */
  function SqlCompare(tag: Tag, x: Scalar, y: Scalar): Truth
    requires Comparison(tag)
  {
    if x.Null? || y.Null? then Unknown else Truth2(Compares(tag, x.rank, y.rank))
  }

  /** What M makes of a value where it wants a number; Null is the empty string, which counts as zero. */
  type Numbers = Scalar -> int

  /** The operators that tmpl_print_expression chooses, = '= < > '> '< and ]] for text. */
  function MCompare(tag: Tag, text: bool, x: Scalar, y: Scalar, n: Numbers): Truth
    requires Comparison(tag)
  {
    match tag
    case Equals => Truth2(x == y)
    case NotEquals => Truth2(!(x == y))
    case LessThan => Truth2(if text then Follows(y, x) else n(x) < n(y))
    case GreaterThan => Truth2(if text then Follows(x, y) else n(x) > n(y))
    case LessThanOrEquals => Truth2(!(n(x) > n(y)))
    case GreaterThanOrEquals => Truth2(!(n(x) < n(y)))
  }

  /** On numbers that are there M compares as SQL does; on text that is there too, except with <= and >=. */
  lemma MComparesLikeSql(tag: Tag, text: bool, x: Scalar, y: Scalar, n: Numbers)
    requires Comparison(tag) && x.Val? && y.Val?
    requires if text then !tag.LessThanOrEquals? && !tag.GreaterThanOrEquals? else forall r :: n(Val(r)) == r
    ensures MCompare(tag, text, x, y, n) == SqlCompare(tag, x, y)
  {
    assert !text ==> n(Val(x.rank)) == x.rank && n(Val(y.rank)) == y.rank;
  }

  /** Numbers and text are ordered alike. */
  predicate SameOrder(x: Scalar, y: Scalar, n: Numbers) {
    (Follows(x, y) <==> n(x) > n(y)) && (Follows(y, x) <==> n(y) > n(x))
  }

  /** Negating a comparison gives its opposite. */
  lemma SqlOpposites(tag: Tag, x: Scalar, y: Scalar)
    requires Comparison(tag)
    ensures Comparison(tag.Opposite()) && SqlCompare(tag.Opposite(), x, y) == Not3(SqlCompare(tag, x, y))
  {}

  /** In M it does so for numbers, and for text exactly if the values are ordered like numbers, because
      only < and > know about text. */
  lemma MOppositesIff(text: bool, x: Scalar, y: Scalar, n: Numbers)
    ensures (forall tag | Comparison(tag) ::
               && Comparison(tag.Opposite())
               && MCompare(tag.Opposite(), text, x, y, n) == Not3(MCompare(tag, text, x, y, n)))
            <==> !text || SameOrder(x, y, n)
  {
    assert Comparison(LessThan) && LessThan.Opposite() == GreaterThanOrEquals;
    assert Comparison(GreaterThan) && GreaterThan.Opposite() == LessThanOrEquals;
  }

  /** Two texts that M takes for the number zero, such as a and b: NOT (a < b) is false, and a >= b, which
      it is turned into, is true. */
  lemma TextIsNotNegated(lhs: Operand, rhs: Operand)
    ensures Push(Not(Test(Atom(LessThan, lhs, rhs))), 0) == Test(Atom(GreaterThanOrEquals, lhs, rhs))
    ensures var n := (_: Scalar) => 0;
      && Not3(MCompare(LessThan, true, Val(1), Val(2), n)) == False
      && MCompare(GreaterThanOrEquals, true, Val(1), Val(2), n) == True
  {}
}
