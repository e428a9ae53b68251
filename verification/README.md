# Octo: planner, table serialiser, name scopes, memory

A Dafny model of the parts of the Octo SQL engine that transform and move pointer structures, with
proofs of what they promise.

- **Planner.** `optimize_logical_plan` pushes NOTs down, brings a WHERE into a disjunctive form,
  splits it at every OR into a UNION ALL of plans, and turns equalities into fixed iteration keys or
  cross-reference lookups. `Where`, `Negation`, `Comparisons` and `NormalForm` cover the WHERE trees,
  `Enumeration`, `KeyFix`, `FixedKeys` and `AccessPath` the key lists, `Planner` the whole function. `Loops` runs the
  loops of a plan and builds its cross references, `Output` puts rows out, and `Query` goes the whole
  way from a parsed query to its rows. `Predicates` covers IN lists and LIKE patterns on their way into
  the WHERE tree.
- **Table serialiser.** `compress_statement` packs a statement and everything it points to into one
  buffer with relative pointers, the buffer is stored in pieces, and `decompress_statement` makes it
  live again at another address, where `assign_table_to_columns` links the columns to their table and
  gives them their PIECEs (`Statements`, `Compress`, `Layout`, `Decompress`, `SchemaStore`, `Columns`,
  `Pieces`, `Owners`).
- **Rings.** `dqinsert` (`Rings`), the scope ring of `qualify_query` (`Scopes`), and the chunk ring of
  `octo_cmalloc` (`Arena`).
- **After the planner.** The physical plans of a query whose pieces share parts of their WHEREs, and
  the order they run in (`PlanOrder`, `PhysicalPlans`), and routine names (`Names`).

Truth is three-valued (section 8.12 of ISO/IEC 9075:1992). A test of the WHERE tree is interpreted by
an arbitrary function; where a result depends on what comparisons mean, the theorem says so
(`Lawful`, `SqlEquality`, `Sql`). SQL's comparisons are such tests in every database
(`Query.SqlTestsAreSql`). Those of the generated M code, where Null is the empty string, are if and only
if no text is compared that is not ordered like numbers (`Query.MTestsAreSqlIff`).
A plan denotes the choices of one row per table that its nested loops visit and its WHERE accepts; the
loops run over a store of tables and of the cross references built so far.

WHERE trees are heap nodes that normalisation changes in place and shares. A map from nodes to
expressions (`Labels`) says what each node stands for; `Consistent` ties it to the heap node by node
and asks nothing about sharing, so changing a shared node is allowed exactly if its label survives.

## What the code does that one might not expect

- A NOT over a NOT over a regex, an IS or a leaf loses one negation. Pushing NOTs down is negation
  exactly on the trees described by `Safe` (`Negation.PushingNegatesIffSafe`,
  `Negation.DoubleNegatedRegexIsLost`).
- For text, M code prints < and > with the operator that follows the collation order, but <= and >= with
  the operators for numbers. A NOT over a text comparison is turned into one that M answers otherwise
  (`Comparisons.MOppositesIff`, `Comparisons.TextIsNotNegated`).
- An equality with a column of an enclosing query fixes a key only if that column stands on the left
  (`KeyFix.LaterColumnIsFixed`, `KeyFix.EqualityFixesKey`).
- A pass over the conjuncts of a clause can leave a key list that visits none of the rows asked for. It
  does so if and only if a key column has no key any more, or a key is fixed to itself or to a later key
  of its table (`FixedKeys.VisitedIffRunnable`). A query finds a row of its FROM list if and only if a
  clause of its WHERE holds for the row whose key list is none of these (`Query.TreeFinds`).
- An equality between two key columns of one table fixes a key to a value that is not known yet,
  unless the right column comes first in the key (`FixedKeys.SelfEqualityIff`,
  `FixedKeys.SelfEqualityLosesRow`) or the key has a value already, so that the order of the conjuncts
  matters (`FixedKeys.SwappedConjunctsLoseRow`).
- The cross-reference splice drops all but the first key of a table with several key columns, unless
  the table is the last one (`FixedKeys.SpliceIff`, `FixedKeys.SpliceLosesRow`).
- The array of key positions has one element less than there are ids. While a cross reference is planned,
  the id of its table is the last one, and the element behind the array is written
  (`AccessPath.FillOrder`, `AccessPath.OrderOfXrefPlan`).
- The pieces of a split WHERE share its nodes, and the first INSERT to come to a sub-plan replaces it by
  its output key. An INSERT that comes later runs earlier, and reads from a sub-plan that has not run.
  Sub-plans run before all their readers if and only if no operand that holds one is reached from two
  INSERTs (`PlanOrder.SubPlansFirstIff`, `PlanOrder.SharedSubPlanRunsLate`,
  `PhysicalPlans.RunSplitQuery`).
- Saving a table turns statements that point to nothing into null pointers, so what is loaded is the
  same statement exactly if there were none (`SchemaStore.SameAgainIff`,
  `SchemaStore.HollowKeywordIsLost`), and a shorter definition stored over a longer one is followed by
  the pieces of the old one (`SchemaStore.OlderPieces`, `SchemaStore.ShortOverLong`).
- An anchored pattern with a second circumflex is turned into an equality that accepts other strings
  (`Predicates.PlainTextMeansIff`, `Predicates.SecondCircumflex`).
- The fallback to the select list compares as many characters as the name has, so an alias that goes on
  after the name is taken for it (`Scopes.FallbackIff`, `Scopes.LongerAliasIsTaken`).
- A period in a LIKE pattern is not escaped, so it stands for any character (`Predicates.LikePeriodIsAny`).
- The buffer for a translated LIKE pattern must be three characters longer than the translation;
  otherwise the pattern is cut off or the ends do not fit (`Predicates.LikeToRegex`).
- `generate_routine_name` asserts a buffer of at least MAX_ROUTINE_LEN characters, and writes a
  terminating zero behind that many (`Names.GenerateRoutineName`, `Names.NameInShortBuffer`).
- The comment in `lp_optimize_where_multi_equal_ands` speaks of the lowest position of a table's keys;
  the array ends up with the last one. The model follows the code.
- The comment on `lp_make_normal_disjunctive_form` says that all disjunctions end up on the right; ORs that
  are nested to the left stay so, and only the recursion of `optimize_logical_plan` splits them. The model
  follows the code.

## Model

| member | source | states |
|---|---|---|
| Where.RankDrops | src/optimization_transforms/optimize_logical_plan.c:134-163 | the weighted clause count is strictly smaller in each operand of an AND or OR, so it bounds the recursion on shared trees |
| Where.TrueIffClauseHolds | src/optimization_transforms/lp_make_normal_disjunctive_form.c:91-94 | a condition is true exactly if all literals of one of its clauses are, and false exactly if those of one of its negation's are |
| Negation.PushStops | src/optimization_transforms/lp_make_normal_disjunctive_form.c:27-39 | a NOT that lp_apply_not leaves on top stands above an exempt operand, and no tree grows |
| Negation.NotOverTest | src/optimization_transforms/lp_make_normal_disjunctive_form.c:28-86 | which test each of the eight opposite tags becomes under a NOT, above which tags the NOT stays, and where it is lost |
| Negation.PushMeans | src/optimization_transforms/lp_make_normal_disjunctive_form.c:27-89 | lp_apply_not(t, n) means t for even n and its three-valued negation for odd n, on every tree safe for the call |
| Negation.PushedAfterPush | src/optimization_transforms/lp_make_normal_disjunctive_form.c:95-104 | pushing at the root before descending gives the same tree as pushing everywhere |
| Negation.PushedMeans | src/optimization_transforms/lp_make_normal_disjunctive_form.c:27-89 | pushing all NOTs keeps the meaning of every safe tree, its weighted clause count, and its clauses with their literals in order |
| Negation.PushedNotsAtLeaves | src/optimization_transforms/lp_make_normal_disjunctive_form.c:95-160 | after pushing, NOTs stand only above regex, IS and leaf operands |
| Negation.OneClauseIffOrFree | src/optimization_transforms/lp_make_normal_disjunctive_form.c:95-160 | with NOTs at the leaves, a tree is one clause exactly if it contains no OR |
| Negation.PushedMeansIffSafe | src/optimization_transforms/lp_make_normal_disjunctive_form.c:27-89 | on trees that mention each test once, pushing is negation if and only if the tree is safe |
| Negation.PushingNegatesIffSafe | src/optimization_transforms/lp_make_normal_disjunctive_form.c:27-89 | for every pattern of tags: pushing negates whatever the operands are if and only if the pattern is safe |
| Negation.DoubleNegatedRegexIsLost | src/optimization_transforms/lp_make_normal_disjunctive_form.c:28-35 | the concrete tree NOT NOT (a ~ b) comes out as NOT (a ~ b) |
| Comparisons.SqlOpposites | src/optimization_transforms/lp_make_normal_disjunctive_form.c:52-69 | the opposite of a comparison has the opposite three-valued truth value, comparing values with Null unknown |
| Comparisons.MComparesLikeSql | src/m_templates/tmpl_print_expression.ctemplate:107-170 | the printed operators compare numbers as SQL does, and text too except for <= and >= |
| Comparisons.MOppositesIff | src/m_templates/tmpl_print_expression.ctemplate:107-170 | in M the opposites are each other's negation if and only if numbers are compared, or text that is ordered like numbers |
| Comparisons.TextIsNotNegated | src/m_templates/tmpl_print_expression.ctemplate:152-170 | two texts for which NOT (a < b) is false and what it is turned into is true |
| NormalForm.ApplyNot | src/optimization_transforms/lp_make_normal_disjunctive_form.c:27-89 | the in-place version produces exactly the pushed tree, inside the nodes it was given, and leaves shared graphs alone below an even count |
| NormalForm.ApplyNotToOperands | src/optimization_transforms/lp_make_normal_disjunctive_form.c:42-51 | both De Morgan cases, in place |
| NormalForm.RemainingStep | src/optimization_transforms/lp_make_normal_disjunctive_form.c:123-159 | what the walk has still to cover is the pair at hand or what it has to cover at the next position |
| NormalForm.MakePair | src/optimization_transforms/lp_make_normal_disjunctive_form.c:128-142 | the new AND stands for the conjunction of the two clauses at hand |
| NormalForm.Append | src/optimization_transforms/lp_make_normal_disjunctive_form.c:143-149 | putting a pair in and opening the next node keeps the chain well formed |
| NormalForm.AddPair | src/optimization_transforms/lp_make_normal_disjunctive_form.c:125-154 | one round of the inner loop covers exactly the pair at hand; the tag chosen one round ahead is right |
| NormalForm.PairWithAll | src/optimization_transforms/lp_make_normal_disjunctive_form.c:124-154 | the inner loop pairs a left clause with every right clause once |
| NormalForm.Promote | src/optimization_transforms/lp_make_normal_disjunctive_form.c:161-173 | the empty sentinel is always removed and the chain then stands for the whole product |
| NormalForm.Distribute | src/optimization_transforms/lp_make_normal_disjunctive_form.c:120-175 | walk and promotion together give a normal graph equivalent to the conjunction of both clause lists, from new nodes only |
| NormalForm.Relink | src/optimization_transforms/lp_make_normal_disjunctive_form.c:113-118 | an OR takes over its operands' normal forms in place without changing what any shared node stands for |
| NormalForm.NormalOperands | src/optimization_transforms/lp_make_normal_disjunctive_form.c:103-104 | normalising one operand leaves the other as it was, even on shared graphs |
| NormalForm.MakeNormal | src/optimization_transforms/lp_make_normal_disjunctive_form.c:95-176 | the result is equivalent to the input (the same truth value, and the same clauses with the same multiplicities and their literals in the same order), normal, and every label of a shared input graph survives |
| NormalForm.UnfoldMeans | src/optimization_transforms/lp_make_normal_disjunctive_form.c:95-176 | the tree read off the heap is equivalent to its label, with NOTs at the leaves |
| NormalForm.NormalFormMeans | src/optimization_transforms/lp_make_normal_disjunctive_form.c:95-176 | the tree standing in the heap has the meaning and the clauses of the safe tree it was made from, and has an OR at its root or nowhere |
| Enumeration.AdmittedRow | src/m_templates/tmpl_key_advance.ctemplate:38-100 | whatever a key is read from, its table or a cross reference, its values are those of rows of the table |
| Enumeration.RowAdmitted | src/m_templates/tmpl_key_advance.ctemplate:38-100 | and every row of the table is found there, once the cross reference has been built |
| Enumeration.VisitedIff | src/m_templates/tmpl_physical_plan.ctemplate:85-115 | nested loops in which each key depends on earlier ones visit exactly the row choices that meet the fixes |
| Loops.NextSubscript | src/m_templates/tmpl_physical_plan.ctemplate:99-99 | $ORDER gives the least subscript after the given one, and Null after the last |
| Loops.Advance | src/m_templates/tmpl_physical_plan.ctemplate:98-110 | the loop of a free key runs through all its subscripts but Null, each once, in ascending order |
| Loops.KeyValues | src/m_templates/tmpl_physical_plan.ctemplate:85-111 | a fixed key takes its value exactly if there is data for it, a free key all that continue the keys before it |
| Loops.RunLoops | src/m_templates/tmpl_physical_plan.ctemplate:85-111 | the nested loops reach their body once for each way through the keys, in the order of the keys |
| Loops.RowsNameTheTurn | src/m_templates/tmpl_physical_plan.ctemplate:85-111 | the rows at which the loops stand determine all loop variables, also what a cross reference was entered with |
| Loops.ListRows | src/m_templates/tmpl_physical_plan.ctemplate:85-111 | the loops of a well-ordered plan list exactly the row choices they visit, each once |
| Loops.BuildXref | src/optimization_transforms/lp_generate_xref_plan.c:21-110 | the populating plan writes one entry for each row of the table, the column value and the keys, and no other |
| Loops.Populate | src/m_templates/tmpl_physical_plan.ctemplate:56-67 | before a plan runs, every cross reference its keys are read from is there and agrees with its table; those that were there stay |
| KeyFix.KeyIndex | src/optimization_transforms/lp_get_key_index.c:21-80 | the first key for a column, or -1 if there is none |
| KeyFix.JoinIndex | src/optimization_transforms/lp_generate_xref_keys.c:34-50 | an entry of the FROM list for the table that has not been replaced, or -1 |
| KeyFix.TargetIsEarlier | src/optimization_transforms/lp_optimize_where_multi_equals_ands.c:136-190 | what a key is fixed to is a constant, a column of an enclosing query, or a column of an earlier table |
| KeyFix.OrderOfFits | src/optimization_transforms/lp_optimize_where_multi_equals_ands.c:80-97 | the positions in key_unique_id_array grow from table to table |
| KeyFix.OrderOfAt | src/optimization_transforms/lp_optimize_where_multi_equals_ands.c:85-97 | the position of a table is that of its last key |
| KeyFix.LaterColumnIsFixed | src/optimization_transforms/lp_optimize_where_multi_equals_ands.c:136-190 | an equality with a constant or a column of an earlier table fixes the later column, whichever side it stands on; a column of an enclosing query has to stand on the left |
| KeyFix.EqualityFixesKey | src/optimization_transforms/lp_optimize_where_multi_equals_ands.c:128-259 | a key that nothing has fixed yet then gets exactly that value, and no other key changes |
| KeyFix.EqualityLooksUp | src/optimization_transforms/lp_optimize_where_multi_equals_ands.c:191-257 | any other column of a scanned table is made a cross-reference lookup |
| KeyFix.NothingToFix | src/optimization_transforms/lp_optimize_where_multi_equals_ands.c:36-71 | equalities with computed operands, and of two columns without keys, are not used |
| KeyFix.EqualityCommutes | src/optimization_transforms/lp_optimize_where_multi_equals_ands.c:128-259 | turning an equality around changes nothing, except between columns of one table or with a column of an enclosing query |
| KeyFix.ApplySplice | src/optimization_transforms/lp_optimize_where_multi_equals_ands.c:191-257 | what the splice leaves: the cross-reference keys in place of the table's keys, all other keys in order |
| KeyFix.TreeIsClause | src/optimization_transforms/lp_optimize_where_multi_equals_ands.c:101-127 | a tree without ORs is one clause, and the recursion takes its literals from left to right |
| KeyFix.KeyStep | src/optimization_transforms/lp_optimize_where_multi_equals_ands.c:191-259 | fixing a key keeps layout, order and backing of all keys |
| KeyFix.SpliceStep | src/optimization_transforms/lp_optimize_where_multi_equals_ands.c:191-257 | so does replacing a table by its cross reference, if its row keys are kept |
| KeyFix.SpliceDrops | src/optimization_transforms/lp_optimize_where_multi_equals_ands.c:250-257 | otherwise the table's second key column is dropped |
| KeyFix.DroppedStays | src/optimization_transforms/lp_optimize_where_multi_equals_ands.c:128-259 | a dropped key column gets no key again |
| KeyFix.StepKeeps | src/optimization_transforms/lp_optimize_where_multi_equals_ands.c:128-259 | any conjunct, whatever was fixed before it, keeps layout, order and backing, or a key column is lost |
| KeyFix.PassKeeps | src/optimization_transforms/lp_optimize_where_multi_equals_ands.c:101-259 | after a whole pass over any clause, unless a key column is lost, the keys are grouped by table in the order of the FROM list, depend on earlier tables and their own only, and the condition implies every fix |
| KeyFix.FixTreeTables | src/optimization_transforms/lp_generate_xref_keys.c:34-53 | a pass replaces tables by cross references in place, in the same order |
| FixedKeys.OrderedIff | src/optimization_transforms/lp_optimize_where_multi_equals_ands.c:136-190 | no key depends on one that is set later, exactly if none is fixed to itself or to a later key of its table |
| FixedKeys.FixedKeysSelectTheSame | src/optimization_transforms/lp_optimize_where_multi_equals_ands.c:101-259 | fixed keys and cross references select exactly what scanning and filtering selects |
| FixedKeys.WaitingVisitsNothing | src/optimization_transforms/lp_optimize_where_multi_equals_ands.c:136-259 | a key fixed to its own or a later key column of its table visits no row |
| FixedKeys.VisitedIffRunnable | src/optimization_transforms/lp_optimize_where_multi_equals_ands.c:101-259 | after a pass over any clause, a row of the FROM list for which the condition is true is visited if and only if every key column has a key and none waits for itself or a later one |
| FixedKeys.SelfEqualityIff | src/optimization_transforms/lp_optimize_where_multi_equals_ands.c:136-259 | an equality between two key columns of one table keeps the result if and only if the right column comes first in the key |
| FixedKeys.SpliceIff | src/optimization_transforms/lp_optimize_where_multi_equals_ands.c:250-257 | a cross-reference lookup keeps the result if and only if the table has one key column or is the last |
| FixedKeys.SpliceLosesRow | src/optimization_transforms/lp_optimize_where_multi_equals_ands.c:250-257 | two tables and a WHERE c = 7 for which the row is lost |
| FixedKeys.SelfEqualityLosesRow | src/optimization_transforms/lp_optimize_where_multi_equals_ands.c:136-259 | a table with the row (4, 4) and a WHERE k0 = k1 for which the row is lost |
| FixedKeys.SwappedConjunctsLoseRow | src/optimization_transforms/lp_optimize_where_multi_equals_ands.c:101-259 | the row is found with k0 = 4 AND k0 = k1, and lost with k0 = k1 AND k0 = 4 |
| AccessPath.SqlKey.FixTo | src/optimization_transforms/lp_opt_fix_key_to_const.c:29-40 | only a key that advances and does not come from a cross reference is fixed |
| AccessPath.Plan.GetKeyIndex | src/optimization_transforms/lp_get_key_index.c:21-80 | the loop finds the first key for a column |
| AccessPath.Plan.VerifyValidForKeyFix | src/optimization_transforms/lp_optimize_where_multi_equals_ands.c:36-71 | which equalities are considered |
| AccessPath.AppendTableKeys | src/optimization_transforms/optimize_logical_plan.c:88-102 | one new advancing key per key column behind the existing keys |
| AccessPath.JoinTables | src/optimization_transforms/optimize_logical_plan.c:25-110 | the key list is the scan of the FROM list, in its order, of distinct key objects |
| AccessPath.ComputeOrder | src/optimization_transforms/lp_optimize_where_multi_equals_ands.c:85-97 | the contents of the array are the last position of each table's keys |
| AccessPath.FillOrder | src/optimization_transforms/lp_optimize_where_multi_equals_ands.c:80-97 | in an array of one element less than the id counter, the loop writes these contents; nothing behind the array is written if and only if every id of the plan is below the counter less one |
| AccessPath.OrderOfXrefPlan | src/optimization_transforms/lp_generate_xref_plan.c:53-108 | the plan of a cross reference, whose table has just got the last id, writes behind the array |
| AccessPath.FindJoin | src/optimization_transforms/lp_generate_xref_keys.c:34-50 | the search through the FROM list |
| AccessPath.GenerateXrefKeys | src/optimization_transforms/lp_generate_xref_keys.c:56-72 | one new key per key column, read from the cross reference |
| AccessPath.FindRun | src/optimization_transforms/lp_optimize_where_multi_equals_ands.c:209-236 | first key of the table and end of its run |
| AccessPath.SpliceKeys | src/optimization_transforms/lp_optimize_where_multi_equals_ands.c:206-255 | the pointer surgery computes the splice, with distinct key objects |
| AccessPath.FixConjunct | src/optimization_transforms/lp_optimize_where_multi_equals_ands.c:128-259 | one conjunct, in place, does what the step function says |
| AccessPath.FixConjuncts | src/optimization_transforms/lp_optimize_where_multi_equals_ands.c:101-127 | the recursion over the AND tree; its assert that no OR is left never fails |
| AccessPath.OptimizeWhere | src/optimization_transforms/lp_optimize_where_multi_equals_ands.c:73-99 | the whole pass on key objects refines the pass on key lists |
| Planner.CopyPlan | src/optimization_transforms/lp_copy_plan.c:17-59 | a copy has new key objects with the same contents and the same output key |
| Planner.JoinPlans | src/optimization_transforms/lp_join_plans.c:24-39 | a new set operation over the two plans, or the only one if the other is missing |
| Planner.SplitOff | src/optimization_transforms/optimize_logical_plan.c:141-157 | one round of the loop keeps the disjunction of all pieces equivalent to the original, with separate plans and keys |
| Planner.Split | src/optimization_transforms/optimize_logical_plan.c:138-159 | the loop ends, the pieces together are equivalent to the WHERE, and each carries the expansion keyword and the same output key |
| Planner.LeafHasNoOr | src/optimization_transforms/lp_optimize_where_multi_equals_ands.c:121-121 | a leaf's WHERE contains no OR at any depth |
| Planner.UnusedIsHarmless | src/optimization_transforms/lp_optimize_where_multi_equals_ands.c:36-71 | tests that the pass does not use, such as inequalities and equalities between columns without keys, do no harm |
| Planner.LeafFixed | src/optimization_transforms/optimize_logical_plan.c:165-166 | the access path of a leaf is the one for its clause, fixed by nothing but what its WHERE implies |
| Planner.Normalize | src/optimization_transforms/optimize_logical_plan.c:122-136 | keys joined and WHERE normalised, with the labels of shared nodes kept |
| Planner.FinishLeaf | src/optimization_transforms/optimize_logical_plan.c:165-167 | a plan that was not split ends up finished |
| Planner.OptimizeUnion | src/optimization_transforms/optimize_logical_plan.c:116-120 | optimising one operand leaves the other one's plans, keys and meaning as they were |
| Planner.OptimizeInsert | src/optimization_transforms/optimize_logical_plan.c:122-168 | splitting and recursion end, and give a finished tree equivalent to the plan |
| Planner.Optimize | src/optimization_transforms/optimize_logical_plan.c:113-168 | the whole recursion terminates, every leaf is one clause with the access path for it, leaves share no plan or key object, and the leaves together are equivalent to the WHERE |
| Query.SqlTestsAreSql | src/optimization_transforms/lp_make_normal_disjunctive_form.c:52-81 | SQL's comparisons, with any computed values, any sub-select answers and any other tests, are what the theorems ask of tests, in every database |
| Query.MTestsAreSqlIff | src/m_templates/tmpl_print_expression.ctemplate:98-222 | those of the generated M code are if and only if no text is compared that is not ordered like numbers |
| Query.LeafSelects | src/optimization_transforms/optimize_logical_plan.c:165-167 | a finished leaf selects a row of the FROM list exactly if its keys can be run and its WHERE is true of the row |
| Query.RunnableSelects | src/optimization_transforms/optimize_logical_plan.c:165-167 | if its keys can be run it selects exactly the rows for which its WHERE is true |
| Query.LeavesAreClauses | src/optimization_transforms/optimize_logical_plan.c:138-163 | the number of leaves is the number of clauses |
| Query.TreeFinds | src/optimization_transforms/optimize_logical_plan.c:113-168 | the leaves together select a row of the FROM list if and only if a clause of the original WHERE holds for it whose access path can be run |
| Query.RunnableIffHarmless | src/optimization_transforms/optimize_logical_plan.c:113-168 | the keys of all leaves can be run if and only if the access paths of all clauses of the original WHERE can |
| Query.TreeSelects | src/optimization_transforms/optimize_logical_plan.c:113-168 | if they can, the leaves together select a row exactly if the original WHERE is true of it |
| Query.OptimizeQuery | src/optimization_transforms/optimize_logical_plan.c:113-168 | on every parsed query on whose WHERE pushing NOTs down is negation: as many leaves as clauses, no OR in any leaf, from any database exactly the rows selected for which a clause with a runnable access path holds, and exactly the wanted rows if all clauses have one |
| Output.LaidTag | src/m_templates/tmpl_duplication_check.ctemplate:17-34 | a row is noted down under the same subscripts by every piece, however it reached the row |
| Output.SameTagSameRow | src/m_templates/tmpl_duplication_check.ctemplate:17-34 | two rows with the same subscripts are the same row |
| Output.Cursor.RunPlan | src/m_templates/tmpl_physical_plan.ctemplate:144-262 | with the check, exactly the new rows among those visited are put out, none twice |
| Query.EvalNode | src/m_templates/tmpl_print_expression.ctemplate:98-222 | the condition read off the heap has the truth value of the expression it stands for |
| Query.SelectRows | src/m_templates/tmpl_physical_plan.ctemplate:85-135 | loops and condition together list exactly the rows the plan selects, each once |
| Query.RunLeaf | src/m_templates/tmpl_physical_plan.ctemplate:56-262 | the routine of one plan adds to the output exactly the rows of the FROM list for which its WHERE is true |
| Query.RunTree | src/m_templates/tmpl_physical_plan.ctemplate:56-262 | over a UNION ALL tree, every row for which the WHERE of some leaf is true is put out once, by the first leaf that accepts it and in the order of the leaves |
| Query.RunQuery | src/m_templates/tmpl_physical_plan.ctemplate:56-262 | running an optimised query puts out every row its WHERE asks for, no other row, and none twice, leaf by leaf |
| Query.AnswerQuery | src/optimization_transforms/optimize_logical_plan.c:113-168 | optimising a parsed query and running what comes out puts out every row that the parsed WHERE asks for, no other row, and none twice |
| Predicates.ExpandIn | src/optimization_transforms/lp_generate_where.c:50-80 | the chain of tests for IN or NOT IN, last value first, has the meaning of section 8.4 of ISO/IEC 9075:1992, and as many clauses as values for IN, one for NOT IN |
| Predicates.LikeToRegex | src/regex_to_like.c:21-48 | the loop computes the anchored translation of the longest part of the pattern that the buffer admits; it is whole and fits with its zero if and only if the buffer is three characters longer than the translation |
| Predicates.LikeIsWritten | src/regex_to_like.c:21-48 | for patterns of ordinary characters the translation is the text of that expression |
| Predicates.LikeMeans | src/regex_to_like.c:21-48 | the expression that the translation stands for accepts exactly the strings that are LIKE the pattern (section 8.5 of ISO/IEC 9075:1992) |
| Predicates.LikePeriodIsAny | src/regex_to_like.c:36-40 | the translation of a.b accepts axb, which is not LIKE a.b |
| Predicates.SpecialIff | src/optimization_transforms/lp_generate_where.c:98-118 | the scan stops at exactly the characters that operators of extended regular expressions are written with |
| Predicates.PlainText | src/optimization_transforms/lp_generate_where.c:85-131 | which expressions become equalities, and with which text |
| Predicates.PlainTextMeansIff | src/optimization_transforms/lp_generate_where.c:85-131 | for every extended regular expression without special characters: the equality accepts the same strings if and only if there is no circumflex in it |
| Predicates.SecondCircumflex | src/optimization_transforms/lp_generate_where.c:85-131 | the pattern ^a^b$ becomes the equality with a^b, which it does not match |
| Predicates.PlainLikeIsEquality | src/optimization_transforms/lp_generate_where.c:82-131 | a LIKE pattern without wildcards means equality with itself |
| Statements.PackedMoves | src/octo_types.h:49-54 | the packed form does not depend on its address |
| Statements.PackedKeyword | src/octo_types.h:49-54 | a keyword packed at address 100, cell by cell: every pointer holds the distance from where it stands |
| Statements.LiveFrame | src/decompress_statement.c:37-158 | a live statement depends on nothing but the cells of its records |
| Statements.LiveUnique | src/octo_types.h:451-485 | a statement in memory is the only one that can be read at its address |
| Compress.CompressText | src/compress_statement.c:83-108 | value record and string with its zero; the same length is counted and written |
| Compress.CompressItem | src/compress_statement.c:20-27 | a record followed by all it points to, its pointers relative to themselves; the same length is counted and written |
| Compress.CompressRing | src/compress_statement.c:118-163 | a ring becomes a chain of records ending in a zero |
| Compress.CompressHelper | src/compress_statement.c:44-200 | for every statement graph: the counting pass changes nothing and finds the length that the writing pass uses; the writing pass writes the packed form and nothing else; it stops exactly on a foreign type |
| Compress.CompressStatement | src/compress_statement.c:31-37 | both passes: the buffer has the right length and holds the packed form |
| Layout.SettledStays | src/decompress_statement.c:37-158 | what decompressing leaves depends on the cells of the buffer only |
| Layout.SettledLive | src/decompress_statement.c:37-158 | it is the live form of the statement, all of its records inside the buffer |
| Decompress.PackedLayout | src/compress_statement.c:44-200 | records and what they point to do not overlap and lie inside the buffer; pointers are positive if they lead anywhere and zero if not |
| Decompress.DecompressItem | src/decompress_statement.c:20-24 | all pointers of a record made absolute, its ring links untouched |
| Decompress.DecompressRing | src/decompress_statement.c:86-121 | the chain becomes a closed ring with consistent next and prev links |
| Decompress.DecompressHelper | src/decompress_statement.c:37-158 | at any address the packed form becomes the settled form of the same statement, every record at its place, and nothing else changes |
| SchemaStore.CutJoins | src/run_query.c:166-181 | pieces of any positive size, joined in order, are the buffer followed by zeros |
| SchemaStore.OlderPieces | src/find_table.c:80-102 | only zeros follow if and only if the pieces left from an older definition hold nothing else |
| SchemaStore.ShortOverLong | src/find_table.c:80-102 | a definition of one cell stored over one of two, in pieces of one cell, comes back with the old second cell |
| SchemaStore.StorePieces | src/run_query.c:166-181 | the loop stores the cut buffer and leaves higher subscripts as they were |
| SchemaStore.LoadPieces | src/find_table.c:80-102 | the loop rebuilds the padded pieces at a new address |
| SchemaStore.CleanIff | src/compress_statement.c:55-58 | the form without hollow statements is the statement itself if and only if nothing in it is hollow |
| SchemaStore.CleanPacked | src/compress_statement.c:55-58 | the packed form does not tell a hollow statement from a null pointer |
| SchemaStore.SameAgainIff | src/compress_statement.c:55-58 | the loaded memory can be read as the saved statement if and only if nothing in it was hollow |
| SchemaStore.HollowKeywordIsLost | src/compress_statement.c:55-58 | a keyword with a hollow value: however it is loaded, the memory cannot be read as the same keyword |
| SchemaStore.SaveAndLoad | src/find_table.c:80-106 | compressing, storing, loading and decompressing gives the live form of the same statement at the new address if and only if nothing in it is hollow, its form without hollow statements in any case, and leaves the original alive |
| Columns.PieceIsKept | src/find_table.c:104-106 | after saving and loading, assigning again leaves every PIECE as it is |
| Columns.DecimalReads | src/assign_table_to_columns.c:47-50 | the digits of a number, read from left to right, are the number again, without leading zeros |
| Pieces.MakePiece | src/assign_table_to_columns.c:43-55 | a live keyword PIECE with the number in decimal, in new memory |
| Pieces.AddPiece | src/assign_table_to_columns.c:43-58 | the keyword is put behind the last one of the ring; nothing but two links changes |
| Pieces.LongerLive | src/assign_table_to_columns.c:56-58 | the statement for the keywords then is live as the longer ring |
| Owners.FindKeyword | src/get_keyword_from_keywords.c:21-31 | the walk around the keyword ring of a loaded column finds the first keyword of a type, or none |
| Owners.OwnerKeeps | src/compress_statement.c:128-130 | a column's link to its table is no part of the column's value |
| Owners.AssignColumn | src/assign_table_to_columns.c:36-59 | a column gets a link to its table, and a PIECE behind its keywords exactly if it has none; nothing outside the column changes |
| Owners.AssignColumns | src/assign_table_to_columns.c:32-61 | the loop goes once around the ring of columns and numbers them by position |
| Owners.AssignTable | src/assign_table_to_columns.c:21-62 | the whole table is live afterwards with a PIECE for every column, every column is linked to a statement that points to the table, and nothing but the columns has changed |
| Owners.PiecesNumberColumns | src/assign_table_to_columns.c:32-61 | nothing but keywords of columns changes; a column without a PIECE gets one behind its keywords that reads as the column's number |
| Owners.FoundAsSaved | src/find_table.c:104-106 | what CREATE TABLE saves after assigning PIECEs is found as it was saved: assigning again adds nothing |
| Owners.SaveAndFind | src/find_table.c:80-106 | a saved table is found again at another address as the same table, hollow statements aside, with a PIECE for every column and every column linked to it |
| Rings.Insert | src/double_list.h:23-28 | two disjoint rings become one, their concatenation |
| Scopes.NameOfIs | src/qualify_column_name.c:46-59 | a table and a column joined by a period are taken apart again; a name without a period is a column |
| Scopes.ResolveIff | src/qualify_column_name.c:62-91 | a name belongs to a join if and only if it is the first that the name is about and has the column |
| Scopes.QualifyColumnName | src/qualify_column_name.c:62-91 | the walk around the ring finds the innermost match, and warns exactly if an unqualified name matches twice |
| Scopes.FallbackIff | src/qualify_column_name.c:93-114 | a name that is in no table is taken for the select-list column of that alias if and only if no longer alias that begins with it comes first |
| Scopes.LongerAliasIsTaken | src/qualify_column_name.c:99-100 | the name "to" is taken for the alias "total" |
| Scopes.FirstBeginsIff | src/qualify_column_name.c:97-113 | the column found is the first whose alias begins with the name |
| Scopes.QualifyInSelectList | src/qualify_column_name.c:93-114 | the walk around the select list finds the first alias that begins with the name, and warns exactly if there is another |
| Scopes.QualifyReference | src/qualify_column_name.c:32-125 | a name is taken for a table's column, else for a column of the select list, which is asked exactly for names without a table that are in no table |
| Scopes.AnsweredIff | src/qualify_column_name.c:93-119 | a name is a select-list column if and only if it has no table, is in no table and begins an alias, and unknown in all other cases |
| Scopes.EveryNameIsAnswered | src/qualify_query.c:21-70 | every name of a query, in both operands of set operations, derived tables, conditions, the rest of a SELECT and subqueries at any depth, has one answer, in order, each found in the scope and select list of its place |
| Scopes.OwnTablesFirst | src/qualify_query.c:35-43 | a query's own tables hide those of the enclosing queries |
| Scopes.Qualify | src/qualify_query.c:21-70 | at any nesting depth every name resolves as lexical scoping says, falling back to the select list of its own SELECT, and all rings are as before afterwards |
| Scopes.QualifySelect | src/qualify_query.c:31-60 | splicing the enclosing ring in and taking it out again restores every link |
| Scopes.QualifyJoins | src/qualify_query.c:43-49 | the loop visits exactly the query's own joins |
| Scopes.QualifyParts | src/qualify_query.c:43-52 | derived tables, join conditions, select list, WHERE and ORDER BY are all qualified in the scope of the SELECT and with its select list |
| Scopes.QualifyExpression | src/qualify_statement.c:21-132 | the names and subqueries of an expression, in the order they are visited |
| Arena.Memory.Cmalloc | src/memory_chunk.c:22-56 | the next cells of the last chunk, or of a new one exactly if they do not fit, disjoint from all earlier regions and still zero, with the chunk ring kept |
| Arena.Memory.CmallocAll | src/memory_chunk.c:22-56 | any run of calls gives regions of the sizes asked for, pairwise disjoint |
| Arena.Memory.Write | src/memory_chunk.c:22-56 | using a region as granted keeps the cells not handed out zero and other regions as they are |
| Arena.Memory.Cfree | src/memory_chunk.c:58-75 | every chunk is freed exactly once, none read after it was freed |
| PlanOrder.SubPlansFirstIff | src/physical/generate_physical_plan.c:126-160 | every sub-plan runs before all plans that read from it if and only if no operand that holds a plan is reached from two INSERTs |
| PlanOrder.SharedSubPlanRunsLate | src/physical/generate_physical_plan.c:250-259 | two pieces that share an IN node: the first one runs before the sub-select it reads from |
| PlanOrder.OneEach | src/physical/generate_physical_plan.c:98-106 | every INSERT gets exactly one physical plan, however many others read from it |
| PlanOrder.LeftFirst | src/physical/generate_physical_plan.c:40-43 | wherever a set operation stands, its left operand's plans run before its right operand's |
| PlanOrder.FromFirst | src/physical/generate_physical_plan.c:130-145 | wherever an INSERT stands, the plans in its FROM list run before it |
| PhysicalPlans.Push | src/physical/generate_physical_plan.c:98-106 | a new plan in front of the list, with both links |
| PhysicalPlans.Replace | src/physical/generate_physical_plan.c:209-222 | an operand that held a plan holds an output key afterwards; all other nodes are as before, for every INSERT that shares them |
| PhysicalPlans.Generate | src/physical/generate_physical_plan.c:28-184 | the recursion, on nodes that INSERTs may share, builds a well-linked list of the plans in the order specified, each with the INSERT it stands in as parent, and leaves every plan it came to replaced by its output key |
| PhysicalPlans.GenerateBody | src/physical/generate_physical_plan.c:126-160 | FROM list, WHERE and projection of an INSERT, in that order |
| PhysicalPlans.GenerateTable | src/physical/generate_physical_plan.c:133-143 | a plan in the FROM list is generated, a table is not |
| PhysicalPlans.GenerateJoins | src/physical/generate_physical_plan.c:129-145 | the loop over the FROM list |
| PhysicalPlans.Walk | src/physical/generate_physical_plan.c:200-277 | plans met on the way are generated, and the output key of each is returned for it, of a set operation that of its leftmost INSERT |
| PhysicalPlans.WalkOperands | src/physical/generate_physical_plan.c:208-213 | both operands, the second as the first has left it |
| PhysicalPlans.RunSplitQuery | src/physical/generate_physical_plan.c:28-277 | for a IN (SELECT ..) AND (id = 1 OR id = 2) the list is the first piece, the sub-select, the second piece |
| Names.HashToString | src/ydb_hash_to_string.c:21-39 | the loop writes the interleaved digits and nothing else |
| Names.TellsApartIff | src/ydb_hash_to_string.c:29-38 | 2k characters tell all 128-bit hashes apart if and only if k is at least 11 |
| Names.DigitsRead | src/ydb_hash_to_string.c:21-39 | all characters are digits and letters; those at even places are the first half in base 62, those at odd places the second, lowest digit first |
| Names.NameReads | src/generate_routine_name.c:38-60 | both halves of a 128-bit hash can be read off the name |
| Names.GenerateRoutineName | src/generate_routine_name.c:26-63 | the prefix %ydboctoX for cross references and %ydboctoP for output plans, 22 characters of the hash, a terminating zero, and nothing else; memory outside the buffer stays as it was if and only if the buffer is longer than the name or is followed by a zero already |
| Names.NameInShortBuffer | src/run_query.c:40-40 | with a buffer of MAX_ROUTINE_LEN characters the one behind it is overwritten |
| Names.NamesAreInjective | src/generate_routine_name.c:38-60 | names of different hashes or of different kinds of file differ |

## Left out

- AccessPath.Plan.GetKeyIndex: for FROM lists of base tables; a derived table has a key without a table, which makes lp_get_key_index return -2, and the equality is not used.
- AccessPath.JoinTables: for FROM lists of base tables.
- Set operations written by the user: Planner.Optimize covers the trees that splitting makes, and PhysicalPlans only the order of all plans.
- PlanOrder.SubPlansFirstIff: for plans in which an operand holds one sub-plan, every INSERT starts once, and the INSERTs of a set operation share nothing but operands with the whole sub-plans they hold, as splitting leaves them; that a correlated sub-plan is deferred and called by its reader is not modelled.
- AccessPath.Plan.VerifyValidForKeyFix: for FROM lists of base tables, as Plan.GetKeyIndex.
- KeyFix.KeyIndex: for FROM lists of base tables.
- Planner.JoinPlans: the kind of set operation is not modelled; splitting only makes UNION ALL.
- Planner.CopyPlan: does not copy the WHERE, which the caller overwrites at once.
- The number of optimisations that lp_optimize_where_multi_equal_ands returns, which no caller uses.
- The triggers that keep a cross reference up to date after it has been built, its counters, and the lock around building it: the tables do not change while a query runs.
- What an M expression does: tests are interpreted by arbitrary functions, and a template is modelled only as far as its loops, its condition and its duplication check.
- The START, END and ADVANCE keywords of a column, which replace parts of its loop by M code of the user's.
- Query.SelectRows: the loops run to their end before the condition is tested, which changes nothing because the body changes nothing that they read.
- ORDER BY, LIMIT, DISTINCT and the columnwise index of the M templates.
- Query.OptimizeQuery: asks for a WHERE on which pushing NOTs down is negation (PushingNegatesIffSafe).
- Query.RunLeaf: for a leaf whose keys can be run; with others M reads a variable that is not set, which is an error there.
- Query.RunTree: for leaves whose keys can be run.
- Query.RunQuery: the same.
- Query.AnswerQuery: for a WHERE as in OptimizeQuery all of whose clauses have access paths that can be run; which rows the plans select in the other cases is in TreeFinds.
- Owners.AssignColumn: for a column laid out as loading leaves it.
- Owners.AssignColumns: the same.
- Owners.AssignTable: for a table laid out as loading leaves it; CREATE TABLE calls it on records that were allocated one by one.
- NormalForm.MakeNormal: in which order the clauses stand in the chain and how ORs are nested is not stated.
- Predicates.PlainTextMeansIff: classes and ranges in brackets are not modelled.
- The next and prev links of a table itself: raw pointers that saving leaves as they are and nothing follows.
- Compress.CompressHelper: column_list, column_list_alias and join statements count as foreign; the code walks over them without copying anything, and no table contains them.
- Compress.CompressStatement: malloc never fails and lengths do not overflow an int.
- Memory keeps a field in one cell, so the order of the bytes of a field is not modelled.
- Arena.Memory.Cmalloc: sizes do not overflow a size_t.
- FixedKeys.WaitingVisitsNothing: a key that has not been set reads as Null; M would stop with an error.
- The qualification of function names.
- The deferred-plan marking of walk_where_statement and the flags of set operations.
- Query.EvalNode: the operators of M are interpreted as the tests they are printed for.
- Sockets, the wire protocol, the parser, database calls, logging and configuration.
