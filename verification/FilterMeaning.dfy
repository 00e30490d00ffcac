/** Compilation preserves meaning: the text BuildWhere prints, as a database reads it, and the
    verdict of Match are both the meaning of the JSON tree. */
module FilterMeaning {
  import opened Wrappers
  import opened FilterJson
  import opened FilterTokens
  import opened FilterWalk
  import opened FilterSimulation
  import opened FilterSql
  import opened SqlSemantics
  import opened FilterMatch

  /** A leaf under the database's reading of it. */
  function LeafMap(fm: FieldSpecMap, I: Interp, field: string, op: string, value: Json): Result<bool, Error> {
    var col :- Admit(fm, field, op);
    var s :- ScalarString(value);
    if Lower(op) !in COMPARISONS then Err(UnsupportedOp)
    else Ok(I(Template(col, LeafShape(Lower(op))), LeafArg(Lower(op), s)))
  }

  function LeafBackend(fm: FieldSpecMap, I: Interp): Backend<bool> {
    Backend((field, op, value) => LeafMap(fm, I, field, op, value), BOOL_COMBINER)
  }

  /** The meaning of a whole filter: the conjunction of its fields, true when there are none. */
  function TreeMeaning(root: Json, b: Backend<bool>): Result<bool, Error> {
    var fields :- AsObject(root);
    var conds :- Denote(fields, b);
    Ok(AndAll(conds))
  }

  // ----- Empty logical arrays: the one shape whose text is not SQL -----

  predicate NoEmptyArrays(j: Json)
    decreases Size(j), 0
  {
    match AsObject(j)
    case Ok(ops) => OpsNoEmptyArrays(ops)
    case Err(_) => true
  }

  predicate OpsNoEmptyArrays(ops: seq<Member>)
    decreases MembersSize(ops)
  {
    ops == [] || (OpNoEmptyArrays(ops[0].key, ops[0].value) && OpsNoEmptyArrays(ops[1..]))
  }

  predicate OpNoEmptyArrays(op: string, j: Json)
    decreases Size(j), 1
  {
    match Kind(op)
    case Leaf => true
    case Not => NoEmptyArrays(j)
    case _ => AsArray(j).Err? || (AsArray(j).value != [] && ItemsNoEmptyArrays(AsArray(j).value))
  }

  predicate ItemsNoEmptyArrays(items: seq<Json>)
    decreases ItemsSize(items)
  {
    items == [] || (NoEmptyArrays(items[0]) && ItemsNoEmptyArrays(items[1..]))
  }

  /** No field of the filter uses an empty $and, $or or $nor array, at any depth. */
  predicate FieldsNoEmptyArrays(fields: seq<Member>) {
    fields == [] || (NoEmptyArrays(fields[0].value) && FieldsNoEmptyArrays(fields[1..]))
  }

  // ----- A third back end, which loses its value on an empty group -----

  function Strict(combine: seq<bool> -> bool): seq<Option<bool>> -> Option<bool> {
    (qs: seq<Option<bool>>) =>
      if qs == [] || exists i | 0 <= i < |qs| :: qs[i].None? then None
      else Some(combine(seq(|qs|, i requires 0 <= i < |qs| => qs[i].GetOr(false))))
  }

  function StrictBackend(b: Backend<bool>): Backend<Option<bool>> {
    Backend(
      (field, op, value) =>
        match b.mapper(field, op, value) case Ok(v) => Ok(Some(v)) case Err(e) => Err(e),
      Combiner(Strict(b.combiner.and), Strict(b.combiner.or), Strict(b.combiner.nor),
        (q: Option<bool>) => if q.None? then None else Some(b.combiner.not(q.value))))
  }

  /** `s` is `r` when `ok`, and has lost its value otherwise. */
  ghost predicate Kept(s: Result<Option<bool>, Error>, r: Result<bool, Error>, ok: bool) {
    match r
    case Ok(v) => s == Ok(if ok then Some(v) else None)
    case Err(e) => s == Err(e)
  }

  ghost predicate KeptSeq(s: Result<seq<Option<bool>>, Error>, r: Result<seq<bool>, Error>, ok: bool) {
    match r
    case Ok(vs) =>
      && s.Ok? && |s.value| == |vs|
      && (if ok then forall i | 0 <= i < |vs| :: s.value[i] == Some(vs[i])
          else exists i :: 0 <= i < |vs| && s.value[i].None?)
    case Err(e) => s == Err(e)
  }

  lemma KeptCons(s: Result<Option<bool>, Error>, r: Result<bool, Error>, ok: bool,
                 ss: Result<seq<Option<bool>>, Error>, rs: Result<seq<bool>, Error>, oks: bool)
    requires Kept(s, r, ok) && KeptSeq(ss, rs, oks) && r.Ok?
    ensures KeptSeq(Prepend([s.value], ss), Prepend([r.value], rs), ok && oks)
  {
    if rs.Ok? {
      var out := [s.value] + ss.value;
      if !ok {
        assert out[0].None?;
      } else if !oks {
        var i :| 0 <= i < |rs.value| && ss.value[i].None?;
        assert out[i + 1].None?;
      }
    }
  }

  /** A group of kept values keeps its value, an empty one or one with a lost value does not. */
  lemma KeptCombine(vs: seq<bool>, ss: seq<Option<bool>>, ok: bool, combine: seq<bool> -> bool)
    requires KeptSeq(Ok(ss), Ok(vs), ok)
    ensures Strict(combine)(ss) == if vs != [] && ok then Some(combine(vs)) else None
  {
    if vs != [] && ok {
      assert seq(|ss|, i requires 0 <= i < |ss| => ss[i].GetOr(false)) == vs;
    }
  }

  lemma {:induction false} StrictOps(field: string, ops: seq<Member>, b: Backend<bool>)
    ensures KeptSeq(DenoteOps(field, ops, StrictBackend(b)), DenoteOps(field, ops, b), OpsNoEmptyArrays(ops))
    decreases MembersSize(ops), 0
  {
    if ops != [] {
      StrictOp(field, ops[0].key, ops[0].value, b);
      StrictOps(field, ops[1..], b);
      var s, r := DenoteOp(field, ops[0].key, ops[0].value, StrictBackend(b)), DenoteOp(field, ops[0].key, ops[0].value, b);
      if r.Ok? {
        KeptCons(s, r, OpNoEmptyArrays(ops[0].key, ops[0].value),
          DenoteOps(field, ops[1..], StrictBackend(b)), DenoteOps(field, ops[1..], b), OpsNoEmptyArrays(ops[1..]));
      }
    }
  }

  lemma {:induction false} StrictObject(field: string, j: Json, b: Backend<bool>)
    ensures Kept(DenoteObject(field, j, StrictBackend(b)), DenoteObject(field, j, b), NoEmptyArrays(j))
    decreases Size(j), 0
  {
    if AsObject(j).Ok? {
      var ops := AsObject(j).value;
      StrictOps(field, ops, b);
      var s, r := DenoteOps(field, ops, StrictBackend(b)), DenoteOps(field, ops, b);
      if r.Ok? {
        KeptCombine(r.value, s.value, OpsNoEmptyArrays(ops), b.combiner.and);
      }
    }
  }

  lemma {:induction false} StrictOp(field: string, op: string, j: Json, b: Backend<bool>)
    ensures Kept(DenoteOp(field, op, j, StrictBackend(b)), DenoteOp(field, op, j, b), OpNoEmptyArrays(op, j))
    decreases Size(j), 1
  {
    match Kind(op)
    case Leaf =>
    case Not => StrictObject(field, j, b);
    case k =>
      if AsArray(j).Ok? {
        var items := AsArray(j).value;
        StrictItems(field, items, b);
        var s, r := DenoteItems(field, items, StrictBackend(b)), DenoteItems(field, items, b);
        if r.Ok? {
          DenoteItemsLength(field, items, b);
          KeptCombine(r.value, s.value, ItemsNoEmptyArrays(items), b.combiner.and);
          KeptCombine(r.value, s.value, ItemsNoEmptyArrays(items), b.combiner.or);
          KeptCombine(r.value, s.value, ItemsNoEmptyArrays(items), b.combiner.nor);
        }
      }
  }

  lemma {:induction false} DenoteItemsLength<Q>(field: string, items: seq<Json>, b: Backend<Q>)
    ensures DenoteItems(field, items, b).Ok? ==> |DenoteItems(field, items, b).value| == |items|
    decreases |items|
  {
    if items != [] {
      DenoteItemsLength(field, items[1..], b);
    }
  }

  lemma {:induction false} StrictItems(field: string, items: seq<Json>, b: Backend<bool>)
    ensures KeptSeq(DenoteItems(field, items, StrictBackend(b)), DenoteItems(field, items, b), ItemsNoEmptyArrays(items))
    decreases ItemsSize(items), 0
  {
    if items != [] {
      StrictObject(field, items[0], b);
      StrictItems(field, items[1..], b);
      var s, r := DenoteObject(field, items[0], StrictBackend(b)), DenoteObject(field, items[0], b);
      if r.Ok? {
        KeptCons(s, r, NoEmptyArrays(items[0]),
          DenoteItems(field, items[1..], StrictBackend(b)), DenoteItems(field, items[1..], b), ItemsNoEmptyArrays(items[1..]));
      }
    }
  }

  lemma {:induction false} StrictFields(fields: seq<Member>, b: Backend<bool>)
    ensures KeptSeq(Denote(fields, StrictBackend(b)), Denote(fields, b), FieldsNoEmptyArrays(fields))
    decreases |fields|
  {
    if fields != [] {
      StrictObject(fields[0].key, fields[0].value, b);
      StrictFields(fields[1..], b);
      var s, r := DenoteObject(fields[0].key, fields[0].value, StrictBackend(b)),
        DenoteObject(fields[0].key, fields[0].value, b);
      if r.Ok? {
        KeptCons(s, r, NoEmptyArrays(fields[0].value),
          Denote(fields[1..], StrictBackend(b)), Denote(fields[1..], b), FieldsNoEmptyArrays(fields[1..]));
      }
    }
  }

  // ----- A fragment and its value -----

  /** The fragment is an operand with value `v`, or a syntax error when there is no value. */
  ghost predicate Reads(c: Condition, v: Option<bool>, I: Interp) {
    match v
    case Some(b) => exists e :: Operand(c, e) && Eval(e, I) == b
    case None => Broken(c)
  }

  lemma PickOperands(cs: seq<Condition>, vs: seq<Option<bool>>, I: Interp) returns (es: seq<Expr>)
    requires |cs| == |vs| && forall i | 0 <= i < |cs| :: vs[i].Some? && Reads(cs[i], vs[i], I)
    ensures |es| == |cs|
    ensures forall i | 0 <= i < |cs| :: Operand(cs[i], es[i]) && Eval(es[i], I) == vs[i].value
  {
    es := [];
    for k := 0 to |cs|
      invariant |es| == k
      invariant forall i | 0 <= i < k :: Operand(cs[i], es[i]) && Eval(es[i], I) == vs[i].value
    {
      assert Reads(cs[k], vs[k], I);
      var e :| Operand(cs[k], e) && Eval(e, I) == vs[k].value;
      es := es + [e];
    }
  }

  lemma FirstNone(vs: seq<Option<bool>>) returns (k: nat)
    requires exists i | 0 <= i < |vs| :: vs[i].None?
    ensures k < |vs| && vs[k].None? && forall i | 0 <= i < k :: vs[i].Some?
  {
    k := 0;
    while vs[k].Some?
      invariant k < |vs| && (forall i | 0 <= i < k :: vs[i].Some?)
      decreases |vs| - k
    {
      k := k + 1;
    }
  }

  lemma GroupReads(cs: seq<Condition>, vs: seq<Option<bool>>, sep: Lex, I: Interp)
    requires sep in {KwAnd, KwOr} && |cs| == |vs| && forall i | 0 <= i < |cs| :: Reads(cs[i], vs[i], I)
    ensures Reads(JoinGroup(cs, sep), Strict(if sep == KwAnd then BOOL_COMBINER.and else BOOL_COMBINER.or)(vs), I)
  {
    if exists i | 0 <= i < |vs| :: vs[i].None? {
      var k := FirstNone(vs);
      var es := PickOperands(cs[..k], vs[..k], I);
      assert Reads(cs[k], vs[k], I);
      GroupBroken(cs, es, sep);
    } else if cs == [] {
      GroupBroken(cs, [], sep);
    } else {
      var es := PickOperands(cs, vs, I);
      GroupOperand(cs, es, sep);
      var bs := seq(|vs|, i requires 0 <= i < |vs| => vs[i].GetOr(false));
      assert forall i | 0 <= i < |bs| :: bs[i] == Eval(es[i], I);
      assert Eval(Single(es, sep), I) == if sep == KwAnd then AndAll(bs) else OrAny(bs);
    }
  }

  lemma NegReads(c: Condition, v: Option<bool>, I: Interp)
    requires Reads(c, v, I)
    ensures Reads(NotPrefix(c), if v.Some? then Some(!v.value) else None, I)
  {
    if v.Some? {
      var e :| Operand(c, e) && Eval(e, I) == v.value;
      NegOperand(c, e);
      assert Eval(Neg(e), I) == !v.value;
    } else {
      NegBroken(c);
    }
  }

  // ----- The printed text means the tree -----

  /** `Reads` as a relation between the results of the two back ends. */
  ghost function Reading(I: Interp): (Condition, Option<bool>) -> bool {
    (c, v) => Reads(c, v, I)
  }

  lemma SqlCombinerReads(I: Interp, b: Backend<bool>)
    requires b.combiner == BOOL_COMBINER
    ensures RelatedCombiners(SQL_COMBINER, StrictBackend(b).combiner, Reading(I))
  {
    var R, C, S := Reading(I), SQL_COMBINER, StrictBackend(b).combiner;
    forall c, v | R(c, v)
      ensures R(C.not(c), S.not(v))
    {
      GroupReads([c], [v], KwOr, I);
      assert JoinArgs([c]) == c.args + [] == c.args;
      if v.Some? {
        assert seq(1, i requires 0 <= i < 1 => [v][i].GetOr(false)) == [v.value];
        assert OrAny([v.value]) == v.value by {
          assert [v.value][0] == v.value;
        }
      } else {
        assert [v][0].None?;
      }
      NegReads(JoinGroup([c], KwOr), v, I);
    }
    forall cs, vs | Pairwise(cs, vs, R)
      ensures R(C.and(cs), S.and(vs)) && R(C.or(cs), S.or(vs)) && R(C.nor(cs), S.nor(vs))
    {
      assert forall i | 0 <= i < |cs| :: R(cs[i], vs[i]);
      GroupReads(cs, vs, KwAnd, I);
      GroupReads(cs, vs, KwOr, I);
      NegReads(JoinGroup(cs, KwOr), S.or(vs), I);
    }
  }

  lemma SqlLeafReads(fm: FieldSpecMap, I: Interp, field: string)
    ensures RelatedLeaves(SqlBackend(fm), StrictBackend(LeafBackend(fm, I)), field, Reading(I), {})
  {
    forall op, v
      ensures Related(SqlBackend(fm).mapper(field, op, v), StrictBackend(LeafBackend(fm, I)).mapper(field, op, v),
                      Reading(I), {})
    {
      var r := SqlMap(fm, field, op, v);
      if r.Ok? {
        var t, arg := r.value.sql[0].leaf, r.value.args[0];
        LeafOperand(t, arg);
        assert Eval(Atom(t, arg), I) == I(t, arg);
      }
    }
  }

  /** What BuildWhere prints for a filter with fields reads as the tree. */
  lemma WhereReadsTree(root: Json, fm: FieldSpecMap, I: Interp)
    requires Flatten(root).Ok? && AsObject(root).value != []
    ensures match WhereOf(Parsed(root), fm)
            case Err(e) => TreeMeaning(root, LeafBackend(fm, I)) == Err(e)
            case Ok(c) =>
              && TreeMeaning(root, LeafBackend(fm, I)).Ok?
              && Reads(c, if FieldsNoEmptyArrays(AsObject(root).value)
                          then Some(TreeMeaning(root, LeafBackend(fm, I)).value) else None, I)
  {
    var fields := AsObject(root).value;
    var sql, leaf := SqlBackend(fm), LeafBackend(fm, I);
    WalkOfFlatten(fields, sql);
    forall i | 0 <= i < |fields|
      ensures RelatedLeaves(sql, StrictBackend(leaf), fields[i].key, Reading(I), {})
    {
      SqlLeafReads(fm, I, fields[i].key);
    }
    SqlCombinerReads(I, leaf);
    DenoteRelated(fields, sql, StrictBackend(leaf), Reading(I), {});
    StrictFields(fields, leaf);
    var conds := Denote(fields, sql);
    if conds.Ok? {
      DenoteLength(fields, sql);
      var ss := Denote(fields, StrictBackend(leaf)).value;
      assert forall i | 0 <= i < |conds.value| :: Reading(I)(conds.value[i], ss[i]);
      GroupReads(conds.value, ss, KwAnd, I);
      KeptCombine(Denote(fields, leaf).value, ss, FieldsNoEmptyArrays(fields), BOOL_COMBINER.and);
    }
  }

  /** The WHERE text of a filter parses, its placeholders pair off with its arguments, and its value
      on any row is the meaning of the JSON tree there -- exactly when no logical array is empty;
      and BuildWhere rejects a well-shaped filter exactly when the tree has no meaning. */
  lemma WhereMeansTree(root: Json, fm: FieldSpecMap, I: Interp)
    requires Flatten(root).Ok?
    ensures match WhereOf(Parsed(root), fm)
            case Err(e) => TreeMeaning(root, LeafBackend(fm, I)) == Err(e)
            case Ok(c) =>
              && TreeMeaning(root, LeafBackend(fm, I)).Ok?
              && Execute(c, I) == if FieldsNoEmptyArrays(AsObject(root).value)
                                  then Some(TreeMeaning(root, LeafBackend(fm, I)).value) else None
  {
    if AsObject(root).value != [] {
      WhereReadsTree(root, fm, I);
      var w := WhereOf(Parsed(root), fm);
      if w.Ok? {
        var v := TreeMeaning(root, LeafBackend(fm, I)).value;
        ReadsExecutes(w.value, if FieldsNoEmptyArrays(AsObject(root).value) then Some(v) else None, I);
      }
    }
  }

  /** A fragment that stands alone is executed to its value. */
  lemma ReadsExecutes(c: Condition, v: Option<bool>, I: Interp)
    requires Reads(c, v, I) && c.sql != []
    ensures Execute(c, I) == v
  {
    match v
    case Some(b) =>
      var e :| Operand(c, e) && Eval(e, I) == b;
      OperandWhere(c, e);
    case None => BrokenWhere(c);
  }

  lemma {:induction false} DenoteLength<Q>(fields: seq<Member>, b: Backend<Q>)
    ensures Denote(fields, b).Ok? ==> |Denote(fields, b).value| == |fields|
    decreases |fields|
  {
    if fields != [] {
      DenoteLength(fields[1..], b);
    }
  }

  // ----- Match computes the same meaning -----

  /** The one shared leaf predicate: on this row the database compares as Match does. */
  ghost predicate Agrees(I: Interp, cmp: Compare, row: Row) {
    forall col, op, want :: op in COMPARISONS && col in row && ScalarString(row[col]).Ok? ==>
      I(Template(col, LeafShape(op)), LeafArg(op, want)) == cmp(op, ScalarString(row[col]).value, want)
  }

  /** Every filtered field names a column that is present and scalar in the row. */
  predicate Covers(row: Row, fm: FieldSpecMap, fields: seq<Member>) {
    forall i | 0 <= i < |fields| && Lower(fields[i].key) in fm ::
      var col := fm[Lower(fields[i].key)].column;
      col != "" && col in row && ScalarString(row[col]).Ok?
  }

  /** A leaf as Match takes it: an operator it does not know is no error and holds of nothing. */
  function LenientMap(fm: FieldSpecMap, I: Interp, field: string, op: string, value: Json): Result<bool, Error> {
    var r := LeafMap(fm, I, field, op, value);
    if r == Err(UnsupportedOp) then Ok(false) else r
  }

  function LenientBackend(fm: FieldSpecMap, I: Interp): Backend<bool> {
    Backend((field, op, value) => LenientMap(fm, I, field, op, value), BOOL_COMBINER)
  }

  /** Where the tree has a meaning that is its lenient meaning, and errors other than an unknown
      operator are the same. */
  lemma LenientKeeps(root: Json, fm: FieldSpecMap, I: Interp)
    ensures var t, v := TreeMeaning(root, LeafBackend(fm, I)), TreeMeaning(root, LenientBackend(fm, I));
            t.Ok? || t.error != UnsupportedOp ==> v == t
  {
    if AsObject(root).Ok? {
      var fields, R := AsObject(root).value, (a: bool, b: bool) => a == b;
      BooleansRelated(R);
      DenoteRelated(fields, LeafBackend(fm, I), LenientBackend(fm, I), R, {UnsupportedOp});
      SameResults(Denote(fields, LeafBackend(fm, I)), Denote(fields, LenientBackend(fm, I)), R, {UnsupportedOp});
    }
  }

  lemma SameResults(a: Result<seq<bool>, Error>, b: Result<seq<bool>, Error>, R: (bool, bool) -> bool, except: set<Error>)
    requires (forall x, y :: R(x, y) <==> x == y) && RelatedSeq(a, b, R, except)
    ensures a.Ok? || a.error !in except ==> a == b
  {
    if a.Ok? {
      PairwiseSame(a.value, b.value, R);
    }
  }

  lemma CoveredLeaf(field: string, op: string, v: Json, row: Row, fm: FieldSpecMap, cmp: Compare, I: Interp)
    requires Agrees(I, cmp, row)
    requires Lower(field) in fm ==> var col := fm[Lower(field)].column; col != "" && col in row && ScalarString(row[col]).Ok?
    ensures LenientMap(fm, I, field, op, v) == MatchMap(row, fm, cmp, field, op, v)
  {
  }

  /** On a covered row Match gives the lenient meaning of the tree, errors included. */
  lemma VerdictMeansTree(root: Json, row: Row, fm: FieldSpecMap, cmp: Compare, I: Interp)
    requires Flatten(root).Ok? && Covers(row, fm, AsObject(root).value) && Agrees(I, cmp, row)
    ensures Verdict(Flatten(root).value, row, fm, cmp) == TreeMeaning(root, LenientBackend(fm, I))
  {
    var fields, R := AsObject(root).value, (a: bool, b: bool) => a == b;
    var leaf, rowB := LenientBackend(fm, I), RowBackend(row, fm, cmp);
    WalkOfFlatten(fields, rowB);
    forall i | 0 <= i < |fields|
      ensures RelatedLeaves(leaf, rowB, fields[i].key, R, {})
    {
      forall op, v
        ensures Related(leaf.mapper(fields[i].key, op, v), rowB.mapper(fields[i].key, op, v), R, {})
      {
        CoveredLeaf(fields[i].key, op, v, row, fm, cmp, I);
      }
    }
    BooleansRelated(R);
    DenoteRelated(fields, leaf, rowB, R, {});
    SameResults(Denote(fields, leaf), Denote(fields, rowB), R, {});
  }

  /** A leaf on a row that may lack the column, or have no scalar there: the comparison then fails,
      whatever it was compared with. */
  function AnyRowMap(fm: FieldSpecMap, I: Interp, row: Row, field: string, op: string, value: Json): Result<bool, Error> {
    var col :- Admit(fm, field, op);
    var key := if col == "" then field else col;
    if key !in row || ScalarString(row[key]).Err? then Ok(false)
    else
      var s :- ScalarString(value);
      Ok(Lower(op) in COMPARISONS && I(Template(key, LeafShape(Lower(op))), LeafArg(Lower(op), s)))
  }

  function AnyRowBackend(fm: FieldSpecMap, I: Interp, row: Row): Backend<bool> {
    Backend((field, op, value) => AnyRowMap(fm, I, row, field, op, value), BOOL_COMBINER)
  }

  /** On any row at all, whatever columns it has, the verdict is the meaning of the tree in which the
      comparisons of missing columns are false, errors included. */
  lemma VerdictOnAnyRow(root: Json, row: Row, fm: FieldSpecMap, cmp: Compare, I: Interp)
    requires Flatten(root).Ok? && Agrees(I, cmp, row)
    ensures Verdict(Flatten(root).value, row, fm, cmp) == TreeMeaning(root, AnyRowBackend(fm, I, row))
  {
    var fields, R := AsObject(root).value, (a: bool, b: bool) => a == b;
    var leaf, rowB := AnyRowBackend(fm, I, row), RowBackend(row, fm, cmp);
    WalkOfFlatten(fields, rowB);
    forall i | 0 <= i < |fields|
      ensures RelatedLeaves(leaf, rowB, fields[i].key, R, {})
    {
    }
    BooleansRelated(R);
    DenoteRelated(fields, leaf, rowB, R, {});
    SameResults(Denote(fields, leaf), Denote(fields, rowB), R, {});
  }

  lemma PairwiseSame(ps: seq<bool>, qs: seq<bool>, R: (bool, bool) -> bool)
    requires (forall a, b :: R(a, b) <==> a == b) && Pairwise(ps, qs, R)
    ensures ps == qs
  {
    forall i | 0 <= i < |ps|
      ensures ps[i] == qs[i]
    {
      assert R(ps[i], qs[i]);
    }
  }

  lemma BooleansRelated(R: (bool, bool) -> bool)
    requires forall a, b :: R(a, b) <==> a == b
    ensures RelatedCombiners(BOOL_COMBINER, BOOL_COMBINER, R)
  {
    forall ps, qs | Pairwise(ps, qs, R)
      ensures ps == qs
    {
      PairwiseSame(ps, qs, R);
    }
  }

  /** The rows of `rows` that satisfy `p`, in order. */
  function Satisfying<T>(rows: seq<T>, p: T -> bool): seq<T> {
    if rows == [] then [] else (if p(rows[0]) then [rows[0]] else []) + Satisfying(rows[1..], p)
  }

  function FieldsOf(raw: RawFilter): seq<Member> {
    if raw.Parsed? && AsObject(raw.root).Ok? then AsObject(raw.root).value else []
  }

  /** The rows on which the query's fragment is true, one interpretation a row. */
  function Selects<T>(where: Condition, I: T -> Interp): T -> bool {
    (row: T) => Execute(where, I(row)) == Some(true)
  }

  /** A filter without fields leaves every row in. */
  lemma NothingAsked<T>(raw: RawFilter, fm: FieldSpecMap, rows: seq<T>, render: T -> Row, cmp: Compare, I: T -> Interp)
    requires WhereOf(raw, fm).Ok? && (raw.Parsed? ==> Flatten(raw.root) == Ok([]))
    ensures (forall i | 0 <= i < |rows| :: Execute(WhereOf(raw, fm).value, I(rows[i])) == Some(true))
    ensures MatchOf(raw, rows, render, fm, cmp) == Ok(Satisfying(rows, Selects(WhereOf(raw, fm).value, I)))
  {
    SatisfyingAll(rows, Selects(WhereOf(raw, fm).value, I));
  }

  /** Compilation preserves meaning: for a filter BuildWhere accepts the query selects on every list of
      rows exactly the rows Match keeps, unless a logical array is empty, when it is no query at all.
      `I` gives the truth of the database's leaves on each row. */
  lemma CompilationPreservesMeaning<T>(raw: RawFilter, fm: FieldSpecMap, rows: seq<T>,
                                       render: T -> Row, cmp: Compare, I: T -> Interp)
    requires WhereOf(raw, fm).Ok?
    requires forall i | 0 <= i < |rows| ::
      Covers(render(rows[i]), fm, FieldsOf(raw)) && Agrees(I(rows[i]), cmp, render(rows[i]))
    ensures var where := WhereOf(raw, fm).value;
            if FieldsNoEmptyArrays(FieldsOf(raw)) then
              && (forall i | 0 <= i < |rows| :: Execute(where, I(rows[i])).Some?)
              && MatchOf(raw, rows, render, fm, cmp) == Ok(Satisfying(rows, Selects(where, I)))
            else forall i | 0 <= i < |rows| :: Execute(where, I(rows[i])).None?
  {
    if !FieldsNoEmptyArrays(FieldsOf(raw)) {
      forall i | 0 <= i < |rows|
        ensures Execute(WhereOf(raw, fm).value, I(rows[i])).None?
      {
        WhereMeansTree(raw.root, fm, I(rows[i]));
      }
    } else if raw.Parsed? && Flatten(raw.root) != Ok([]) {
      SelectMeansTree(raw.root, fm, rows, render, cmp, I);
    } else {
      NothingAsked(raw, fm, rows, render, cmp, I);
    }
  }

  lemma {:induction false} SatisfyingAll<T>(rows: seq<T>, p: T -> bool)
    requires forall i | 0 <= i < |rows| :: p(rows[i])
    ensures Satisfying(rows, p) == rows
    decreases |rows|
  {
    if rows != [] {
      SatisfyingAll(rows[1..], p);
    }
  }

  lemma {:induction false} SelectMeansTree<T>(root: Json, fm: FieldSpecMap, rows: seq<T>,
                                              render: T -> Row, cmp: Compare, I: T -> Interp)
    requires WhereOf(Parsed(root), fm).Ok? && FieldsNoEmptyArrays(AsObject(root).value)
    requires forall i | 0 <= i < |rows| ::
      Covers(render(rows[i]), fm, AsObject(root).value) && Agrees(I(rows[i]), cmp, render(rows[i]))
    ensures var where := WhereOf(Parsed(root), fm).value;
            && (forall i | 0 <= i < |rows| :: Execute(where, I(rows[i])).Some?)
            && Select(rows, render, Flatten(root).value, fm, cmp) == Ok(Satisfying(rows, Selects(where, I)))
    decreases |rows|
  {
    if rows != [] {
      SelectMeansTree(root, fm, rows[1..], render, cmp, I);
      assert forall i | 0 < i < |rows| :: rows[i] == rows[1..][i - 1];
      WhereMeansTree(root, fm, I(rows[0]));
      LenientKeeps(root, fm, I(rows[0]));
      VerdictMeansTree(root, render(rows[0]), fm, cmp, I(rows[0]));
    }
  }
}
