/** Which filters BuildWhere and Match accept: they differ on unknown operators. */
module FilterAcceptance {
  import opened Wrappers
  import opened FilterJson
  import opened FilterTokens
  import opened FilterWalk
  import opened FilterSimulation
  import opened FilterSql
  import opened SqlSemantics
  import opened FilterMatch
  import opened FilterMeaning

  // ----- Every comparison has an operator that exists -----

  predicate ObjectKnown(j: Json)
    decreases Size(j), 0
  {
    match AsObject(j)
    case Ok(ops) => OpsKnown(ops)
    case Err(_) => true
  }

  predicate OpsKnown(ops: seq<Member>)
    decreases MembersSize(ops)
  {
    ops == [] || (OpKnown(ops[0].key, ops[0].value) && OpsKnown(ops[1..]))
  }

  predicate OpKnown(op: string, j: Json)
    decreases Size(j), 1
  {
    match Kind(op)
    case Leaf => Lower(op) in COMPARISONS
    case Not => ObjectKnown(j)
    case _ => AsArray(j).Ok? ==> ItemsKnown(AsArray(j).value)
  }

  predicate ItemsKnown(items: seq<Json>)
    decreases ItemsSize(items)
  {
    items == [] || (ObjectKnown(items[0]) && ItemsKnown(items[1..]))
  }

  predicate FieldsKnown(fields: seq<Member>) {
    fields == [] || (ObjectKnown(fields[0].value) && FieldsKnown(fields[1..]))
  }

  // ----- The strict back end accepts what the lenient one does, unless an operator is unknown -----

  lemma {:induction false} OpsAccepted(field: string, ops: seq<Member>, fm: FieldSpecMap, I: Interp)
    ensures DenoteOps(field, ops, LeafBackend(fm, I)).Ok?
            <==> DenoteOps(field, ops, LenientBackend(fm, I)).Ok? && OpsKnown(ops)
    decreases MembersSize(ops), 0
  {
    if ops != [] {
      OpAccepted(field, ops[0].key, ops[0].value, fm, I);
      OpsAccepted(field, ops[1..], fm, I);
    }
  }

  lemma {:induction false} ObjectAccepted(field: string, j: Json, fm: FieldSpecMap, I: Interp)
    ensures DenoteObject(field, j, LeafBackend(fm, I)).Ok?
            <==> DenoteObject(field, j, LenientBackend(fm, I)).Ok? && ObjectKnown(j)
    decreases Size(j), 0
  {
    if AsObject(j).Ok? {
      var ops := AsObject(j).value;
      OpsAccepted(field, ops, fm, I);
      DenoteOpsLength(field, ops, LeafBackend(fm, I));
      DenoteOpsLength(field, ops, LenientBackend(fm, I));
    }
  }

  lemma {:induction false} OpAccepted(field: string, op: string, j: Json, fm: FieldSpecMap, I: Interp)
    ensures DenoteOp(field, op, j, LeafBackend(fm, I)).Ok?
            <==> DenoteOp(field, op, j, LenientBackend(fm, I)).Ok? && OpKnown(op, j)
    decreases Size(j), 1
  {
    match Kind(op)
    case Leaf =>
    case Not => ObjectAccepted(field, j, fm, I);
    case _ =>
      if AsArray(j).Ok? {
        ItemsAccepted(field, AsArray(j).value, fm, I);
      }
  }

  lemma {:induction false} ItemsAccepted(field: string, items: seq<Json>, fm: FieldSpecMap, I: Interp)
    ensures DenoteItems(field, items, LeafBackend(fm, I)).Ok?
            <==> DenoteItems(field, items, LenientBackend(fm, I)).Ok? && ItemsKnown(items)
    decreases ItemsSize(items), 0
  {
    if items != [] {
      ObjectAccepted(field, items[0], fm, I);
      ItemsAccepted(field, items[1..], fm, I);
    }
  }

  lemma {:induction false} FieldsAccepted(fields: seq<Member>, fm: FieldSpecMap, I: Interp)
    ensures Denote(fields, LeafBackend(fm, I)).Ok?
            <==> Denote(fields, LenientBackend(fm, I)).Ok? && FieldsKnown(fields)
    decreases |fields|
  {
    if fields != [] {
      ObjectAccepted(fields[0].key, fields[0].value, fm, I);
      FieldsAccepted(fields[1..], fm, I);
    }
  }

  // ----- BuildWhere and Match -----

  /** Whether Match accepts a filter on a covered row does not depend on how it compares. */
  lemma VerdictAccepts(root: Json, row: Row, fm: FieldSpecMap, cmp: Compare, I: Interp)
    requires Flatten(root).Ok? && Covers(row, fm, AsObject(root).value)
    ensures Verdict(Flatten(root).value, row, fm, cmp).Ok? <==> TreeMeaning(root, LenientBackend(fm, I)).Ok?
  {
    var fields, R := AsObject(root).value, (a: bool, b: bool) => true;
    var leaf, rowB := LenientBackend(fm, I), RowBackend(row, fm, cmp);
    WalkOfFlatten(fields, rowB);
    forall i | 0 <= i < |fields|
      ensures RelatedLeaves(leaf, rowB, fields[i].key, R, {})
    {
      forall op, v
        ensures Related(leaf.mapper(fields[i].key, op, v), rowB.mapper(fields[i].key, op, v), R, {})
      {
        assert Lower(fields[i].key) in fm ==> var col := fm[Lower(fields[i].key)].column;
          col != "" && col in row && ScalarString(row[col]).Ok?;
      }
    }
    DenoteRelated(fields, leaf, rowB, R, {});
  }

  /** On a covered row BuildWhere accepts a filter exactly when Match does and every operator in it is
      known: Match lets an unknown one through as a comparison that fails. */
  lemma AcceptanceDiffers(root: Json, row: Row, fm: FieldSpecMap, cmp: Compare)
    requires Flatten(root).Ok? && Covers(row, fm, AsObject(root).value)
    ensures WhereOf(Parsed(root), fm).Ok?
            <==> Verdict(Flatten(root).value, row, fm, cmp).Ok? && FieldsKnown(AsObject(root).value)
  {
    var I := (t: Template, arg: string) => false;
    VerdictAccepts(root, row, fm, cmp, I);
    FieldsAccepted(AsObject(root).value, fm, I);
    WhereMeansTree(root, fm, I);
  }

  const NAMES: FieldSpecMap := map["name" := FieldSpec("name", {})]
  const UNKNOWN := Object([Member("$foo", Text("x"))])
  const NOT_UNKNOWN := Object([Member("name", Object([Member(OP_NOT, UNKNOWN)]))])

  /** A filter with an unknown operator under a negation: BuildWhere rejects it, and Match keeps every
      row there is. */
  lemma UnknownOperator<T>(rows: seq<T>, render: T -> Row, cmp: Compare)
    ensures WhereOf(Parsed(NOT_UNKNOWN), NAMES) == Err(UnsupportedOp)
    ensures MatchOf(Parsed(NOT_UNKNOWN), rows, render, NAMES, cmp) == Ok(rows)
  {
    var b := SqlBackend(NAMES);
    UnknownFlattens();
    UnknownMeans(b);
    WalkOfFlatten(NOT_UNKNOWN.members, b);
    UnknownSelected(Flatten(NOT_UNKNOWN).value, rows, render, cmp);
  }

  lemma UnknownFlattens()
    ensures Flatten(NOT_UNKNOWN).Ok? && Flatten(NOT_UNKNOWN).value != []
    ensures Kind(OP_NOT) == Not && Kind("$foo") == Leaf && Lower("$foo") !in COMPARISONS && Lower("name") == "name"
  {
    UnknownIsLeaf();
    var inner, not := Member("$foo", Text("x")), Member(OP_NOT, UNKNOWN);
    assert FlattenOps([inner][1..]) == Ok([]) && FlattenOps([not][1..]) == Ok([]);
    assert FlattenOps([inner]).Ok?;
    assert FlattenValue(OP_NOT, UNKNOWN).Ok?;
    assert FlattenOps([not]).Ok?;
    assert NOT_UNKNOWN.members[1..] == [] && FlattenFields([]) == Ok([]);
  }

  lemma UnknownIsLeaf()
    ensures Kind(OP_NOT) == Not && Kind("$foo") == Leaf && Lower("$foo") !in COMPARISONS && Lower("name") == "name"
  {
    assert Lower(OP_NOT) == OP_NOT && Lower("$foo") == "$foo";
    assert OP_NOT[1] == 'n' && OP_NOR[1] == 'n' && OP_AND[1] == 'a' && OP_OR[1] == 'o' && "$foo"[1] == 'f';
    assert OP_NOT[3] == 't' && OP_NOR[3] == 'r';
    assert OP_EQ[1] == 'e' && OP_IEQ[1] == 'i' && OP_CONTAINS[1] == 'c' && OP_ICONTAINS[1] == 'i'
        && OP_STARTSWITH[1] == 's' && OP_ENDSWITH[1] == 'e';
  }

  /** What any back end makes of the filter. */
  lemma UnknownMeans<Q>(b: Backend<Q>)
    ensures var q := b.mapper("name", "$foo", Text("x"));
            Denote(NOT_UNKNOWN.members, b) == if q.Err? then Err(q.error) else Ok([b.combiner.not(q.value)])
  {
    UnknownIsLeaf();
    OneOp("name", Member("$foo", Text("x")), b);
    OneOp("name", Member(OP_NOT, UNKNOWN), b);
    assert NOT_UNKNOWN.members[1..] == [];
    var q := b.mapper("name", "$foo", Text("x"));
    if q.Ok? {
      assert [b.combiner.not(q.value)] + [] == [b.combiner.not(q.value)];
    }
  }

  lemma UnknownHolds(toks: seq<Tok>, row: Row, cmp: Compare)
    requires Flatten(NOT_UNKNOWN) == Ok(toks)
    ensures Verdict(toks, row, NAMES, cmp) == Ok(true)
  {
    var b := RowBackend(row, NAMES, cmp);
    UnknownIsLeaf();
    UnknownMeans(b);
    WalkOfFlatten(NOT_UNKNOWN.members, b);
    assert b.mapper("name", "$foo", Text("x")) == Ok(false);
  }

  lemma {:induction false} UnknownSelected<T>(toks: seq<Tok>, rows: seq<T>, render: T -> Row, cmp: Compare)
    requires Flatten(NOT_UNKNOWN) == Ok(toks)
    ensures Select(rows, render, toks, NAMES, cmp) == Ok(rows)
    decreases |rows|
  {
    if rows != [] {
      UnknownHolds(toks, render(rows[0]), cmp);
      UnknownSelected(toks, rows[1..], render, cmp);
      assert [rows[0]] + rows[1..] == rows;
    }
  }
}
