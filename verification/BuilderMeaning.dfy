/** What a compiled filter selects. */
module BuilderMeaning {
  import opened Wrappers
  import opened FilterJson
  import opened FilterTokens
  import opened FilterWalk
  import opened FilterMatch
  import opened FilterBuilder
  import opened BuilderRoundTrip

  /** Whether a comparison holds of one field of the row at hand. */
  type Test = (string, string) -> bool

  predicate ItemHolds(it: Item, test: Test) {
    test(it.op, it.value) != it.negated
  }

  /** The conditions of a field: a single one for itself, several all, any or none of them. */
  predicate GroupHolds(g: Group, test: Test) {
    if |g.items| == 1 then ItemHolds(g.items[0], test)
    else match g.join
      case JoinAnd => forall i | 0 <= i < |g.items| :: ItemHolds(g.items[i], test)
      case JoinOr => exists i | 0 <= i < |g.items| :: ItemHolds(g.items[i], test)
      case JoinNor => forall i | 0 <= i < |g.items| :: !ItemHolds(g.items[i], test)
  }

  /** The back end judges the field's comparisons as `test` does. */
  ghost predicate Judges(b: Backend<bool>, field: string, items: seq<Item>, test: Test) {
    && b.combiner == BOOL_COMBINER
    && forall i | 0 <= i < |items| ::
         Known(Lower(items[i].op))
         && b.mapper(field, items[i].op, Text(items[i].value)) == Ok(test(items[i].op, items[i].value))
  }

  function Lits(items: seq<Item>, test: Test): (r: seq<bool>)
    ensures |r| == |items| && forall i | 0 <= i < |items| :: r[i] == ItemHolds(items[i], test)
  {
    seq(|items|, i requires 0 <= i < |items| => ItemHolds(items[i], test))
  }

  lemma KnownIsLeaf(op: string)
    requires Known(Lower(op))
    ensures Kind(op) == Leaf
  {
    KnownIsNoLogic(Lower(op));
  }

  lemma TermMeans(field: string, it: Item, b: Backend<bool>, test: Test)
    requires Judges(b, field, [it], test)
    ensures DenoteObject(field, Term(it), b) == Ok(ItemHolds(it, test))
  {
    var plain := Member(it.op, Text(it.value));
    assert [it][0] == it;
    KnownIsLeaf(it.op);
    OneOp(field, plain, b);
    if it.negated {
      LowerOps();
      LogicDiffers();
      assert Kind(OP_NOT) == Not;
      OneOp(field, Member(OP_NOT, Comparison(it)), b);
    }
  }

  lemma JudgesFirst(b: Backend<bool>, field: string, items: seq<Item>, test: Test)
    requires Judges(b, field, items, test) && items != []
    ensures Judges(b, field, [items[0]], test) && Judges(b, field, items[1..], test)
  {
  }

  lemma FirstTerm(items: seq<Item>, test: Test)
    requires items != []
    ensures Terms(items)[0] == Term(items[0]) && Terms(items)[1..] == Terms(items[1..])
    ensures Lits(items, test) == [ItemHolds(items[0], test)] + Lits(items[1..], test)
  {
  }

  lemma {:induction false} TermsMean(field: string, items: seq<Item>, b: Backend<bool>, test: Test)
    requires Judges(b, field, items, test)
    ensures DenoteItems(field, Terms(items), b) == Ok(Lits(items, test))
    decreases |items|
  {
    if items != [] {
      JudgesFirst(b, field, items, test);
      TermMeans(field, items[0], b, test);
      TermsMean(field, items[1..], b, test);
      FirstTerm(items, test);
    }
  }

  lemma {:induction false} FlatMeans(field: string, items: seq<Item>, b: Backend<bool>, test: Test)
    requires Judges(b, field, items, test) && NoneNegated(items)
    ensures DenoteOps(field, Flat(items), b) == Ok(Lits(items, test))
    decreases |items|
  {
    if items != [] {
      assert Flat(items)[1..] == Flat(items[1..]);
      KnownIsLeaf(items[0].op);
      FlatMeans(field, items[1..], b, test);
      assert Lits(items, test) == [ItemHolds(items[0], test)] + Lits(items[1..], test);
    }
  }

  lemma JoinKinds(j: Join)
    ensures Kind(JoinKey(j)) == match j case JoinAnd => And case JoinOr => Or case JoinNor => Nor
  {
    LowerOps();
    LogicDiffers();
  }

  lemma GroupMeans(g: Group, b: Backend<bool>, test: Test)
    requires g.items != [] && Judges(b, g.field, g.items, test)
    ensures DenoteObject(g.field, Compile(g), b) == Ok(GroupHolds(g, test))
  {
    var lits := Lits(g.items, test);
    if |g.items| == 1 {
      assert g.items == [g.items[0]];
      TermMeans(g.field, g.items[0], b, test);
    } else if g.join == JoinAnd && NoneNegated(g.items) && DistinctOps(g.items) {
      FlatMeans(g.field, g.items, b, test);
      assert AndAll(lits) <==> GroupHolds(g, test);
    } else {
      JoinKinds(g.join);
      TermsMean(g.field, g.items, b, test);
      OneOp(g.field, Member(JoinKey(g.join), Array(Terms(g.items))), b);
      LitsCombine(g.items, test);
    }
  }

  lemma LitsCombine(items: seq<Item>, test: Test)
    ensures AndAll(Lits(items, test)) <==> forall i | 0 <= i < |items| :: ItemHolds(items[i], test)
    ensures OrAny(Lits(items, test)) <==> exists i | 0 <= i < |items| :: ItemHolds(items[i], test)
  {
    var lits := Lits(items, test);
    assert forall i | 0 <= i < |items| :: lits[i] == ItemHolds(items[i], test);
  }

  /** The field can be filtered on with these operators, and the row has a scalar for it. */
  predicate Covered(row: Row, fm: FieldSpecMap, g: Group) {
    && AllKnown(g.items)
    && KeyOf(fm, g.field) in row && ScalarString(row[KeyOf(fm, g.field)]).Ok?
    && forall i | 0 <= i < |g.items| :: Admit(fm, g.field, g.items[i].op).Ok?
  }

  function KeyOf(fm: FieldSpecMap, field: string): string {
    if Lower(field) in fm && fm[Lower(field)].column != "" then fm[Lower(field)].column else field
  }

  function TestOf(row: Row, fm: FieldSpecMap, cmp: Compare, field: string): Test {
    (op, value) =>
      KeyOf(fm, field) in row && ScalarString(row[KeyOf(fm, field)]).Ok?
      && EvalOp(cmp, op, ScalarString(row[KeyOf(fm, field)]).value, value)
  }

  predicate FieldHolds(g: Group, row: Row, fm: FieldSpecMap, cmp: Compare) {
    GroupHolds(g, TestOf(row, fm, cmp, g.field))
  }

  function Truths(gs: seq<Group>, row: Row, fm: FieldSpecMap, cmp: Compare): (r: seq<bool>)
    ensures |r| == |gs| && forall i | 0 <= i < |gs| :: r[i] == FieldHolds(gs[i], row, fm, cmp)
  {
    seq(|gs|, i requires 0 <= i < |gs| => FieldHolds(gs[i], row, fm, cmp))
  }

  lemma OneGroupMeans(g: Group, row: Row, fm: FieldSpecMap, cmp: Compare)
    requires g.items != [] && Covered(row, fm, g)
    ensures DenoteObject(g.field, Compile(g), RowBackend(row, fm, cmp)) == Ok(FieldHolds(g, row, fm, cmp))
  {
    var b, test := RowBackend(row, fm, cmp), TestOf(row, fm, cmp, g.field);
    forall i | 0 <= i < |g.items|
      ensures b.mapper(g.field, g.items[i].op, Text(g.items[i].value)) == Ok(test(g.items[i].op, g.items[i].value))
    {
      assert Admit(fm, g.field, g.items[i].op).Ok?;
    }
    GroupMeans(g, b, test);
  }

  lemma {:induction false} DenoteEach(ms: seq<Member>, b: Backend<bool>, truths: seq<bool>)
    requires |truths| == |ms|
    requires forall i | 0 <= i < |ms| :: DenoteObject(ms[i].key, ms[i].value, b) == Ok(truths[i])
    ensures Denote(ms, b) == Ok(truths)
    decreases |ms|
  {
    if ms != [] {
      DenoteEach(ms[1..], b, truths[1..]);
      assert truths == [truths[0]] + truths[1..];
    }
  }

  lemma GroupsMean(gs: seq<Group>, row: Row, fm: FieldSpecMap, cmp: Compare)
    requires NonEmpty(gs) && forall i | 0 <= i < |gs| :: Covered(row, fm, gs[i])
    ensures Denote(Compiled(gs), RowBackend(row, fm, cmp)) == Ok(Truths(gs, row, fm, cmp))
  {
    var b, ms, truths := RowBackend(row, fm, cmp), Compiled(gs), Truths(gs, row, fm, cmp);
    forall i | 0 <= i < |gs|
      ensures DenoteObject(ms[i].key, ms[i].value, b) == Ok(truths[i])
    {
      assert Covered(row, fm, gs[i]);
      OneGroupMeans(gs[i], row, fm, cmp);
    }
    DenoteEach(ms, b, truths);
  }

  lemma {:induction false} CompiledFlattens(gs: seq<Group>)
    requires NonEmpty(gs) && KnownGroups(gs)
    ensures FlattenFields(Compiled(gs)).Ok? && (gs != [] ==> FlattenFields(Compiled(gs)).value != [])
    decreases |gs|
  {
    if gs != [] {
      assert Compiled(gs)[1..] == Compiled(gs[1..]);
      CompiledFlattens(gs[1..]);
      GroupFlattens(gs[0]);
    }
  }

  lemma GroupFlattens(g: Group)
    requires g.items != [] && AllKnown(g.items)
    ensures Compile(g).Object? && FlattenOps(Compile(g).members).Ok?
  {
    if |g.items| == 1 {
      TermFlattens(g.items[0]);
    } else if g.join == JoinAnd && NoneNegated(g.items) && DistinctOps(g.items) {
      FlatFlattens(g.items);
    } else {
      JoinKinds(g.join);
      TermsFlatten(g.items);
      OneFlattens(Member(JoinKey(g.join), Array(Terms(g.items))));
    }
  }

  lemma OneFlattens(m: Member)
    requires FlattenValue(m.key, m.value).Ok?
    ensures FlattenOps([m]).Ok?
  {
    assert [m][1..] == [];
    assert FlattenOps([]).Ok?;
  }

  lemma TermFlattens(it: Item)
    requires Known(Lower(it.op))
    ensures FlattenOps(Term(it).members).Ok?
  {
    KnownIsLeaf(it.op);
    OneFlattens(Member(it.op, Text(it.value)));
    if it.negated {
      LowerOps();
      LogicDiffers();
      assert Kind(OP_NOT) == Not;
      OneFlattens(Member(OP_NOT, Comparison(it)));
    }
  }

  lemma {:induction false} TermsFlatten(items: seq<Item>)
    requires AllKnown(items)
    ensures FlattenItems(Terms(items)).Ok?
    decreases |items|
  {
    if items != [] {
      assert Terms(items)[1..] == Terms(items[1..]);
      TermFlattens(items[0]);
      TermsFlatten(items[1..]);
    }
  }

  lemma {:induction false} FlatFlattens(items: seq<Item>)
    requires AllKnown(items)
    ensures FlattenOps(Flat(items)).Ok?
    decreases |items|
  {
    if items != [] {
      assert Flat(items)[1..] == Flat(items[1..]);
      KnownIsLeaf(items[0].op);
      FlatFlattens(items[1..]);
    }
  }

  /** A row is kept by the compiled filter exactly when every field's conditions hold of it: all, any or
      none of them as the field's join says, each perhaps negated. */
  lemma BuilderMeaning(rows: seq<BuilderRow>, row: Row, fm: FieldSpecMap, cmp: Compare)
    requires Apply(rows) != NoFilter
    requires forall i | 0 <= i < |Grouped(rows)| :: Covered(row, fm, Grouped(rows)[i])
    ensures var gs := Grouped(rows);
            && Flatten(Apply(rows).root).Ok? && Flatten(Apply(rows).root).value != []
            && Verdict(Flatten(Apply(rows).root).value, row, fm, cmp)
               == Ok(forall i | 0 <= i < |gs| :: FieldHolds(gs[i], row, fm, cmp))
  {
    var gs := Grouped(rows);
    GroupedNonEmpty(rows);
    GroupsVerdict(gs, row, fm, cmp);
  }

  lemma GroupsVerdict(gs: seq<Group>, row: Row, fm: FieldSpecMap, cmp: Compare)
    requires gs != [] && NonEmpty(gs) && forall i | 0 <= i < |gs| :: Covered(row, fm, gs[i])
    ensures var toks := FlattenFields(Compiled(gs));
            && toks.Ok? && toks.value != []
            && Verdict(toks.value, row, fm, cmp) == Ok(forall i | 0 <= i < |gs| :: FieldHolds(gs[i], row, fm, cmp))
  {
    CompiledFlattens(gs);
    WalkOfFlatten(Compiled(gs), RowBackend(row, fm, cmp));
    GroupsMean(gs, row, fm, cmp);
    var truths := Truths(gs, row, fm, cmp);
    assert AndAll(truths) <==> forall i | 0 <= i < |gs| :: FieldHolds(gs[i], row, fm, cmp);
  }
}
