/** Reading back what was compiled. */
module BuilderRoundTrip {
  import opened Wrappers
  import opened FilterJson
  import opened FilterSql
  import opened FilterBuilder

  predicate Known(op: string) {
    op in COMPARISONS
  }

  predicate AllKnown(items: seq<Item>) {
    forall i | 0 <= i < |items| :: Known(Lower(items[i].op))
  }

  /** A group as rows: the first row joins nothing, the others carry the join. */
  function ItemRows(field: string, join: Join, items: seq<Item>): (rows: seq<BuilderRow>)
    ensures |rows| == |items|
  {
    seq(|items|, i requires 0 <= i < |items| =>
      BuilderRow(field, Lower(items[i].op), items[i].value, items[i].negated, if i > 0 then join else JoinAnd))
  }

  function AllRows(gs: seq<Group>): seq<BuilderRow> {
    if gs == [] then []
    else
      var n := |gs| - 1;
      AllRows(gs[..n]) + ItemRows(gs[n].field, gs[n].join, gs[n].items)
  }

  lemma LowerOps()
    ensures Lower(OP_NOT) == OP_NOT && Lower(OP_AND) == OP_AND && Lower(OP_OR) == OP_OR && Lower(OP_NOR) == OP_NOR
    ensures forall op | Known(op) :: Lower(op) == op
  {
  }

  lemma KnownIsNoLogic(op: string)
    requires Known(op)
    ensures op != OP_NOT && op != OP_AND && op != OP_OR && op != OP_NOR
  {
    assert OP_NOT[1] == 'n' && OP_NOR[1] == 'n' && OP_AND[1] == 'a' && OP_OR[1] == 'o';
    assert OP_EQ[1] == 'e' && OP_IEQ[1] == 'i' && OP_CONTAINS[1] == 'c' && OP_ICONTAINS[1] == 'i'
        && OP_STARTSWITH[1] == 's' && OP_ENDSWITH[1] == 'e';
  }

  lemma LogicDiffers()
    ensures OP_NOT != OP_AND && OP_NOT != OP_OR && OP_NOT != OP_NOR && OP_AND != OP_OR && OP_AND != OP_NOR && OP_OR != OP_NOR
  {
    assert OP_NOT[1] == 'n' && OP_NOR[1] == 'n' && OP_AND[1] == 'a' && OP_OR[1] == 'o';
    assert OP_NOT[3] == 't' && OP_NOR[3] == 'r';
  }

  function RowOf(field: string, it: Item): Option<BuilderRow> {
    if Known(Lower(it.op)) then Some(BuilderRow(field, Lower(it.op), it.value, it.negated, JoinAnd)) else None
  }

  lemma ElementBack(field: string, it: Item)
    ensures ReadElement(field, Term(it)) == RowOf(field, it)
  {
    LowerOps();
    if it.negated {
      assert NotOf([Member(OP_NOT, Comparison(it))]) == Some(Comparison(it));
    } else if Lower(it.op) == OP_NOT {
      var m := Member(it.op, Text(it.value));
      assert [m][..0] == [] && NotOf([m]) == if m.key == OP_NOT then Some(m.value) else None;
      if Known(OP_NOT) {
        KnownIsNoLogic(OP_NOT);
      }
    }
  }

  lemma ItemRowsLast(field: string, join: Join, items: seq<Item>)
    requires items != [] && AllKnown(items)
    ensures var n := |items| - 1;
            ItemRows(field, join, items)
            == ItemRows(field, join, items[..n]) + [RowOf(field, items[n]).value.(join := if n > 0 then join else JoinAnd)]
  {
  }

  lemma AllKnownLast(items: seq<Item>)
    requires items != []
    ensures AllKnown(items) <==> AllKnown(items[..|items| - 1]) && Known(Lower(items[|items| - 1].op))
  {
  }

  lemma {:induction false} ArrayBack(field: string, join: Join, items: seq<Item>)
    ensures ReadArray(field, join, Terms(items))
         == if AllKnown(items) then Some(ItemRows(field, join, items)) else None
  {
    if items != [] {
      var n := |items| - 1;
      assert Terms(items)[..n] == Terms(items[..n]);
      ArrayBack(field, join, items[..n]);
      ElementBack(field, items[n]);
      AllKnownLast(items);
      if AllKnown(items) {
        ItemRowsLast(field, join, items);
      }
    }
  }

  /** A property named "$not" of a flat object is a scalar, which no negation is. */
  lemma {:induction false} FlatNotIsScalar(items: seq<Item>)
    ensures NotOf(Flat(items)).None? || NotOf(Flat(items)).value.Text?
  {
    if items != [] {
      assert Flat(items)[..|items| - 1] == Flat(items[..|items| - 1]);
      FlatNotIsScalar(items[..|items| - 1]);
    }
  }

  lemma MemberBack(field: string, it: Item, all: seq<Item>)
    requires !it.negated
    ensures ReadMember(field, Member(it.op, Text(it.value)), Flat(all)) == RowOf(field, it)
  {
    FlatNotIsScalar(all);
    if Known(Lower(it.op)) {
      KnownIsNoLogic(Lower(it.op));
    }
  }

  lemma {:induction false} FlatBack(field: string, items: seq<Item>, all: seq<Item>)
    requires NoneNegated(items)
    ensures ReadFlat(field, Flat(items), Flat(all))
         == if AllKnown(items) then Some(ItemRows(field, JoinAnd, items)) else None
  {
    if items != [] {
      var n := |items| - 1;
      assert Flat(items)[..n] == Flat(items[..n]);
      FlatBack(field, items[..n], all);
      AllKnownLast(items);
      MemberBack(field, items[n], all);
      if AllKnown(items) {
        ItemRowsLast(field, JoinAnd, items);
      }
    }
  }

  lemma KeyBack(j: Join)
    ensures JoinOf(JoinKey(j)) == Some(j)
  {
    LowerOps();
    LogicDiffers();
  }

  /** One condition reads back as itself. */
  lemma OneBack(field: string, it: Item)
    ensures Read(field, Term(it)) == if Known(Lower(it.op)) then Some([RowOf(field, it).value]) else None
  {
    LowerOps();
    LogicDiffers();
    var ms := Term(it).members;
    ElementBack(field, it);
    if Known(Lower(it.op)) {
      KnownIsNoLogic(Lower(it.op));
      assert [] + [RowOf(field, it).value] == [RowOf(field, it).value];
    }
    assert ms[..0] == [];
    assert ReadMember(field, ms[0], ms) == RowOf(field, it);
    assert ReadFlat(field, ms, ms) == Append(Some([]), RowOf(field, it));
  }

  /** A compiled group reads back as its rows exactly when its operators are known. */
  lemma GroupBack(g: Group)
    requires g.items != []
    ensures Read(g.field, Compile(g))
         == if AllKnown(g.items) then Some(ItemRows(g.field, g.join, g.items)) else None
  {
    if |g.items| == 1 {
      OneBack(g.field, g.items[0]);
      if AllKnown(g.items) {
        assert ItemRows(g.field, g.join, g.items) == [RowOf(g.field, g.items[0]).value];
      }
    } else if g.join == JoinAnd && NoneNegated(g.items) && DistinctOps(g.items) {
      FlatBack(g.field, g.items, g.items);
    } else {
      KeyBack(g.join);
      ArrayBack(g.field, g.join, g.items);
    }
  }

  predicate NonEmpty(gs: seq<Group>) {
    forall i | 0 <= i < |gs| :: gs[i].items != []
  }

  predicate KnownGroups(gs: seq<Group>) {
    forall i | 0 <= i < |gs| :: AllKnown(gs[i].items)
  }

  lemma CompiledFront(gs: seq<Group>)
    requires gs != []
    ensures var n := |gs| - 1;
            && Compiled(gs)[..n] == Compiled(gs[..n]) && Compiled(gs)[n] == Member(gs[n].field, Compile(gs[n]))
            && (KnownGroups(gs) <==> KnownGroups(gs[..n]) && AllKnown(gs[n].items))
            && (NonEmpty(gs) ==> NonEmpty(gs[..n]))
  {
  }

  lemma {:induction false} GroupsBack(gs: seq<Group>)
    requires NonEmpty(gs)
    ensures ReadAll(Compiled(gs)) == if KnownGroups(gs) then Some(AllRows(gs)) else None
  {
    if gs != [] {
      var n := |gs| - 1;
      CompiledFront(gs);
      GroupsBack(gs[..n]);
      GroupBack(gs[n]);
    }
  }

  lemma {:induction false} GroupedNonEmpty(rows: seq<BuilderRow>)
    ensures NonEmpty(Grouped(rows))
  {
    if rows != [] {
      GroupedNonEmpty(rows[..|rows| - 1]);
    }
  }

  /** For any rows at all: the panel built from the compiled filter shows the filled rows, field by field
      and each with its field's join, or is read-only when an operator is not known. */
  lemma SyncAfterApply(rows: seq<BuilderRow>)
    ensures Sync(Apply(rows)) == if KnownGroups(Grouped(rows)) then Editable(AllRows(Grouped(rows))) else Advanced
  {
    GroupedNonEmpty(rows);
    GroupsBack(Grouped(rows));
  }

  // ----- Exactly when rows come back unchanged -----

  predicate Mentions(rows: seq<BuilderRow>, field: string) {
    exists i | 0 <= i < |rows| :: rows[i].field == field
  }

  /** A row that opens a new field joins nothing; one that goes on with the field just before carries
      the join that field already has. */
  predicate Fits(before: seq<BuilderRow>, r: BuilderRow) {
    var n := |before|;
    if !Mentions(before, r.field) then r.join == JoinAnd
    else
      && before[n - 1].field == r.field
      && (n >= 2 && before[n - 2].field == r.field ==> r.join == before[n - 1].join)
  }

  /** The row at `k` is filled in, has a known operator and fits what comes before it. */
  predicate NormalAt(rows: seq<BuilderRow>, k: nat)
    requires k < |rows|
  {
    Filled(rows[k]) && Known(rows[k].op) && Fits(rows[..k], rows[k])
  }

  /** Filled rows with known operators, grouped by field, one join a field. */
  predicate Normal(rows: seq<BuilderRow>) {
    forall k | 0 <= k < |rows| :: NormalAt(rows, k)
  }

  lemma NormalFront(rows: seq<BuilderRow>)
    requires Normal(rows) && rows != []
    ensures Normal(rows[..|rows| - 1]) && NormalAt(rows, |rows| - 1)
  {
    var front := rows[..|rows| - 1];
    forall k | 0 <= k < |front|
      ensures NormalAt(front, k)
    {
      assert NormalAt(rows, k) && front[..k] == rows[..k];
    }
  }

  predicate DistinctFields(gs: seq<Group>) {
    forall i, j | 0 <= i < j < |gs| :: gs[i].field != gs[j].field
  }

  /** How the groups reflect the rows read so far. */
  ghost predicate Tracks(gs: seq<Group>, rows: seq<BuilderRow>) {
    && DistinctFields(gs) && NonEmpty(gs) && AllRows(gs) == rows
    && (forall f :: Mentions(rows, f) <==> PlaceOf(gs, f) < |gs|)
    && (rows != [] ==>
          && gs != [] && gs[|gs| - 1].field == rows[|rows| - 1].field
          && (|gs[|gs| - 1].items| >= 2 <==> |rows| >= 2 && rows[|rows| - 2].field == rows[|rows| - 1].field)
          && (|gs[|gs| - 1].items| >= 2 ==> gs[|gs| - 1].join == rows[|rows| - 1].join))
  }

  lemma PlaceOfIs(gs: seq<Group>, i: nat)
    requires i < |gs| && DistinctFields(gs)
    ensures PlaceOf(gs, gs[i].field) == i
  {
  }

  lemma PlaceOfAppended(gs: seq<Group>, g: Group, field: string)
    ensures PlaceOf(gs + [g], field) < |gs| + 1 <==> PlaceOf(gs, field) < |gs| || g.field == field
  {
    var i, j := PlaceOf(gs, field), PlaceOf(gs + [g], field);
    assert (gs + [g])[|gs|] == g;
    if j < |gs| {
      assert (gs + [g])[j] == gs[j];
    }
    if i < |gs| {
      assert (gs + [g])[i] == gs[i];
    }
  }

  lemma MentionsAppended(rows: seq<BuilderRow>, r: BuilderRow, field: string)
    ensures Mentions(rows + [r], field) <==> Mentions(rows, field) || r.field == field
  {
    var all := rows + [r];
    if i :| 0 <= i < |rows| && rows[i].field == field {
      assert all[i].field == field;
    }
    assert all[|rows|] == r;
    if j :| 0 <= j < |all| && all[j].field == field {
      assert j < |rows| ==> rows[j] == all[j];
    }
  }

  lemma OpensGroup(gs: seq<Group>, rows: seq<BuilderRow>, r: BuilderRow)
    requires Tracks(gs, rows) && Filled(r) && Known(r.op) && Fits(rows, r) && !Mentions(rows, r.field)
    ensures Tracks(Added(gs, r), rows + [r])
  {
    LowerOps();
    var g := Group(r.field, JoinAnd, [Item(r.op, r.value, r.negated)]);
    var next := gs + [g];
    assert Added(gs, r) == next && next[..|gs|] == gs;
    assert ItemRows(g.field, g.join, g.items) == [r];
    forall f
      ensures Mentions(rows + [r], f) <==> PlaceOf(next, f) < |next|
    {
      MentionsAppended(rows, r, f);
      PlaceOfAppended(gs, g, f);
    }
  }

  lemma LastGroupGrows(gs: seq<Group>, join: Join, it: Item)
    requires gs != [] && gs[|gs| - 1].items != []
    requires |gs[|gs| - 1].items| >= 2 ==> join == gs[|gs| - 1].join
    ensures var n := |gs| - 1;
            var r := BuilderRow(gs[n].field, Lower(it.op), it.value, it.negated, join);
            AllRows(gs[n := Group(gs[n].field, join, gs[n].items + [it])]) == AllRows(gs) + [r]
  {
    var n := |gs| - 1;
    var g := gs[n];
    var next := gs[n := Group(g.field, join, g.items + [it])];
    var r := BuilderRow(g.field, Lower(it.op), it.value, it.negated, join);
    assert next[..n] == gs[..n];
    assert ItemRows(g.field, join, g.items + [it]) == ItemRows(g.field, g.join, g.items) + [r];
    assert AllRows(gs[..n]) + (ItemRows(g.field, g.join, g.items) + [r])
        == AllRows(gs[..n]) + ItemRows(g.field, g.join, g.items) + [r];
  }

  lemma ContinuesGroup(gs: seq<Group>, rows: seq<BuilderRow>, r: BuilderRow)
    requires Tracks(gs, rows) && Filled(r) && Known(r.op) && Fits(rows, r) && Mentions(rows, r.field)
    ensures Tracks(Added(gs, r), rows + [r])
  {
    LowerOps();
    var n := |gs| - 1;
    var item := Item(r.op, r.value, r.negated);
    PlaceOfIs(gs, n);
    LastGroupGrows(gs, r.join, item);
    var next := gs[n := Group(r.field, r.join, gs[n].items + [item])];
    assert Added(gs, r) == next;
    forall f
      ensures Mentions(rows + [r], f) <==> PlaceOf(next, f) < |next|
    {
      MentionsAppended(rows, r, f);
      SameFields(gs, next, f);
    }
  }

  lemma {:induction false} SameFields(gs: seq<Group>, hs: seq<Group>, field: string)
    requires |gs| == |hs| && forall i | 0 <= i < |gs| :: gs[i].field == hs[i].field
    ensures PlaceOf(gs, field) == PlaceOf(hs, field)
  {
    if gs != [] {
      SameFields(gs[1..], hs[1..], field);
    }
  }

  lemma Tracking(gs: seq<Group>, rows: seq<BuilderRow>, r: BuilderRow)
    requires Tracks(gs, rows) && Filled(r) && Known(r.op) && Fits(rows, r)
    ensures Tracks(Added(gs, r), rows + [r])
  {
    if Mentions(rows, r.field) {
      ContinuesGroup(gs, rows, r);
    } else {
      OpensGroup(gs, rows, r);
    }
  }

  lemma GroupedLast(front: seq<BuilderRow>, r: BuilderRow)
    requires Filled(r)
    ensures Grouped(front + [r]) == Added(Grouped(front), r)
  {
    assert (front + [r])[..|front|] == front;
  }

  lemma TrackNext(front: seq<BuilderRow>, r: BuilderRow, rows: seq<BuilderRow>)
    requires Tracks(Grouped(front), front) && Filled(r) && Known(r.op) && Fits(front, r) && rows == front + [r]
    ensures Tracks(Grouped(rows), rows)
  {
    Tracking(Grouped(front), front, r);
    GroupedLast(front, r);
  }

  lemma {:induction false} NormalTracks(rows: seq<BuilderRow>)
    requires Normal(rows)
    ensures Tracks(Grouped(rows), rows)
  {
    if rows != [] {
      var front, r := rows[..|rows| - 1], rows[|rows| - 1];
      assert rows == front + [r];
      NormalFront(rows);
      NormalTracks(front);
      TrackNext(front, r, rows);
    }
  }

  // Whatever the panel shows is normal.

  predicate FilledGroups(gs: seq<Group>) {
    forall i | 0 <= i < |gs| ::
      gs[i].items != [] && gs[i].field != "" && forall j | 0 <= j < |gs[i].items| :: gs[i].items[j].value != ""
  }

  lemma {:induction false} GroupedFilled(rows: seq<BuilderRow>)
    ensures FilledGroups(Grouped(rows)) && DistinctFields(Grouped(rows))
  {
    if rows != [] {
      GroupedFilled(rows[..|rows| - 1]);
    }
  }

  lemma NormalExtends(before: seq<BuilderRow>, more: seq<BuilderRow>)
    requires Normal(before)
    requires forall k | 0 <= k < |more| :: Filled(more[k]) && Known(more[k].op) && Fits(before + more[..k], more[k])
    ensures Normal(before + more)
  {
    var all := before + more;
    forall k | 0 <= k < |all|
      ensures NormalAt(all, k)
    {
      if k < |before| {
        assert NormalAt(before, k) && all[..k] == before[..k];
      } else {
        var j := k - |before|;
        assert all[k] == more[j] && all[..k] == before + more[..j];
      }
    }
  }

  lemma GroupFits(before: seq<BuilderRow>, field: string, join: Join, items: seq<Item>, k: nat)
    requires !Mentions(before, field) && k < |items|
    ensures Fits(before + ItemRows(field, join, items)[..k], ItemRows(field, join, items)[k])
  {
    var rows := ItemRows(field, join, items);
    var front := before + rows[..k];
    if k == 0 {
      assert front == before;
    } else {
      assert front[|front| - 1] == rows[k - 1];
      assert k >= 2 ==> front[|front| - 2] == rows[k - 2];
      assert k == 1 && |front| >= 2 ==> front[|front| - 2] == before[|before| - 1];
    }
  }

  lemma NormalGroup(before: seq<BuilderRow>, field: string, join: Join, items: seq<Item>)
    requires Normal(before) && !Mentions(before, field) && field != "" && AllKnown(items)
    requires forall j | 0 <= j < |items| :: items[j].value != ""
    ensures Normal(before + ItemRows(field, join, items))
  {
    var rows := ItemRows(field, join, items);
    forall k | 0 <= k < |rows|
      ensures Filled(rows[k]) && Known(rows[k].op) && Fits(before + rows[..k], rows[k])
    {
      GroupFits(before, field, join, items, k);
    }
    NormalExtends(before, rows);
  }

  lemma {:induction false} NormalImage(gs: seq<Group>)
    requires FilledGroups(gs) && DistinctFields(gs) && KnownGroups(gs)
    ensures Normal(AllRows(gs))
    ensures forall i | 0 <= i < |AllRows(gs)| :: exists k | 0 <= k < |gs| :: AllRows(gs)[i].field == gs[k].field
  {
    if gs != [] {
      var n := |gs| - 1;
      NormalImage(gs[..n]);
      assert !Mentions(AllRows(gs[..n]), gs[n].field);
      NormalGroup(AllRows(gs[..n]), gs[n].field, gs[n].join, gs[n].items);
    }
  }

  // ----- Which join a field gets -----

  /** The filled rows of one field, in order. */
  function FieldRows(rows: seq<BuilderRow>, field: string): seq<BuilderRow> {
    if rows == [] then []
    else
      var n := |rows| - 1;
      FieldRows(rows[..n], field) + (if Filled(rows[n]) && rows[n].field == field then [rows[n]] else [])
  }

  /** What the program's comment promises: the first row that joins an earlier one decides. */
  function FirstJoin(fr: seq<BuilderRow>): Join {
    if |fr| <= 1 then JoinAnd else fr[1].join
  }

  /** What the loop does: every joining row decides anew. */
  function LastJoin(fr: seq<BuilderRow>): Join {
    if |fr| <= 1 then JoinAnd else fr[|fr| - 1].join
  }

  function ItemsFor(fr: seq<BuilderRow>): (items: seq<Item>)
    ensures |items| == |fr|
  {
    seq(|fr|, i requires 0 <= i < |fr| => Item(fr[i].op, fr[i].value, fr[i].negated))
  }

  /** The group at the field's place is made of the field's rows. */
  predicate GroupFor(gs: seq<Group>, field: string, fr: seq<BuilderRow>) {
    var i := PlaceOf(gs, field);
    if fr == [] then i == |gs| else i < |gs| && gs[i] == Group(field, LastJoin(fr), ItemsFor(fr))
  }

  lemma GroupForNext(gs: seq<Group>, r: BuilderRow, field: string, fr: seq<BuilderRow>)
    requires GroupFor(gs, field, fr)
    ensures GroupFor(Added(gs, r), field, if r.field == field then fr + [r] else fr)
  {
    var i, item := PlaceOf(gs, r.field), Item(r.op, r.value, r.negated);
    assert ItemsFor(fr + [r]) == ItemsFor(fr) + [item];
    if i == |gs| {
      PlaceAfter(gs, Added(gs, r)[i], field);
      assert ItemsFor([]) == [];
    } else {
      SameFields(gs, Added(gs, r), field);
    }
  }

  lemma {:induction false} PlaceAfter(gs: seq<Group>, g: Group, field: string)
    ensures PlaceOf(gs + [g], field)
            == if PlaceOf(gs, field) < |gs| then PlaceOf(gs, field) else if g.field == field then |gs| else |gs| + 1
  {
    if gs == [] {
      assert [g][1..] == [];
    } else {
      assert (gs + [g])[0] == gs[0] && (gs + [g])[1..] == gs[1..] + [g];
      PlaceAfter(gs[1..], g, field);
    }
  }

  lemma FieldRowsNext(front: seq<BuilderRow>, r: BuilderRow, field: string)
    ensures FieldRows(front + [r], field) == FieldRows(front, field) + (if Filled(r) && r.field == field then [r] else [])
    ensures Grouped(front + [r]) == if Filled(r) then Added(Grouped(front), r) else Grouped(front)
  {
    assert (front + [r])[..|front|] == front;
  }

  lemma {:induction false} GroupOfField(rows: seq<BuilderRow>, field: string)
    ensures GroupFor(Grouped(rows), field, FieldRows(rows, field))
    decreases |rows|
  {
    if rows != [] {
      var front, r := rows[..|rows| - 1], rows[|rows| - 1];
      var fr := FieldRows(front, field);
      assert rows == front + [r];
      GroupOfField(front, field);
      FieldRowsNext(front, r, field);
      assert fr + [] == fr;
      if Filled(r) {
        GroupForNext(Grouped(front), r, field, fr);
      }
    }
  }

  /** Each group holds its field's filled rows in order, under the join of the last of them. That is
      the join of the first joining row, as the program's comment has it, exactly when the two agree. */
  lemma LastJoinWins(rows: seq<BuilderRow>)
    ensures forall k | 0 <= k < |Grouped(rows)| ::
              var g := Grouped(rows)[k];
              var fr := FieldRows(rows, g.field);
              && fr != [] && g == Group(g.field, LastJoin(fr), ItemsFor(fr))
              && (g.join == FirstJoin(fr) <==> |fr| <= 1 || fr[1].join == fr[|fr| - 1].join)
    ensures forall field :: FieldRows(rows, field) != [] <==> PlaceOf(Grouped(rows), field) < |Grouped(rows)|
  {
    var gs := Grouped(rows);
    GroupedFilled(rows);
    forall k | 0 <= k < |gs|
      ensures var g := gs[k];
              var fr := FieldRows(rows, g.field);
              fr != [] && g == Group(g.field, LastJoin(fr), ItemsFor(fr))
    {
      PlaceOfIs(gs, k);
      GroupOfField(rows, gs[k].field);
    }
    forall field
      ensures FieldRows(rows, field) != [] <==> PlaceOf(gs, field) < |gs|
    {
      GroupOfField(rows, field);
    }
  }

  /** Three conditions on one field, the second joined by "or" and the third by "nor": the filter asks
      for none of them, where the first joining row asks for any. */
  lemma FirstJoinIsNotKept()
    ensures var rows := [BuilderRow("name", OP_EQ, "a", false, JoinAnd), BuilderRow("name", OP_EQ, "b", false, JoinOr),
                         BuilderRow("name", OP_EQ, "c", false, JoinNor)];
            && FirstJoin(FieldRows(rows, "name")) == JoinOr
            && Apply(rows) == Parsed(Object([Member("name", Object([Member(OP_NOR, Array(Terms(ItemsFor(rows))))]))]))
  {
    var rows := [BuilderRow("name", OP_EQ, "a", false, JoinAnd), BuilderRow("name", OP_EQ, "b", false, JoinOr),
                 BuilderRow("name", OP_EQ, "c", false, JoinNor)];
    OneField(rows, "name");
    var g := Group("name", JoinNor, ItemsFor(rows));
    assert Grouped(rows) == [g];
    assert Compile(g) == Object([Member(OP_NOR, Array(Terms(g.items)))]);
    assert Compiled([g]) == [Member("name", Compile(g))];
  }

  lemma {:induction false} OneField(rows: seq<BuilderRow>, field: string)
    requires rows != [] && forall i | 0 <= i < |rows| :: Filled(rows[i]) && rows[i].field == field
    ensures Grouped(rows) == [Group(field, LastJoin(rows), ItemsFor(rows))] && FieldRows(rows, field) == rows
  {
    var n := |rows| - 1;
    if n == 0 {
      assert rows[..0] == [] && rows == [rows[0]];
      assert ItemsFor(rows) == [Item(rows[0].op, rows[0].value, rows[0].negated)];
    } else {
      OneField(rows[..n], field);
      assert rows == rows[..n] + [rows[n]];
      assert ItemsFor(rows) == ItemsFor(rows[..n]) + [Item(rows[n].op, rows[n].value, rows[n].negated)];
    }
  }

  /** The builder gives rows back unchanged exactly when they are normal: all filled in, with known
      operators, grouped by field, one join a field, none on a field's first row. */
  lemma BuilderRoundTrip(rows: seq<BuilderRow>)
    ensures Sync(Apply(rows)) == Editable(rows) <==> Normal(rows)
  {
    var gs := Grouped(rows);
    SyncAfterApply(rows);
    GroupedFilled(rows);
    if Normal(rows) {
      NormalTracks(rows);
      NormalKnown(rows);
    }
    if Sync(Apply(rows)) == Editable(rows) {
      NormalImage(gs);
    }
  }

  lemma {:induction false} NormalKnown(rows: seq<BuilderRow>)
    requires Normal(rows)
    ensures KnownGroups(Grouped(rows))
  {
    if rows != [] {
      LowerOps();
      NormalFront(rows);
      NormalKnown(rows[..|rows| - 1]);
    }
  }

  /** One trip through the panel settles: what it shows comes back unchanged ever after. */
  lemma PanelSettles(rows: seq<BuilderRow>)
    ensures Sync(Apply(rows)).Editable? ==> Sync(Apply(Sync(Apply(rows)).rows)) == Sync(Apply(rows))
  {
    SyncAfterApply(rows);
    GroupedFilled(rows);
    if Sync(Apply(rows)).Editable? {
      NormalImage(Grouped(rows));
      BuilderRoundTrip(AllRows(Grouped(rows)));
    }
  }
}
