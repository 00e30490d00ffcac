/** What the panel shows of a filter it did not make itself, against what the filter does. */
module BuilderReading {
  import opened Wrappers
  import opened FilterJson
  import opened FilterTokens
  import opened FilterWalk
  import opened FilterMatch
  import opened FilterOrder
  import opened FilterSpelling
  import opened AccessLaws
  import opened FilterBuilder
  import opened BuilderRoundTrip
  import opened BuilderMeaning

  /** The back end compares texts, and knows operators in any case. */
  ghost predicate Textual(b: Backend<bool>, field: string) {
    && b.combiner == BOOL_COMBINER
    && forall op, v | ScalarString(v).Ok? :: b.mapper(field, op, v) == b.mapper(field, Lower(op), Text(ScalarString(v).value))
  }

  /** The back end judges the conditions of these rows as `test` does. */
  ghost predicate Tests(b: Backend<bool>, field: string, rs: seq<BuilderRow>, test: Test) {
    forall i | 0 <= i < |rs| :: b.mapper(field, rs[i].op, Text(rs[i].value)) == Ok(test(rs[i].op, rs[i].value))
  }

  predicate RowHolds(r: BuilderRow, test: Test) {
    test(r.op, r.value) != r.negated
  }

  /** What a field's rows say: a single one for itself, several all, any or none, as the last one's join has it. */
  predicate RowsSay(field: string, rs: seq<BuilderRow>, test: Test) {
    GroupHolds(Group(field, LastJoin(rs), ItemsFor(rs)), test)
  }

  // ----- One condition -----

  lemma TermRead(field: string, expr: Json, negated: bool, b: Backend<bool>)
    requires Textual(b, field) && ReadTerm(field, expr, negated).Some?
    ensures var r := ReadTerm(field, expr, negated).value;
            && r.negated == negated && r.field == field
            && DenoteObject(field, expr, b) == b.mapper(field, r.op, Text(r.value))
  {
    var m := expr.members[0];
    assert expr == Object([m]);
    KnownIsLeaf(m.key);
    OneOp(field, m, b);
  }

  lemma {:induction false} NotFound(ms: seq<Member>, i: nat)
    requires DistinctKeys(ms) && i < |ms| && ms[i].key == OP_NOT
    ensures NotOf(ms) == Some(ms[i].value)
  {
    var n := |ms| - 1;
    if i < n {
      assert ms[n].key != ms[i].key;
      NotFound(ms[..n], i);
    }
  }

  lemma NotRead(field: string, key: string, v: Json, b: Backend<bool>, test: Test)
    requires Textual(b, field) && Lower(key) == OP_NOT && ReadTerm(field, v, true).Some?
    requires Tests(b, field, [ReadTerm(field, v, true).value], test)
    ensures DenoteOp(field, key, v, b) == Ok(RowHolds(ReadTerm(field, v, true).value, test))
  {
    var r := ReadTerm(field, v, true).value;
    assert [r][0] == r;
    TermRead(field, v, true, b);
    LowerSpells(key, "$not");
    NotMeaning(field, key, v, b);
  }

  lemma ElementRead(field: string, el: Json, b: Backend<bool>, test: Test)
    requires Textual(b, field) && ReadElement(field, el).Some?
    requires Tests(b, field, [ReadElement(field, el).value], test)
    ensures DenoteObject(field, el, b) == Ok(RowHolds(ReadElement(field, el).value, test))
  {
    var r := ReadElement(field, el).value;
    assert [r][0] == r;
    if |el.members| == 1 && Lower(el.members[0].key) == OP_NOT {
      var m := el.members[0];
      assert el == Object([m]) && el.members[..0] == [];
      assert NotOf(el.members) == Some(m.value);
      NotRead(field, m.key, m.value, b, test);
      OneOp(field, m, b);
    } else {
      TermRead(field, el, false, b);
    }
  }

  // ----- An array -----

  lemma {:induction false} ArrayRows(field: string, join: Join, items: seq<Json>)
    requires ReadArray(field, join, items).Some?
    ensures var rs := ReadArray(field, join, items).value;
            && |rs| == |items|
            && forall i | 0 <= i < |items| ::
                 && ReadElement(field, items[i]).Some?
                 && rs[i] == ReadElement(field, items[i]).value.(join := if i > 0 then join else JoinAnd)
  {
    if items != [] {
      ArrayRows(field, join, items[..|items| - 1]);
    }
  }

  lemma TestsRow(b: Backend<bool>, field: string, rs: seq<BuilderRow>, test: Test, i: nat, r: BuilderRow)
    requires Tests(b, field, rs, test) && i < |rs| && rs[i] == r.(join := rs[i].join)
    ensures Tests(b, field, [r], test) && RowHolds(rs[i], test) == RowHolds(r, test)
  {
  }

  lemma ArrayElements(field: string, join: Join, items: seq<Json>, b: Backend<bool>, test: Test)
    requires Textual(b, field) && ReadArray(field, join, items).Some?
    requires Tests(b, field, ReadArray(field, join, items).value, test)
    ensures var rs := ReadArray(field, join, items).value;
            && |rs| == |items|
            && forall i | 0 <= i < |items| :: DenoteObject(field, items[i], b) == Ok(RowHolds(rs[i], test))
  {
    var rs := ReadArray(field, join, items).value;
    ArrayRows(field, join, items);
    forall i | 0 <= i < |items|
      ensures DenoteObject(field, items[i], b) == Ok(RowHolds(rs[i], test))
    {
      TestsRow(b, field, rs, test, i, ReadElement(field, items[i]).value);
      ElementRead(field, items[i], b, test);
    }
  }

  /** All, any or none of a list of truths. */
  function JoinedRows(join: Join, rs: seq<BuilderRow>, test: Test): bool {
    match join
    case JoinAnd => forall i | 0 <= i < |rs| :: RowHolds(rs[i], test)
    case JoinOr => exists i | 0 <= i < |rs| :: RowHolds(rs[i], test)
    case JoinNor => forall i | 0 <= i < |rs| :: !RowHolds(rs[i], test)
  }

  lemma JoinSpelled(key: string)
    ensures JoinOf(key) == Some(JoinAnd) <==> Spells(key, "$and")
    ensures JoinOf(key) == Some(JoinOr) <==> Spells(key, "$or")
    ensures JoinOf(key) == Some(JoinNor) <==> Spells(key, "$nor")
  {
    LowerSpells(key, "$and");
    LowerSpells(key, "$or");
    LowerSpells(key, "$nor");
  }

  lemma LogicalTruths(field: string, key: string, items: seq<Json>, vs: seq<bool>, b: Backend<bool>)
    requires b.combiner == BOOL_COMBINER && JoinOf(key).Some? && |vs| == |items|
    requires forall i | 0 <= i < |items| :: DenoteObject(field, items[i], b) == Ok(vs[i])
    ensures DenoteOp(field, key, Array(items), b)
         == Ok(match JoinOf(key).value case JoinAnd => AndAll(vs) case JoinOr => OrAny(vs) case JoinNor => !OrAny(vs))
  {
    JoinSpelled(key);
    LogicalMeaning(field, key, Array(items), b);
    assert ItemsMean(field, items, b);
  }

  function RowTruths(rs: seq<BuilderRow>, test: Test): (vs: seq<bool>)
    ensures |vs| == |rs| && forall i | 0 <= i < |rs| :: vs[i] == RowHolds(rs[i], test)
  {
    seq(|rs|, i requires 0 <= i < |rs| => RowHolds(rs[i], test))
  }

  lemma TruthsJoined(join: Join, rs: seq<BuilderRow>, test: Test)
    ensures JoinedRows(join, rs, test)
         == match join
            case JoinAnd => AndAll(RowTruths(rs, test))
            case JoinOr => OrAny(RowTruths(rs, test))
            case JoinNor => !OrAny(RowTruths(rs, test))
  {
    var vs := RowTruths(rs, test);
    assert forall i | 0 <= i < |rs| :: vs[i] == RowHolds(rs[i], test);
  }

  lemma ArrayMeans(field: string, key: string, items: seq<Json>, b: Backend<bool>, test: Test)
    requires Textual(b, field) && JoinOf(key).Some? && ReadArray(field, JoinOf(key).value, items).Some?
    requires Tests(b, field, ReadArray(field, JoinOf(key).value, items).value, test)
    ensures DenoteOp(field, key, Array(items), b)
         == Ok(JoinedRows(JoinOf(key).value, ReadArray(field, JoinOf(key).value, items).value, test))
  {
    var rs := ReadArray(field, JoinOf(key).value, items).value;
    ArrayElements(field, JoinOf(key).value, items, b, test);
    LogicalTruths(field, key, items, RowTruths(rs, test), b);
    TruthsJoined(JoinOf(key).value, rs, test);
  }

  // ----- A flat object -----

  /** The key "$not" is written so, not in another case. */
  predicate PlainNot(ms: seq<Member>) {
    forall i | 0 <= i < |ms| && Lower(ms[i].key) == OP_NOT :: ms[i].key == OP_NOT
  }

  lemma {:induction false} FlatRows(field: string, ms: seq<Member>, all: seq<Member>)
    requires ReadFlat(field, ms, all).Some?
    ensures var rs := ReadFlat(field, ms, all).value;
            |rs| == |ms| && forall i | 0 <= i < |ms| :: ReadMember(field, ms[i], all) == Some(rs[i])
  {
    if ms != [] {
      FlatRows(field, ms[..|ms| - 1], all);
    }
  }

  lemma MemberRead(field: string, ms: seq<Member>, i: nat, b: Backend<bool>, test: Test)
    requires Textual(b, field) && DistinctKeys(ms) && PlainNot(ms) && i < |ms| && ReadMember(field, ms[i], ms).Some?
    requires Tests(b, field, [ReadMember(field, ms[i], ms).value], test)
    ensures DenoteOp(field, ms[i].key, ms[i].value, b) == Ok(RowHolds(ReadMember(field, ms[i], ms).value, test))
    ensures ReadMember(field, ms[i], ms).value.join == JoinAnd
  {
    var r := ReadMember(field, ms[i], ms).value;
    assert [r][0] == r;
    if Lower(ms[i].key) == OP_NOT {
      NotFound(ms, i);
      NotRead(field, ms[i].key, ms[i].value, b, test);
    } else {
      TermRead(field, Object([ms[i]]), false, b);
      OneOp(field, ms[i], b);
    }
  }

  lemma FlatMeansRows(field: string, ms: seq<Member>, b: Backend<bool>, test: Test)
    requires Textual(b, field) && DistinctKeys(ms) && PlainNot(ms) && ms != [] && ReadFlat(field, ms, ms).Some?
    requires Tests(b, field, ReadFlat(field, ms, ms).value, test)
    ensures var rs := ReadFlat(field, ms, ms).value;
            && |rs| == |ms| && (forall i | 0 <= i < |rs| :: rs[i].join == JoinAnd)
            && DenoteObject(field, Object(ms), b) == Ok(JoinedRows(JoinAnd, rs, test))
  {
    var rs := ReadFlat(field, ms, ms).value;
    FlatRows(field, ms, ms);
    forall i | 0 <= i < |ms|
      ensures DenoteOp(field, ms[i].key, ms[i].value, b) == Ok(RowHolds(rs[i], test)) && rs[i].join == JoinAnd
    {
      TestsRow(b, field, rs, test, i, rs[i]);
      MemberRead(field, ms, i, b, test);
    }
    ObjectMeaning(field, Object(ms), b);
    assert OpsMean(field, ms, b);
  }

  // ----- A field -----

  /** The shape the panel misreads: "none of" a single condition. */
  predicate LoneNor(ops: Json) {
    ops.Object? && |ops.members| == 1 && Spells(ops.members[0].key, "$nor")
    && ops.members[0].value.Array? && |ops.members[0].value.items| == 1
  }

  lemma RowsSayJoined(field: string, rs: seq<BuilderRow>, test: Test)
    ensures RowsSay(field, rs, test) == if |rs| == 1 then RowHolds(rs[0], test) else JoinedRows(LastJoin(rs), rs, test)
  {
    var g := Group(field, LastJoin(rs), ItemsFor(rs));
    assert forall i | 0 <= i < |rs| :: ItemHolds(g.items[i], test) == RowHolds(rs[i], test);
  }

  lemma JoinedOne(join: Join, r: BuilderRow, test: Test)
    ensures JoinedRows(join, [r], test) == (if join == JoinNor then !RowHolds(r, test) else RowHolds(r, test))
  {
    assert [r][0] == r;
  }

  /** The panel never misrepresents a field, as it promises, exactly when the field is not a $nor of a
      single condition, which is shown as that condition; and this for every back end that compares
      texts, on every row. */
  lemma PanelTellsTruth(field: string, ops: Json, b: Backend<bool>, test: Test)
    requires Textual(b, field) && Read(field, ops).Some? && Tests(b, field, Read(field, ops).value, test)
    requires DistinctKeys(ops.members) && PlainNot(ops.members)
    ensures DenoteObject(field, ops, b).Ok?
    ensures DenoteObject(field, ops, b).value == RowsSay(field, Read(field, ops).value, test) <==> !LoneNor(ops)
  {
    var ms, rs := ops.members, Read(field, ops).value;
    RowsSayJoined(field, rs, test);
    if |ms| == 1 && JoinOf(ms[0].key).Some? {
      var items := ms[0].value.items;
      assert ops == Object([ms[0]]) && ms[0].value == Array(items);
      ArrayRows(field, JoinOf(ms[0].key).value, items);
      ArrayMeans(field, ms[0].key, items, b, test);
      OneOp(field, ms[0], b);
      JoinSpelled(ms[0].key);
      if |rs| == 1 {
        assert rs == [rs[0]];
        JoinedOne(JoinOf(ms[0].key).value, rs[0], test);
      }
    } else {
      FlatMeansRows(field, ms, b, test);
      JoinSpelled(ms[0].key);
      if |rs| == 1 {
        assert rs == [rs[0]];
        JoinedOne(JoinAnd, rs[0], test);
      }
    }
  }

  // ----- A whole filter under Match -----

  /** The row has a scalar for the field, which may be filtered on with the operators of these rows. */
  predicate CoveredBy(row: Row, fm: FieldSpecMap, field: string, rs: seq<BuilderRow>) {
    && KeyOf(fm, field) in row && ScalarString(row[KeyOf(fm, field)]).Ok?
    && forall i | 0 <= i < |rs| :: Admit(fm, field, rs[i].op).Ok?
  }

  lemma LowerTwice(s: string)
    ensures Lower(Lower(s)) == Lower(s)
  {
    assert forall i | 0 <= i < |s| :: LowerChar(LowerChar(s[i])) == LowerChar(s[i]);
  }

  lemma MatchTextual(row: Row, fm: FieldSpecMap, cmp: Compare, field: string)
    ensures Textual(RowBackend(row, fm, cmp), field)
  {
    var b := RowBackend(row, fm, cmp);
    forall op, v | ScalarString(v).Ok?
      ensures b.mapper(field, op, v) == b.mapper(field, Lower(op), Text(ScalarString(v).value))
    {
      LowerTwice(op);
    }
  }

  lemma MatchTests(row: Row, fm: FieldSpecMap, cmp: Compare, field: string, rs: seq<BuilderRow>)
    requires CoveredBy(row, fm, field, rs)
    ensures Tests(RowBackend(row, fm, cmp), field, rs, TestOf(row, fm, cmp, field))
  {
    forall i | 0 <= i < |rs|
      ensures RowBackend(row, fm, cmp).mapper(field, rs[i].op, Text(rs[i].value))
           == Ok(TestOf(row, fm, cmp, field)(rs[i].op, rs[i].value))
    {
      assert Admit(fm, field, rs[i].op).Ok?;
    }
  }

  /** A field the panel can show, as JSON.parse and a map decode it, on a row that has it. */
  predicate Shown(m: Member, row: Row, fm: FieldSpecMap) {
    && Read(m.key, m.value).Some? && CoveredBy(row, fm, m.key, Read(m.key, m.value).value)
    && DistinctKeys(m.value.members) && PlainNot(m.value.members)
  }

  predicate Says(m: Member, row: Row, fm: FieldSpecMap, cmp: Compare) {
    Read(m.key, m.value).Some? && RowsSay(m.key, Read(m.key, m.value).value, TestOf(row, fm, cmp, m.key))
  }

  function AllSay(ms: seq<Member>, row: Row, fm: FieldSpecMap, cmp: Compare): (r: seq<bool>)
    ensures |r| == |ms| && forall i | 0 <= i < |ms| :: r[i] == Says(ms[i], row, fm, cmp)
  {
    seq(|ms|, i requires 0 <= i < |ms| => Says(ms[i], row, fm, cmp))
  }

  lemma FieldSays(m: Member, row: Row, fm: FieldSpecMap, cmp: Compare)
    requires Shown(m, row, fm) && !LoneNor(m.value)
    ensures DenoteObject(m.key, m.value, RowBackend(row, fm, cmp)) == Ok(Says(m, row, fm, cmp))
  {
    MatchTextual(row, fm, cmp, m.key);
    MatchTests(row, fm, cmp, m.key, Read(m.key, m.value).value);
    PanelTellsTruth(m.key, m.value, RowBackend(row, fm, cmp), TestOf(row, fm, cmp, m.key));
  }

  /** What a filter makes of a row under Match. */
  function Judged(f: RawFilter, row: Row, fm: FieldSpecMap, cmp: Compare): Result<bool, Error> {
    match f
    case NoFilter => Ok(true)
    case Malformed => Err(BadJson)
    case Parsed(root) =>
      var toks :- Flatten(root);
      Verdict(toks, row, fm, cmp)
  }

  lemma DenotedJudged(ms: seq<Member>, truths: seq<bool>, row: Row, fm: FieldSpecMap, cmp: Compare)
    requires |truths| == |ms|
    requires forall i | 0 <= i < |ms| :: DenoteObject(ms[i].key, ms[i].value, RowBackend(row, fm, cmp)) == Ok(truths[i])
    ensures Judged(Parsed(Object(ms)), row, fm, cmp) == Ok(AndAll(truths))
  {
    var b := RowBackend(row, fm, cmp);
    DenoteEach(ms, b, truths);
    FlattenFails(ms, b);
    WalkOfFlatten(ms, b);
  }

  /** A filter the panel shows keeps exactly the rows for which what each field's rows say holds. */
  lemma FilterSays(ms: seq<Member>, row: Row, fm: FieldSpecMap, cmp: Compare)
    requires forall i | 0 <= i < |ms| :: Shown(ms[i], row, fm) && !LoneNor(ms[i].value)
    ensures Judged(Parsed(Object(ms)), row, fm, cmp) == Ok(AndAll(AllSay(ms, row, fm, cmp)))
  {
    var truths := AllSay(ms, row, fm, cmp);
    forall i | 0 <= i < |ms|
      ensures DenoteObject(ms[i].key, ms[i].value, RowBackend(row, fm, cmp)) == Ok(truths[i])
    {
      FieldSays(ms[i], row, fm, cmp);
    }
    DenotedJudged(ms, truths, row, fm, cmp);
  }

  // ----- Applying what is shown -----

  lemma {:induction false} FieldRowsAppend(xs: seq<BuilderRow>, ys: seq<BuilderRow>, field: string)
    ensures FieldRows(xs + ys, field) == FieldRows(xs, field) + FieldRows(ys, field)
    decreases |ys|
  {
    if ys == [] {
      assert xs + ys == xs;
    } else {
      var n := |ys| - 1;
      assert (xs + ys)[..|xs| + n] == xs + ys[..n];
      FieldRowsAppend(xs, ys[..n], field);
    }
  }

  lemma {:induction false} FieldRowsOf(rs: seq<BuilderRow>, field: string, other: string)
    requires forall i | 0 <= i < |rs| :: rs[i].field == field && Filled(rs[i])
    ensures FieldRows(rs, other) == if other == field then rs else []
  {
    if rs != [] {
      var n := |rs| - 1;
      FieldRowsOf(rs[..n], field, other);
      assert rs == rs[..n] + [rs[n]];
    }
  }

  lemma {:induction false} ArrayFields(field: string, join: Join, items: seq<Json>)
    requires ReadArray(field, join, items).Some?
    ensures forall i | 0 <= i < |ReadArray(field, join, items).value| ::
              ReadArray(field, join, items).value[i].field == field && Known(ReadArray(field, join, items).value[i].op)
  {
    if items != [] {
      ArrayFields(field, join, items[..|items| - 1]);
    }
  }

  lemma {:induction false} FlatFields(field: string, ms: seq<Member>, all: seq<Member>)
    requires ReadFlat(field, ms, all).Some?
    ensures forall i | 0 <= i < |ReadFlat(field, ms, all).value| ::
              ReadFlat(field, ms, all).value[i].field == field && Known(ReadFlat(field, ms, all).value[i].op)
  {
    if ms != [] {
      FlatFields(field, ms[..|ms| - 1], all);
    }
  }

  lemma ReadFields(field: string, ops: Json)
    requires Read(field, ops).Some?
    ensures var rs := Read(field, ops).value;
            rs != [] && forall i | 0 <= i < |rs| :: rs[i].field == field && Known(rs[i].op)
  {
    var ms := ops.members;
    if |ms| == 1 && JoinOf(ms[0].key).Some? {
      ArrayFields(field, JoinOf(ms[0].key).value, ms[0].value.items);
      ArrayRows(field, JoinOf(ms[0].key).value, ms[0].value.items);
    } else {
      FlatFields(field, ms, ms);
      FlatRows(field, ms, ms);
    }
  }

  /** Every value is filled in. */
  predicate ValuesFilled(m: Member) {
    m.key != "" && Read(m.key, m.value).Some?
    && forall i | 0 <= i < |Read(m.key, m.value).value| :: Read(m.key, m.value).value[i].value != ""
  }

  /** The rows shown of the members called `field`. */
  function RowsFor(ms: seq<Member>, field: string): seq<BuilderRow> {
    if ms == [] then []
    else
      var n := |ms| - 1;
      RowsFor(ms[..n], field) + (if ms[n].key == field then Read(ms[n].key, ms[n].value).GetOr([]) else [])
  }

  lemma LastRows(m: Member, field: string)
    requires ValuesFilled(m)
    ensures FieldRows(Read(m.key, m.value).value, field) == if m.key == field then Read(m.key, m.value).value else []
  {
    ReadFields(m.key, m.value);
    FieldRowsOf(Read(m.key, m.value).value, m.key, field);
  }

  lemma {:induction false} ShownRows(ms: seq<Member>, field: string)
    requires ReadAll(ms).Some? && forall i | 0 <= i < |ms| :: ValuesFilled(ms[i])
    ensures FieldRows(ReadAll(ms).value, field) == RowsFor(ms, field)
  {
    if ms != [] {
      var n := |ms| - 1;
      ShownRows(ms[..n], field);
      assert ValuesFilled(ms[n]);
      LastRows(ms[n], field);
      FieldRowsAppend(ReadAll(ms[..n]).value, Read(ms[n].key, ms[n].value).value, field);
    }
  }

  lemma {:induction false} RowsForNone(ms: seq<Member>, field: string)
    requires forall i | 0 <= i < |ms| :: ms[i].key != field
    ensures RowsFor(ms, field) == []
  {
    if ms != [] {
      RowsForNone(ms[..|ms| - 1], field);
    }
  }

  lemma {:induction false} RowsForOne(ms: seq<Member>, i: nat)
    requires DistinctKeys(ms) && i < |ms|
    ensures RowsFor(ms, ms[i].key) == Read(ms[i].key, ms[i].value).GetOr([])
  {
    var n := |ms| - 1;
    if i < n {
      assert ms[n].key != ms[i].key;
      RowsForOne(ms[..n], i);
    } else {
      RowsForNone(ms[..n], ms[i].key);
    }
  }

  /** The groups the shown rows are compiled from: one a field, made of the field's rows. */
  predicate GroupOf(g: Group, m: Member) {
    Read(m.key, m.value).Some?
    && g == Group(m.key, LastJoin(Read(m.key, m.value).value), ItemsFor(Read(m.key, m.value).value))
  }

  lemma GroupIsField(ms: seq<Member>, k: nat) returns (i: nat)
    requires DistinctKeys(ms) && ReadAll(ms).Some? && forall i | 0 <= i < |ms| :: ValuesFilled(ms[i])
    requires k < |Grouped(ReadAll(ms).value)|
    ensures i < |ms| && GroupOf(Grouped(ReadAll(ms).value)[k], ms[i])
  {
    var g := Grouped(ReadAll(ms).value)[k];
    LastJoinWins(ReadAll(ms).value);
    ShownRows(ms, g.field);
    if forall i | 0 <= i < |ms| :: ms[i].key != g.field {
      RowsForNone(ms, g.field);
    }
    i :| 0 <= i < |ms| && ms[i].key == g.field;
    assert ValuesFilled(ms[i]);
    RowsForOne(ms, i);
  }

  lemma FieldIsGroup(ms: seq<Member>, i: nat) returns (k: nat)
    requires DistinctKeys(ms) && ReadAll(ms).Some? && forall i | 0 <= i < |ms| :: ValuesFilled(ms[i])
    requires i < |ms|
    ensures k < |Grouped(ReadAll(ms).value)| && GroupOf(Grouped(ReadAll(ms).value)[k], ms[i])
  {
    assert ValuesFilled(ms[i]);
    LastJoinWins(ReadAll(ms).value);
    ShownRows(ms, ms[i].key);
    RowsForOne(ms, i);
    ReadFields(ms[i].key, ms[i].value);
    k := PlaceOf(Grouped(ReadAll(ms).value), ms[i].key);
  }

  lemma GroupCovered(g: Group, m: Member, row: Row, fm: FieldSpecMap, cmp: Compare)
    requires GroupOf(g, m) && Shown(m, row, fm)
    ensures Covered(row, fm, g) && FieldHolds(g, row, fm, cmp) == Says(m, row, fm, cmp)
  {
    LowerOps();
    ReadFields(m.key, m.value);
    var rs := Read(m.key, m.value).value;
    forall i | 0 <= i < |g.items|
      ensures Known(Lower(g.items[i].op)) && Admit(fm, g.field, g.items[i].op).Ok?
    {
      assert Known(rs[i].op) && Admit(fm, m.key, rs[i].op).Ok?;
    }
  }

  /** `at` has for each group the place of its field. */
  predicate GroupsAt(gs: seq<Group>, ms: seq<Member>, at: seq<nat>) {
    |at| == |gs| && forall k | 0 <= k < |gs| :: at[k] < |ms| && GroupOf(gs[k], ms[at[k]])
  }

  /** `at` has for each field the place of its group. */
  predicate FieldsAt(gs: seq<Group>, ms: seq<Member>, at: seq<nat>) {
    |at| == |ms| && forall i | 0 <= i < |ms| :: at[i] < |gs| && GroupOf(gs[at[i]], ms[i])
  }

  lemma NextGroup(gs: seq<Group>, ms: seq<Member>, at: seq<nat>, i: nat)
    requires |at| < |gs| && GroupsAt(gs[..|at|], ms, at) && i < |ms| && GroupOf(gs[|at|], ms[i])
    ensures GroupsAt(gs[..|at| + 1], ms, at + [i])
  {
    forall k | 0 <= k < |at| + 1
      ensures (at + [i])[k] < |ms| && GroupOf(gs[..|at| + 1][k], ms[(at + [i])[k]])
    {
      assert k < |at| ==> gs[..|at|][k] == gs[k];
    }
  }

  lemma EveryGroup(ms: seq<Member>) returns (at: seq<nat>)
    requires DistinctKeys(ms) && ReadAll(ms).Some? && forall i | 0 <= i < |ms| :: ValuesFilled(ms[i])
    ensures GroupsAt(Grouped(ReadAll(ms).value), ms, at)
  {
    var gs := Grouped(ReadAll(ms).value);
    at := [];
    while |at| < |gs|
      invariant |at| <= |gs| && GroupsAt(gs[..|at|], ms, at)
    {
      var i := GroupIsField(ms, |at|);
      NextGroup(gs, ms, at, i);
      at := at + [i];
    }
    assert gs[..|gs|] == gs;
  }

  lemma NextField(gs: seq<Group>, ms: seq<Member>, at: seq<nat>, k: nat)
    requires |at| < |ms| && FieldsAt(gs, ms[..|at|], at) && k < |gs| && GroupOf(gs[k], ms[|at|])
    ensures FieldsAt(gs, ms[..|at| + 1], at + [k])
  {
    forall i | 0 <= i < |at| + 1
      ensures (at + [k])[i] < |gs| && GroupOf(gs[(at + [k])[i]], ms[..|at| + 1][i])
    {
      assert i < |at| ==> ms[..|at|][i] == ms[i];
    }
  }

  lemma EveryField(ms: seq<Member>) returns (at: seq<nat>)
    requires DistinctKeys(ms) && ReadAll(ms).Some? && forall i | 0 <= i < |ms| :: ValuesFilled(ms[i])
    ensures FieldsAt(Grouped(ReadAll(ms).value), ms, at)
  {
    var gs := Grouped(ReadAll(ms).value);
    at := [];
    while |at| < |ms|
      invariant |at| <= |ms| && FieldsAt(gs, ms[..|at|], at)
    {
      var k := FieldIsGroup(ms, |at|);
      NextField(gs, ms, at, k);
      at := at + [k];
    }
    assert ms[..|ms|] == ms;
  }

  lemma AllCovered(gs: seq<Group>, ms: seq<Member>, at: seq<nat>, row: Row, fm: FieldSpecMap, cmp: Compare)
    requires GroupsAt(gs, ms, at) && forall i | 0 <= i < |ms| :: Shown(ms[i], row, fm)
    ensures forall k | 0 <= k < |gs| :: Covered(row, fm, gs[k])
  {
    forall k | 0 <= k < |gs|
      ensures Covered(row, fm, gs[k])
    {
      assert Shown(ms[at[k]], row, fm);
      GroupCovered(gs[k], ms[at[k]], row, fm, cmp);
    }
  }

  lemma SameTruths(xs: seq<bool>, ys: seq<bool>, at: seq<nat>, back: seq<nat>)
    requires |at| == |xs| && forall k | 0 <= k < |xs| :: at[k] < |ys| && xs[k] == ys[at[k]]
    requires |back| == |ys| && forall i | 0 <= i < |ys| :: back[i] < |xs| && ys[i] == xs[back[i]]
    ensures AndAll(xs) == AndAll(ys)
  {
  }

  lemma SameConjunction(gs: seq<Group>, ms: seq<Member>, at: seq<nat>, back: seq<nat>,
                        row: Row, fm: FieldSpecMap, cmp: Compare)
    requires forall i | 0 <= i < |ms| :: Shown(ms[i], row, fm)
    requires GroupsAt(gs, ms, at) && FieldsAt(gs, ms, back)
    ensures AndAll(Truths(gs, row, fm, cmp)) == AndAll(AllSay(ms, row, fm, cmp))
  {
    var xs, ys := Truths(gs, row, fm, cmp), AllSay(ms, row, fm, cmp);
    forall k | 0 <= k < |gs|
      ensures xs[k] == ys[at[k]]
    {
      assert Shown(ms[at[k]], row, fm);
      GroupCovered(gs[k], ms[at[k]], row, fm, cmp);
    }
    forall i | 0 <= i < |ms|
      ensures ys[i] == xs[back[i]]
    {
      assert Shown(ms[i], row, fm);
      GroupCovered(gs[back[i]], ms[i], row, fm, cmp);
    }
    SameTruths(xs, ys, at, back);
  }

  lemma RowsJudged(rows: seq<BuilderRow>, row: Row, fm: FieldSpecMap, cmp: Compare)
    requires Grouped(rows) != [] && forall k | 0 <= k < |Grouped(rows)| :: Covered(row, fm, Grouped(rows)[k])
    ensures Judged(Apply(rows), row, fm, cmp) == Ok(AndAll(Truths(Grouped(rows), row, fm, cmp)))
  {
    BuilderMeaning.BuilderMeaning(rows, row, fm, cmp);
    var gs := Grouped(rows);
    var truths := Truths(gs, row, fm, cmp);
    assert AndAll(truths) <==> forall k | 0 <= k < |gs| :: FieldHolds(gs[k], row, fm, cmp);
  }

  lemma RowsMeanTheSame(ms: seq<Member>, at: seq<nat>, back: seq<nat>, row: Row, fm: FieldSpecMap, cmp: Compare)
    requires ms != [] && ReadAll(ms).Some?
    requires GroupsAt(Grouped(ReadAll(ms).value), ms, at) && FieldsAt(Grouped(ReadAll(ms).value), ms, back)
    requires forall i | 0 <= i < |ms| :: Shown(ms[i], row, fm) && !LoneNor(ms[i].value)
    ensures Judged(Apply(ReadAll(ms).value), row, fm, cmp) == Judged(Parsed(Object(ms)), row, fm, cmp)
  {
    var gs := Grouped(ReadAll(ms).value);
    assert back[0] < |gs|;
    AllCovered(gs, ms, at, row, fm, cmp);
    RowsJudged(ReadAll(ms).value, row, fm, cmp);
    FilterSays(ms, row, fm, cmp);
    SameConjunction(gs, ms, at, back, row, fm, cmp);
  }

  /** Applying the panel as it stands keeps what the filter did, on every row that has the fields: for a
      filter whose values are filled in and that has no "none of" a single condition. */
  lemma ReappliedMeansTheSame(ms: seq<Member>, row: Row, fm: FieldSpecMap, cmp: Compare)
    requires ms != [] && DistinctKeys(ms) && Sync(Parsed(Object(ms))).Editable?
    requires forall i | 0 <= i < |ms| :: ValuesFilled(ms[i]) && Shown(ms[i], row, fm) && !LoneNor(ms[i].value)
    ensures Judged(Apply(Sync(Parsed(Object(ms))).rows), row, fm, cmp) == Judged(Parsed(Object(ms)), row, fm, cmp)
  {
    var at := EveryGroup(ms);
    var back := EveryField(ms);
    RowsMeanTheSame(ms, at, back, row, fm, cmp);
  }

  // ----- Where the panel misleads -----

  const LONE_NOR := Object([Member("$nor", Array([Object([Member("$eq", Text("a"))])]))])
  const LONE_ROW := BuilderRow("name", "$eq", "a", false, JoinAnd)

  lemma LoneNorShown()
    ensures Read("name", LONE_NOR) == Some([LONE_ROW]) && LoneNor(LONE_NOR)
    ensures Sync(Parsed(Object([Member("name", LONE_NOR)]))) == Editable([LONE_ROW])
  {
    LowerOps();
    LogicDiffers();
    LowerSpells("$nor", "$nor");
    var el := Object([Member("$eq", Text("a"))]);
    assert Lower("$eq") == "$eq";
    assert ReadElement("name", el) == Some(LONE_ROW);
    assert [el][..0] == [] && ReadArray("name", JoinNor, []) == Some([]) && [] + [LONE_ROW] == [LONE_ROW];
    assert ReadArray("name", JoinNor, [el]) == Some([LONE_ROW]);
    assert Read("name", LONE_NOR) == Some([LONE_ROW]);
    var ms := [Member("name", LONE_NOR)];
    assert ms[..0] == [] && ReadAll([]) == Some([]) && [] + [LONE_ROW] == [LONE_ROW];
  }

  lemma OneJudged(m: Member, v: bool, row: Row, fm: FieldSpecMap, cmp: Compare)
    requires DenoteObject(m.key, m.value, RowBackend(row, fm, cmp)) == Ok(v)
    ensures Judged(Parsed(Object([m])), row, fm, cmp) == Ok(v)
  {
    DenotedJudged([m], [v], row, fm, cmp);
    assert [v][0] == v;
  }

  lemma LoneNorJudged(row: Row, fm: FieldSpecMap, cmp: Compare)
    requires CoveredBy(row, fm, "name", [LONE_ROW])
    ensures Judged(Parsed(Object([Member("name", LONE_NOR)])), row, fm, cmp)
         == Ok(!RowHolds(LONE_ROW, TestOf(row, fm, cmp, "name")))
  {
    var m, b, test := Member("name", LONE_NOR), RowBackend(row, fm, cmp), TestOf(row, fm, cmp, "name");
    LoneNorShown();
    MatchTextual(row, fm, cmp, "name");
    MatchTests(row, fm, cmp, "name", [LONE_ROW]);
    LowerSpells("$nor", "$not");
    PanelTellsTruth("name", LONE_NOR, b, test);
    RowsSayJoined("name", [LONE_ROW], test);
    var v := DenoteObject("name", LONE_NOR, b).value;
    assert v == !RowHolds(LONE_ROW, test);
    OneJudged(m, v, row, fm, cmp);
  }

  lemma LoneRowJudged(row: Row, fm: FieldSpecMap, cmp: Compare)
    requires CoveredBy(row, fm, "name", [LONE_ROW])
    ensures Judged(Apply([LONE_ROW]), row, fm, cmp) == Ok(RowHolds(LONE_ROW, TestOf(row, fm, cmp, "name")))
  {
    LowerOps();
    OneField([LONE_ROW], "name");
    var g := Group("name", LastJoin([LONE_ROW]), ItemsFor([LONE_ROW]));
    assert Admit(fm, "name", [LONE_ROW][0].op).Ok?;
    assert Covered(row, fm, g);
    RowsJudged([LONE_ROW], row, fm, cmp);
    RowsSayJoined("name", [LONE_ROW], TestOf(row, fm, cmp, "name"));
    assert Truths([g], row, fm, cmp) == [FieldHolds(g, row, fm, cmp)];
    assert AndAll([FieldHolds(g, row, fm, cmp)]) == FieldHolds(g, row, fm, cmp) by {
      assert [FieldHolds(g, row, fm, cmp)][0] == FieldHolds(g, row, fm, cmp);
    }
  }

  /** {"name":{"$nor":[{"$eq":"a"}]}} is shown as the condition it denies, and applying the panel as it
      stands then keeps exactly the rows the filter left out. */
  lemma LoneNorIsMisread(row: Row, fm: FieldSpecMap, cmp: Compare)
    requires CoveredBy(row, fm, "name", [LONE_ROW])
    ensures var f := Parsed(Object([Member("name", LONE_NOR)]));
            && Sync(f) == Editable([LONE_ROW])
            && Judged(f, row, fm, cmp).Ok? && Judged(Apply(Sync(f).rows), row, fm, cmp).Ok?
            && Judged(f, row, fm, cmp).value != Judged(Apply(Sync(f).rows), row, fm, cmp).value
  {
    LoneNorShown();
    LoneNorJudged(row, fm, cmp);
    LoneRowJudged(row, fm, cmp);
  }

  /** Two negations, one written in another case: the panel shows the one written "$not" twice, and nothing
      of the other, which the list heeds as well. */
  lemma OtherCaseIsHidden(a: string, c: string)
    ensures var first, second := Object([Member("$eq", Text(a))]), Object([Member("$eq", Text(c))]);
            var ops := Object([Member("$NOT", first), Member("$not", second)]);
            var shown := BuilderRow("name", "$eq", c, true, JoinAnd);
            Sync(Parsed(Object([Member("name", ops)]))) == Editable([shown, shown])
  {
    var first, second := Object([Member("$eq", Text(a))]), Object([Member("$eq", Text(c))]);
    var all := [Member("$NOT", first), Member("$not", second)];
    var shown := BuilderRow("name", "$eq", c, true, JoinAnd);
    LowerSpells("$NOT", "$not");
    LowerSpells("$not", "$not");
    assert Lower("$eq") == "$eq";
    assert NotOf(all) == Some(second) && ReadTerm("name", second, true) == Some(shown);
    assert all[..1] == [all[0]] && all[..1][..0] == [];
    assert ReadFlat("name", [], all) == Some([]) && [] + [shown] == [shown];
    assert ReadFlat("name", all[..1], all) == Some([shown]);
    assert ReadFlat("name", all, all) == Some([shown] + [shown]);
    var ms := [Member("name", Object(all))];
    assert ms[..0] == [] && ReadAll([]) == Some([]) && [] + ([shown] + [shown]) == [shown, shown];
  }
}
