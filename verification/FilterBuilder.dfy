/** The web console's filter builder: condition rows compiled into a filter, and a filter read back into
    rows (frontend/assets/app.js). An object is its members in insertion order. */
module FilterBuilder {
  import opened Wrappers
  import opened FilterJson
  import opened FilterSql

  datatype Join = JoinAnd | JoinOr | JoinNor

  datatype BuilderRow = BuilderRow(field: string, op: string, value: string, negated: bool, join: Join)

  datatype Item = Item(op: string, value: string, negated: bool)

  /** The conditions of one field and how they are combined. */
  datatype Group = Group(field: string, join: Join, items: seq<Item>)

  /** What the panel shows: rows to edit, or a notice that the filter cannot be edited here. */
  datatype Panel = Editable(rows: seq<BuilderRow>) | Advanced

  // ----- Compiling -----

  predicate Filled(r: BuilderRow) {
    r.field != "" && r.value != ""
  }

  /** The group of the field, or the number of groups. */
  function PlaceOf(gs: seq<Group>, field: string): (i: nat)
    ensures i <= |gs|
    ensures i < |gs| ==> gs[i].field == field
    ensures forall k | 0 <= k < i :: gs[k].field != field
  {
    if gs == [] || gs[0].field == field then 0 else 1 + PlaceOf(gs[1..], field)
  }

  /** A further row of a field sets the join for all of them: the last one wins. */
  function Added(gs: seq<Group>, r: BuilderRow): seq<Group> {
    var i, item := PlaceOf(gs, r.field), Item(r.op, r.value, r.negated);
    if i == |gs| then gs + [Group(r.field, JoinAnd, [item])]
    else gs[i := Group(r.field, if gs[i].items != [] then r.join else gs[i].join, gs[i].items + [item])]
  }

  function Grouped(rows: seq<BuilderRow>): seq<Group> {
    if rows == [] then []
    else
      var n := |rows| - 1;
      if Filled(rows[n]) then Added(Grouped(rows[..n]), rows[n]) else Grouped(rows[..n])
  }

  function Comparison(it: Item): Json {
    Object([Member(it.op, Text(it.value))])
  }

  function Term(it: Item): Json {
    if it.negated then Object([Member(OP_NOT, Comparison(it))]) else Comparison(it)
  }

  function Terms(items: seq<Item>): (ts: seq<Json>)
    ensures |ts| == |items|
  {
    seq(|items|, i requires 0 <= i < |items| => Term(items[i]))
  }

  function Flat(items: seq<Item>): (ms: seq<Member>)
    ensures |ms| == |items|
  {
    seq(|items|, i requires 0 <= i < |items| => Member(items[i].op, Text(items[i].value)))
  }

  predicate DistinctOps(items: seq<Item>) {
    forall i, j | 0 <= i < j < |items| :: items[i].op != items[j].op
  }

  predicate NoneNegated(items: seq<Item>) {
    forall i | 0 <= i < |items| :: !items[i].negated
  }

  function JoinKey(j: Join): string {
    match j
    case JoinAnd => OP_AND
    case JoinOr => OP_OR
    case JoinNor => OP_NOR
  }

  /** One condition is its own operator object; distinct plain ones that are ANDed share one; anything
      else is an array under the join. */
  function Compile(g: Group): Json {
    if |g.items| == 1 then Term(g.items[0])
    else if g.join == JoinAnd && NoneNegated(g.items) && DistinctOps(g.items) then Object(Flat(g.items))
    else Object([Member(JoinKey(g.join), Array(Terms(g.items)))])
  }

  function Compiled(gs: seq<Group>): (ms: seq<Member>)
    ensures |ms| == |gs|
  {
    seq(|gs|, i requires 0 <= i < |gs| => Member(gs[i].field, Compile(gs[i])))
  }

  /** The filter the rows amount to; none when no row is filled in. */
  function Apply(rows: seq<BuilderRow>): RawFilter {
    var gs := Grouped(rows);
    if gs == [] then NoFilter else Parsed(Object(Compiled(gs)))
  }

  method ApplyFilterBuilder(rows: seq<BuilderRow>) returns (f: RawFilter)
    ensures f == Apply(rows)
  {
    var groups: seq<Group> := [];
    for i := 0 to |rows|
      invariant groups == Grouped(rows[..i])
    {
      var r := rows[i];
      assert rows[..i + 1][..i] == rows[..i];
      if r.field == "" || r.value == "" {
        continue;
      }
      var at := PlaceOf(groups, r.field);
      var g := if at < |groups| then groups[at] else Group(r.field, JoinAnd, []);
      if |g.items| >= 1 {
        g := g.(join := r.join);
      }
      g := g.(items := g.items + [Item(r.op, r.value, r.negated)]);
      assert [] + [Item(r.op, r.value, r.negated)] == [Item(r.op, r.value, r.negated)];
      groups := if at < |groups| then groups[at := g] else groups + [g];
    }
    assert rows[..|rows|] == rows;
    var obj: seq<Member> := [];
    for i := 0 to |groups|
      invariant obj == Compiled(groups[..i])
    {
      obj := obj + [Member(groups[i].field, Compile(groups[i]))];
    }
    assert groups[..|groups|] == groups;
    f := if |obj| == 0 then NoFilter else Parsed(Object(obj));
  }

  // ----- Reading back -----

  /** A single comparison of a known operator with a scalar. */
  function ReadTerm(field: string, expr: Json, negated: bool): Option<BuilderRow> {
    if !expr.Object? || |expr.members| != 1 then None
    else
      var m := expr.members[0];
      if Lower(m.key) !in COMPARISONS || ScalarString(m.value).Err? then None
      else Some(BuilderRow(field, Lower(m.key), ScalarString(m.value).value, negated, JoinAnd))
  }

  /** The property written exactly "$not"; None when there is none. */
  function NotOf(ms: seq<Member>): Option<Json> {
    if ms == [] then None
    else
      var last := ms[|ms| - 1];
      if last.key == OP_NOT then Some(last.value) else NotOf(ms[..|ms| - 1])
  }

  function ReadNot(field: string, ms: seq<Member>): Option<BuilderRow> {
    if NotOf(ms).None? then None else ReadTerm(field, NotOf(ms).value, true)
  }

  /** An element of a logical array. */
  function ReadElement(field: string, el: Json): Option<BuilderRow> {
    if !el.Object? then None
    else if |el.members| == 1 && Lower(el.members[0].key) == OP_NOT then ReadNot(field, el.members)
    else ReadTerm(field, el, false)
  }

  /** A member of a flat operator object. */
  function ReadMember(field: string, m: Member, all: seq<Member>): Option<BuilderRow> {
    if Lower(m.key) == OP_NOT then ReadNot(field, all) else ReadTerm(field, Object([m]), false)
  }

  function Append(rows: Option<seq<BuilderRow>>, row: Option<BuilderRow>): Option<seq<BuilderRow>> {
    if rows.Some? && row.Some? then Some(rows.value + [row.value]) else None
  }

  function WithJoin(row: Option<BuilderRow>, join: Join): Option<BuilderRow> {
    if row.Some? then Some(row.value.(join := join)) else None
  }

  function ReadArray(field: string, join: Join, items: seq<Json>): Option<seq<BuilderRow>> {
    if items == [] then Some([])
    else
      var n := |items| - 1;
      Append(ReadArray(field, join, items[..n]), WithJoin(ReadElement(field, items[n]), if n > 0 then join else JoinAnd))
  }

  function ReadFlat(field: string, ms: seq<Member>, all: seq<Member>): Option<seq<BuilderRow>> {
    if ms == [] then Some([])
    else
      var n := |ms| - 1;
      Append(ReadFlat(field, ms[..n], all), ReadMember(field, ms[n], all))
  }

  function JoinOf(key: string): Option<Join> {
    if Lower(key) == OP_AND then Some(JoinAnd)
    else if Lower(key) == OP_OR then Some(JoinOr)
    else if Lower(key) == OP_NOR then Some(JoinNor)
    else None
  }

  /** One field's operator object as rows, or None when it is not one the builder can show. */
  function Read(field: string, ops: Json): Option<seq<BuilderRow>> {
    if !ops.Object? || ops.members == [] then None
    else
      var ms := ops.members;
      if |ms| == 1 && JoinOf(ms[0].key).Some? then
        if !ms[0].value.Array? || ms[0].value.items == [] then None
        else ReadArray(field, JoinOf(ms[0].key).value, ms[0].value.items)
      else ReadFlat(field, ms, ms)
  }

  function Joined(a: Option<seq<BuilderRow>>, b: Option<seq<BuilderRow>>): Option<seq<BuilderRow>> {
    if a.Some? && b.Some? then Some(a.value + b.value) else None
  }

  function ReadAll(ms: seq<Member>): Option<seq<BuilderRow>> {
    if ms == [] then Some([])
    else
      var n := |ms| - 1;
      Joined(ReadAll(ms[..n]), Read(ms[n].key, ms[n].value))
  }

  /** The panel for the active filter. */
  function Sync(f: RawFilter): Panel {
    match f
    case NoFilter => Editable([])
    case Malformed => Advanced
    case Parsed(root) =>
      if !root.Object? || ReadAll(root.members).None? then Advanced else Editable(ReadAll(root.members).value)
  }

  /** The loop over a logical array. */
  method ParseArray(field: string, join: Join, arr: seq<Json>) returns (rows: Option<seq<BuilderRow>>)
    ensures rows == ReadArray(field, join, arr)
  {
    var out: seq<BuilderRow> := [];
    for i := 0 to |arr|
      invariant ReadArray(field, join, arr[..i]) == Some(out)
    {
      assert arr[..i + 1][..i] == arr[..i];
      var row := ReadElement(field, arr[i]);
      if row.None? {
        ReadArrayFails(field, join, arr, i + 1);
        return None;
      }
      out := out + [if i > 0 then row.value.(join := join) else row.value];
    }
    assert arr[..|arr|] == arr;
    return Some(out);
  }

  /** The loop over a flat operator object. */
  method ParseFlat(field: string, ms: seq<Member>) returns (rows: Option<seq<BuilderRow>>)
    ensures rows == ReadFlat(field, ms, ms)
  {
    var out: seq<BuilderRow> := [];
    for i := 0 to |ms|
      invariant ReadFlat(field, ms[..i], ms) == Some(out)
    {
      assert ms[..i + 1][..i] == ms[..i];
      var row := ReadMember(field, ms[i], ms);
      if row.None? {
        ReadFlatFails(field, ms, ms, i + 1);
        return None;
      }
      out := out + [row.value];
    }
    assert ms[..|ms|] == ms;
    return Some(out);
  }

  method ParseFieldConditions(field: string, ops: Json) returns (rows: Option<seq<BuilderRow>>)
    ensures rows == Read(field, ops)
  {
    if !ops.Object? || |ops.members| == 0 {
      return None;
    }
    var ms := ops.members;
    if |ms| == 1 && JoinOf(ms[0].key).Some? {
      if !ms[0].value.Array? || |ms[0].value.items| == 0 {
        return None;
      }
      rows := ParseArray(field, JoinOf(ms[0].key).value, ms[0].value.items);
    } else {
      rows := ParseFlat(field, ms);
    }
  }

  lemma {:induction false} ReadArrayFails(field: string, join: Join, items: seq<Json>, n: nat)
    requires n <= |items| && ReadArray(field, join, items[..n]) == None
    ensures ReadArray(field, join, items) == None
    decreases |items| - n
  {
    if n < |items| {
      assert items[..n + 1][..n] == items[..n];
      ReadArrayFails(field, join, items, n + 1);
    } else {
      assert items[..n] == items;
    }
  }

  lemma {:induction false} ReadFlatFails(field: string, ms: seq<Member>, all: seq<Member>, n: nat)
    requires n <= |ms| && ReadFlat(field, ms[..n], all) == None
    ensures ReadFlat(field, ms, all) == None
    decreases |ms| - n
  {
    if n < |ms| {
      assert ms[..n + 1][..n] == ms[..n];
      ReadFlatFails(field, ms, all, n + 1);
    } else {
      assert ms[..n] == ms;
    }
  }

  lemma {:induction false} ReadAllFails(ms: seq<Member>, n: nat)
    requires n <= |ms| && ReadAll(ms[..n]) == None
    ensures ReadAll(ms) == None
    decreases |ms| - n
  {
    if n < |ms| {
      assert ms[..n + 1][..n] == ms[..n];
      ReadAllFails(ms, n + 1);
    } else {
      assert ms[..n] == ms;
    }
  }

  method SyncFilterBuilder(f: RawFilter) returns (panel: Panel)
    ensures panel == Sync(f)
  {
    if f.NoFilter? {
      return Editable([]);
    }
    if f.Malformed? || !f.root.Object? {
      return Advanced;
    }
    var ms := f.root.members;
    var rows: seq<BuilderRow> := [];
    for i := 0 to |ms|
      invariant ReadAll(ms[..i]) == Some(rows)
    {
      assert ms[..i + 1][..i] == ms[..i];
      var parsed := ParseFieldConditions(ms[i].key, ms[i].value);
      if parsed.None? {
        ReadAllFails(ms, i + 1);
        return Advanced;
      }
      rows := rows + parsed.value;
    }
    assert ms[..|ms|] == ms;
    return Editable(rows);
  }
}
