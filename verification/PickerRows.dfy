/** The picker's rows and the orders they are shown in
    (internal/session/guestrow.go, internal/session/sortmode.go). */
module PickerRows {
  import opened Numerals
  import opened StableSort

  datatype Target = Guest(id: nat) | Node(id: nat)

  /** One line of the picker. A node has the instance's name in both name columns, "node" as its id
      and -1 as its number, and counts as running. */
  datatype Row = Row(target: Target, name: string, host: string, id: string, number: int,
                     running: bool, fields: seq<string>, score: int)
  {
    /** Identifies the row across a re-sort. */
    function Key(): string {
      (if target.Node? then "n:" else "g:") + Decimal(target.id)
    }
  }

  lemma KeyIdentifies(a: Row, b: Row)
    ensures a.Key() == b.Key() <==> a.target == b.target
  {
    if a.Key() == b.Key() {
      assert a.Key()[0] == b.Key()[0];
      assert Decimal(a.target.id) == a.Key()[2..] == b.Key()[2..] == Decimal(b.target.id);
      ValueOfDecimal(a.target.id);
      ValueOfDecimal(b.target.id);
    }
  }

  // ----- Text order -----

  predicate TextLess(a: string, b: string) {
    b != [] && (a == [] || a[0] < b[0] || (a[0] == b[0] && TextLess(a[1..], b[1..])))
  }

  lemma {:induction false} TextTotal(a: string, b: string)
    ensures TextLess(a, b) || TextLess(b, a) || a == b
    ensures !(TextLess(a, b) && TextLess(b, a))
    ensures a == b ==> !TextLess(a, b)
  {
    if a != [] && b != [] {
      TextTotal(a[1..], b[1..]);
      if a[0] == b[0] && a[1..] == b[1..] {
        assert a == [a[0]] + a[1..] == b;
      }
    }
  }

  lemma {:induction false} TextTransitive(a: string, b: string, c: string)
    ensures TextLess(a, b) && TextLess(b, c) ==> TextLess(a, c)
  {
    if a != [] && b != [] && c != [] {
      TextTransitive(a[1..], b[1..], c[1..]);
    }
  }

  // ----- Sort modes -----

  datatype Mode = Unset | ByName | ByID | ByStatus | ByHost

  /** The order Tab walks the columns in. The opening state is not part of it. */
  const CYCLE: seq<Mode> := [ByID, ByName, ByStatus, ByHost]

  function CycleIndex(m: Mode): (i: int)
    ensures -1 <= i < 4 && (if i < 0 then m !in CYCLE else CYCLE[i] == m)
  {
    match m
    case ByID => 0
    case ByName => 1
    case ByStatus => 2
    case ByHost => 3
    case Unset => -1
  }

  function Next(m: Mode): (n: Mode)
    ensures n != Unset
  {
    CYCLE[(CycleIndex(m) + 1) % 4]
  }

  function Prev(m: Mode): (p: Mode)
    ensures p != Unset
  {
    if m == Unset then CYCLE[3] else CYCLE[(CycleIndex(m) + 3) % 4]
  }

  lemma CycleTable()
    ensures Next(Unset) == ByID && Next(ByID) == ByName && Next(ByName) == ByStatus
    ensures Next(ByStatus) == ByHost && Next(ByHost) == ByID
    ensures Prev(Unset) == ByHost && Prev(ByID) == ByHost && Prev(ByHost) == ByStatus
    ensures Prev(ByStatus) == ByName && Prev(ByName) == ByID
  {
  }

  /** Shift+Tab undoes Tab everywhere on the cycle, four Tabs come back, and from the opening state four
      Tabs reach every column. */
  lemma CycleLaws(m: Mode)
    ensures m != Unset <==> Prev(Next(m)) == m
    ensures m != Unset <==> Next(Prev(m)) == m
    ensures m != Unset <==> Next(Next(Next(Next(m)))) == m
    ensures var one := Next(Unset); var two := Next(one); var three := Next(two); var four := Next(three);
            m == Unset || m == one || m == two || m == three || m == four
  {
    CycleTable();
  }

  // ----- The comparisons -----

  function StatusRank(r: Row): nat {
    if r.running then 0 else 1
  }

  predicate LessByNameThenID(a: Row, b: Row) {
    if a.name != b.name then TextLess(a.name, b.name)
    else if a.number != b.number then a.number < b.number
    else if a.id != b.id then TextLess(a.id, b.id)
    else TextLess(a.Key(), b.Key())
  }

  predicate LessBy(mode: Mode, a: Row, b: Row) {
    match mode
    case ByID =>
      if a.number != b.number then a.number < b.number
      else if a.id != b.id then TextLess(a.id, b.id)
      else LessByNameThenID(a, b)
    case ByStatus =>
      if StatusRank(a) != StatusRank(b) then StatusRank(a) < StatusRank(b) else LessByNameThenID(a, b)
    case ByHost =>
      if a.host != b.host then TextLess(a.host, b.host) else LessByNameThenID(a, b)
    case Unset => LessByNameThenID(a, b)
    case ByName => LessByNameThenID(a, b)
  }

  lemma NameThenIDOrders(a: Row, b: Row, c: Row)
    ensures !(LessByNameThenID(a, b) && LessByNameThenID(b, a))
    ensures !LessByNameThenID(a, b) && !LessByNameThenID(b, a) <==> SameByName(a, b)
    ensures LessByNameThenID(a, b) && LessByNameThenID(b, c) ==> LessByNameThenID(a, c)
  {
    TextTotal(a.name, b.name);
    TextTotal(a.id, b.id);
    TextTotal(a.Key(), b.Key());
    TextTotal(b.name, c.name);
    TextTransitive(a.name, b.name, c.name);
    TextTransitive(a.id, b.id, c.id);
    TextTransitive(a.Key(), b.Key(), c.Key());
    TextTotal(b.id, c.id);
    KeyIdentifies(a, b);
  }

  predicate SameByName(a: Row, b: Row) {
    a.name == b.name && a.number == b.number && a.id == b.id && a.target == b.target
  }

  /** Every mode orders the rows totally: of two rows with different keys one comes first. */
  lemma ModeOrders(mode: Mode, a: Row, b: Row, c: Row)
    ensures !(LessBy(mode, a, b) && LessBy(mode, b, a))
    ensures a.target != b.target ==> LessBy(mode, a, b) || LessBy(mode, b, a)
    ensures LessBy(mode, a, b) && LessBy(mode, b, c) ==> LessBy(mode, a, c)
    ensures !LessBy(mode, b, a) && !LessBy(mode, c, b) ==> !LessBy(mode, c, a)
  {
    NameThenIDOrders(a, b, c);
    NameThenIDOrders(c, b, a);
    NameThenIDOrders(b, c, a);
    NameThenIDOrders(a, c, b);
    ColumnOrders(a.host, b.host, c.host);
    ColumnOrders(a.id, b.id, c.id);
  }

  lemma ColumnOrders(a: string, b: string, c: string)
    ensures !(TextLess(a, b) && TextLess(b, a))
    ensures a != b ==> TextLess(a, b) || TextLess(b, a)
    ensures b != c ==> TextLess(b, c) || TextLess(c, b)
    ensures TextLess(a, b) && TextLess(b, c) ==> TextLess(a, c)
    ensures TextLess(c, b) && TextLess(b, a) ==> TextLess(c, a)
    ensures TextLess(c, a) ==> a != c && !TextLess(a, c)
    ensures TextLess(b, a) ==> !TextLess(a, b)
    ensures TextLess(b, c) ==> !TextLess(c, b)
  {
    TextTotal(a, b);
    TextTotal(b, c);
    TextTotal(a, c);
    TextTransitive(a, b, c);
    TextTransitive(c, b, a);
  }

  function Column(mode: Mode): (Row, Row) -> bool {
    (a, b) => LessBy(mode, a, b)
  }

  const BEST_FIRST: (Row, Row) -> bool := (a: Row, b: Row) => a.score > b.score

  lemma ColumnCompares(mode: Mode)
    ensures Comparison(Column(mode))
  {
    forall a, b, c
      ensures !(LessBy(mode, a, b) && LessBy(mode, b, a))
      ensures !LessBy(mode, b, a) && !LessBy(mode, c, b) ==> !LessBy(mode, c, a)
    {
      ModeOrders(mode, a, b, c);
    }
  }

  // ----- Uniqueness -----

  /** Rows with the same key are the same row. */
  predicate KeysIdentify(s: seq<Row>) {
    forall i, j | 0 <= i < |s| && 0 <= j < |s| :: s[i].target == s[j].target ==> s[i] == s[j]
  }

  lemma LastsAgree(mode: Mode, s: seq<Row>, t: seq<Row>)
    requires Ordered(Column(mode), s) && Ordered(Column(mode), t) && KeysIdentify(s)
    requires multiset(s) == multiset(t) && s != [] && t != []
    ensures s[|s| - 1] == t[|t| - 1]
  {
    var a, b := s[|s| - 1], t[|t| - 1];
    assert a in multiset(t) && b in multiset(s);
    var i :| 0 <= i < |t| && t[i] == a;
    var j :| 0 <= j < |s| && s[j] == b;
    ModeOrders(mode, a, b, a);
    assert i < |t| - 1 ==> !LessBy(mode, b, a);
    assert j < |s| - 1 ==> !LessBy(mode, a, b);
  }

  lemma WithoutLast(s: seq<Row>)
    requires s != []
    ensures multiset(s[..|s| - 1]) == multiset(s) - multiset{s[|s| - 1]}
    ensures KeysIdentify(s) ==> KeysIdentify(s[..|s| - 1])
  {
    assert s == s[..|s| - 1] + [s[|s| - 1]];
  }

  /** Two sorted lists of the same rows are the same list: the order depends on nothing but the rows. */
  lemma {:induction false} OneOrder(mode: Mode, s: seq<Row>, t: seq<Row>)
    requires Ordered(Column(mode), s) && Ordered(Column(mode), t) && KeysIdentify(s)
    requires multiset(s) == multiset(t)
    ensures s == t
    decreases |s|
  {
    assert |s| == |multiset(s)| == |multiset(t)| == |t|;
    if s != [] {
      var n := |s| - 1;
      LastsAgree(mode, s, t);
      WithoutLast(s);
      WithoutLast(t);
      OneOrder(mode, s[..n], t[..n]);
    }
  }

  lemma SameRowsIdentify(s: seq<Row>, t: seq<Row>)
    requires KeysIdentify(s) && multiset(s) == multiset(t)
    ensures KeysIdentify(t)
  {
    forall i, j | 0 <= i < |t| && 0 <= j < |t| && t[i].target == t[j].target
      ensures t[i] == t[j]
    {
      assert t[i] in multiset(s) && t[j] in multiset(s);
    }
  }

  /** Sorting any rearrangement of the rows gives the same list, and sorting a sorted list changes nothing. */
  lemma SortForgetsHistory(mode: Mode, s: seq<Row>, t: seq<Row>)
    requires KeysIdentify(s) && multiset(s) == multiset(t)
    ensures Sorted(Column(mode), s) == Sorted(Column(mode), t)
    ensures Ordered(Column(mode), s) ==> Sorted(Column(mode), t) == s
  {
    ColumnCompares(mode);
    SortedKeeps(Column(mode), s);
    SortedKeeps(Column(mode), t);
    SortedOrders(Column(mode), s);
    SortedOrders(Column(mode), t);
    SameRowsIdentify(s, Sorted(Column(mode), s));
    OneOrder(mode, Sorted(Column(mode), s), Sorted(Column(mode), t));
    if Ordered(Column(mode), s) {
      OneOrder(mode, s, Sorted(Column(mode), t));
    }
  }

  // ----- Building the rows -----

  datatype GuestInfo = GuestInfo(id: nat, kind: string, number: nat, name: string, host: string, running: bool)

  datatype NodeInfo = NodeInfo(id: nat, name: string)

  function GuestRow(g: GuestInfo): Row {
    var id := g.kind + Decimal(g.number);
    Row(Guest(g.id), g.name, g.host, id, g.number, g.running, [g.name, id, g.host], 0)
  }

  function NodeRow(n: NodeInfo): Row {
    Row(Node(n.id), n.name, n.name, "node", -1, true, [n.name, "node", n.name], 0)
  }

  function RowsOf(guests: seq<GuestInfo>, nodes: seq<NodeInfo>): (r: seq<Row>)
    ensures |r| == |guests| + |nodes|
  {
    seq(|guests|, i requires 0 <= i < |guests| => GuestRow(guests[i]))
      + seq(|nodes|, i requires 0 <= i < |nodes| => NodeRow(nodes[i]))
  }

  /** A row for every guest and every node, sorted by name. */
  method NewPickerRows(guests: seq<GuestInfo>, nodes: seq<NodeInfo>) returns (rows: array<Row>)
    ensures fresh(rows) && rows[..] == Sorted(Column(ByName), RowsOf(guests, nodes))
  {
    var list: seq<Row> := [];
    for i := 0 to |guests|
      invariant list == RowsOf(guests[..i], [])
    {
      list := list + [GuestRow(guests[i])];
    }
    for i := 0 to |nodes|
      invariant list == RowsOf(guests, nodes[..i])
    {
      list := list + [NodeRow(nodes[i])];
    }
    assert nodes[..|nodes|] == nodes;
    rows := new Row[|list|](i requires 0 <= i < |list| => list[i]);
    assert rows[..] == list;
    Sort(rows, Column(ByName));
  }

  /** With ids that identify guests and instances, the keys of the rows identify the rows. */
  lemma RowsIdentify(guests: seq<GuestInfo>, nodes: seq<NodeInfo>)
    requires forall i, j | 0 <= i < |guests| && 0 <= j < |guests| :: guests[i].id == guests[j].id ==> guests[i] == guests[j]
    requires forall i, j | 0 <= i < |nodes| && 0 <= j < |nodes| :: nodes[i].id == nodes[j].id ==> nodes[i] == nodes[j]
    ensures var rows := Sorted(Column(ByName), RowsOf(guests, nodes));
            KeysIdentify(rows) && Ordered(Column(Unset), rows) && multiset(rows) == multiset(RowsOf(guests, nodes))
  {
    ColumnCompares(ByName);
    SortedOrders(Column(ByName), RowsOf(guests, nodes));
    SortedKeeps(Column(ByName), RowsOf(guests, nodes));
    SameRowsIdentify(RowsOf(guests, nodes), Sorted(Column(ByName), RowsOf(guests, nodes)));
  }
}
