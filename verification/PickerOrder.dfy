/** The order the picker's rows stand in, read off the list: what may stand before what in each column. */
module PickerOrder {
  import opened Numerals
  import opened StableSort
  import opened PickerRows

  /** `a` comes before `b` in a dictionary. */
  predicate Precedes(a: string, b: string) {
    exists k | 0 <= k <= |a| && k < |b| :: a[..k] == b[..k] && (k == |a| || a[k] < b[k])
  }

  lemma {:induction false} TextLessReads(a: string, b: string)
    ensures TextLess(a, b) <==> Precedes(a, b)
  {
    if a == [] || b == [] || a[0] < b[0] {
      assert b != [] ==> a[..0] == b[..0];
    } else {
      TextLessReads(a[1..], b[1..]);
      if a[0] == b[0] && Precedes(a[1..], b[1..]) {
        LaterPrecedes(a, b);
      }
      if Precedes(a, b) {
        var k :| 0 <= k <= |a| && k < |b| && a[..k] == b[..k] && (k == |a| || a[k] < b[k]);
        EarlierPrecedes(a, b, k);
      }
    }
  }

  lemma LaterPrecedes(a: string, b: string)
    requires a != [] && b != [] && a[0] == b[0] && Precedes(a[1..], b[1..])
    ensures Precedes(a, b)
  {
    var p, q := a[1..], b[1..];
    var k :| 0 <= k <= |p| && k < |q| && p[..k] == q[..k] && (k == |p| || p[k] < q[k]);
    assert a[..k + 1] == [a[0]] + p[..k] && b[..k + 1] == [b[0]] + q[..k];
    assert a[..k + 1] == b[..k + 1];
  }

  lemma EarlierPrecedes(a: string, b: string, k: nat)
    requires a != [] && b != [] && !(a[0] < b[0])
    requires k <= |a| && k < |b| && a[..k] == b[..k] && (k == |a| || a[k] < b[k])
    ensures a[0] == b[0] && Precedes(a[1..], b[1..])
  {
    assert k > 0;
    assert a[0] == a[..k][0] == b[..k][0] == b[0];
    assert a[1..][..k - 1] == a[..k][1..] == b[..k][1..] == b[1..][..k - 1];
  }

  /** `b` may stand behind `a` by name, then number, then id, then key. */
  predicate NameFollows(a: Row, b: Row) {
    && !Precedes(b.name, a.name)
    && (a.name == b.name ==>
          && a.number <= b.number
          && (a.number == b.number ==> !Precedes(b.id, a.id) && (a.id == b.id ==> !Precedes(b.Key(), a.Key()))))
  }

  /** The column decides first: numbers as numbers, running rows before stopped ones, hosts as text. */
  predicate Follows(mode: Mode, a: Row, b: Row) {
    match mode
    case ByID =>
      && a.number <= b.number
      && (a.number == b.number ==> !Precedes(b.id, a.id) && (a.id == b.id ==> NameFollows(a, b)))
    case ByStatus => (b.running ==> a.running) && (a.running == b.running ==> NameFollows(a, b))
    case ByHost => !Precedes(b.host, a.host) && (a.host == b.host ==> NameFollows(a, b))
    case ByName => NameFollows(a, b)
    case Unset => NameFollows(a, b)
  }

  lemma NameReads(a: Row, b: Row)
    ensures !LessByNameThenID(b, a) <==> NameFollows(a, b)
  {
    TextLessReads(b.name, a.name);
    TextLessReads(b.id, a.id);
    TextLessReads(b.Key(), a.Key());
    TextTotal(a.name, a.name);
    TextTotal(a.id, a.id);
  }

  lemma FollowsReads(mode: Mode, a: Row, b: Row)
    ensures !LessBy(mode, b, a) <==> Follows(mode, a, b)
  {
    NameReads(a, b);
    TextLessReads(b.id, a.id);
    TextLessReads(b.host, a.host);
    TextTotal(a.id, a.id);
    TextTotal(a.host, a.host);
  }

  /** Of two rows of a sorted list the later one follows the earlier: in the status column no running row
      stands behind a stopped one, and so on for numbers, hosts and names. */
  lemma RowsFollow(mode: Mode, rows: seq<Row>, i: nat, j: nat)
    requires i < j < |Sorted(Column(mode), rows)|
    ensures Follows(mode, Sorted(Column(mode), rows)[i], Sorted(Column(mode), rows)[j])
  {
    ColumnCompares(mode);
    SortedOrders(Column(mode), rows);
    FollowsReads(mode, Sorted(Column(mode), rows)[i], Sorted(Column(mode), rows)[j]);
  }

  /** Sorted by host, the rows of one host stand together, its node among its guests. */
  lemma HostsTogether(rows: seq<Row>, i: nat, j: nat, k: nat)
    requires i < j < k < |Sorted(Column(ByHost), rows)|
    requires Sorted(Column(ByHost), rows)[i].host == Sorted(Column(ByHost), rows)[k].host
    ensures Sorted(Column(ByHost), rows)[j].host == Sorted(Column(ByHost), rows)[i].host
  {
    var s := Sorted(Column(ByHost), rows);
    RowsFollow(ByHost, rows, i, j);
    RowsFollow(ByHost, rows, j, k);
    TextLessReads(s[j].host, s[i].host);
    TextLessReads(s[k].host, s[j].host);
    TextTotal(s[i].host, s[j].host);
  }

  /** A row for every guest and every node, in its columns and the texts it is searched by: a node's host
      is itself, it has the number -1 and the id "node", and counts as running. */
  lemma RowsShow(guests: seq<GuestInfo>, nodes: seq<NodeInfo>)
    ensures var rows := RowsOf(guests, nodes);
            && |rows| == |guests| + |nodes|
            && (forall k | 0 <= k < |guests| ::
                  var g, row := guests[k], rows[k];
                  && row.target == Guest(g.id) && row.name == g.name && row.host == g.host && row.running == g.running
                  && row.number == g.number && row.id == g.kind + Decimal(g.number)
                  && row.fields == [g.name, g.kind + Decimal(g.number), g.host])
            && (forall k | 0 <= k < |nodes| ::
                  var n, row := nodes[k], rows[|guests| + k];
                  && row.target == Node(n.id) && row.name == n.name == row.host && row.running
                  && row.number == -1 && row.id == "node" && row.fields == [n.name, "node", n.name])
  {
  }
}
