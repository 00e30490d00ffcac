/** Bringing stored names into the form new writes use (internal/db/foldnames.go). */
module FoldNames {
  import opened Wrappers

  datatype Row = Row(id: int, name: string)

  /** A table that cannot be read is skipped. */
  type Tables = seq<Option<seq<Row>>>

  datatype Failure = Collisions(tables: set<nat>) | Constraint(table: nat)

  ghost predicate Idempotent(fold: string -> string) {
    forall s :: fold(fold(s)) == fold(s)
  }

  /** What the primary key and UNIQUE(name) keep. */
  predicate Unique(t: seq<Row>) {
    forall i, j | 0 <= i < j < |t| :: t[i].id != t[j].id && t[i].name != t[j].name
  }

  predicate AllUnique(ts: Tables) {
    forall i | 0 <= i < |ts| && ts[i].Some? :: Unique(ts[i].value)
  }

  /** Two rows that fold to the same name. */
  predicate Collides(fold: string -> string, t: seq<Row>) {
    exists i, j | 0 <= i < j < |t| :: fold(t[i].name) == fold(t[j].name)
  }

  predicate AnyCollides(fold: string -> string, ts: Tables) {
    exists i | 0 <= i < |ts| :: ts[i].Some? && Collides(fold, ts[i].value)
  }

  // ----- Updates -----

  function Renamed(t: seq<Row>, id: int, name: string): (r: seq<Row>)
    ensures |r| == |t|
  {
    seq(|t|, i requires 0 <= i < |t| => if t[i].id == id then Row(id, name) else t[i])
  }

  /** UPDATE ... SET name WHERE id, under UNIQUE(name). */
  function Update(t: seq<Row>, id: int, name: string): Option<seq<Row>> {
    if exists i | 0 <= i < |t| :: t[i].id != id && t[i].name == name then None else Some(Renamed(t, id, name))
  }

  /** The first `k` rows folded. */
  function FoldedTo(fold: string -> string, t: seq<Row>, k: nat): (r: seq<Row>)
    ensures |r| == |t|
  {
    seq(|t|, i requires 0 <= i < |t| => if i < k then Row(t[i].id, fold(t[i].name)) else t[i])
  }

  function Folded(fold: string -> string, t: seq<Row>): seq<Row> {
    FoldedTo(fold, t, |t|)
  }

  /** Row by row, writing only the names that change; None when the constraint refuses a write. */
  function UpdateFrom(fold: string -> string, t: seq<Row>, now: seq<Row>, k: nat): Option<seq<Row>>
    requires k <= |t|
    decreases |t| - k
  {
    if k == |t| then Some(now)
    else if fold(t[k].name) == t[k].name then UpdateFrom(fold, t, now, k + 1)
    else match Update(now, t[k].id, fold(t[k].name))
      case None => None
      case Some(next) => UpdateFrom(fold, t, next, k + 1)
  }

  /** A folded name meets no other name: not one folded before it, nor one yet to be folded. */
  lemma OneUpdate(fold: string -> string, t: seq<Row>, k: nat)
    requires Idempotent(fold) && Unique(t) && !Collides(fold, t) && k < |t|
    ensures Update(FoldedTo(fold, t, k), t[k].id, fold(t[k].name)) == Some(FoldedTo(fold, t, k + 1))
    ensures fold(t[k].name) == t[k].name ==> FoldedTo(fold, t, k) == FoldedTo(fold, t, k + 1)
    ensures Unique(FoldedTo(fold, t, k + 1))
  {
    var now := FoldedTo(fold, t, k);
    forall j | 0 <= j < |t| && now[j].id != t[k].id
      ensures now[j].name != fold(t[k].name)
    {
      assert j != k;
      assert fold(t[j].name) != fold(t[k].name);
    }
    var next := FoldedTo(fold, t, k + 1);
    forall i | 0 <= i < |t|
      ensures Renamed(now, t[k].id, fold(t[k].name))[i] == next[i]
    {
      assert i != k ==> t[i].id != t[k].id;
    }
    assert Renamed(now, t[k].id, fold(t[k].name)) == next;
    forall i, j | 0 <= i < j < |t|
      ensures next[i].id != next[j].id && next[i].name != next[j].name
    {
      assert fold(t[i].name) != fold(t[j].name);
      assert fold(fold(t[i].name)) == fold(t[i].name) && fold(fold(t[j].name)) == fold(t[j].name);
    }
  }

  lemma {:induction false} UpdatesAll(fold: string -> string, t: seq<Row>, k: nat)
    requires Idempotent(fold) && Unique(t) && !Collides(fold, t) && k <= |t|
    ensures UpdateFrom(fold, t, FoldedTo(fold, t, k), k) == Some(Folded(fold, t))
    decreases |t| - k
  {
    if k < |t| {
      OneUpdate(fold, t, k);
      UpdatesAll(fold, t, k + 1);
    }
  }

  /** Checking for collisions first is enough to keep the constraint quiet exactly when folding twice is
      folding once. */
  lemma CheckPredictsWrites(fold: string -> string)
    ensures (forall t: seq<Row> | Unique(t) && !Collides(fold, t) :: UpdateFrom(fold, t, t, 0).Some?)
       <==> Idempotent(fold)
  {
    if Idempotent(fold) {
      forall t: seq<Row> | Unique(t) && !Collides(fold, t)
        ensures UpdateFrom(fold, t, t, 0).Some?
      {
        assert FoldedTo(fold, t, 0) == t;
        UpdatesAll(fold, t, 0);
      }
    } else {
      var s :| fold(fold(s)) != fold(s);
      var t := [Row(1, s), Row(2, fold(s))];
      assert Unique(t) && !Collides(fold, t);
      assert t[1].id != t[0].id && t[1].name == fold(t[0].name);
      assert Update(t, 1, fold(s)) == None;
      assert UpdateFrom(fold, t, t, 0) == None;
    }
  }

  /** Folded rows keep their ids, hold folded names, and folding them again writes nothing. */
  lemma FoldedIsFixed(fold: string -> string, t: seq<Row>)
    requires Idempotent(fold)
    ensures var r := Folded(fold, t);
            && (forall i | 0 <= i < |t| :: r[i] == Row(t[i].id, fold(t[i].name)) && fold(r[i].name) == r[i].name)
            && Folded(fold, r) == r && Pending(fold, r) == []
            && (Unique(t) && !Collides(fold, t) ==> Unique(r) && !Collides(fold, r))
  {
    var r := Folded(fold, t);
    assert forall i | 0 <= i < |t| :: fold(fold(t[i].name)) == fold(t[i].name);
    NothingPending(fold, r);
  }

  /** The rows whose name changes, with the name to write. */
  function Pending(fold: string -> string, t: seq<Row>): seq<Row> {
    if t == [] then []
    else
      var last := t[|t| - 1];
      Pending(fold, t[..|t| - 1]) + (if fold(last.name) != last.name then [Row(last.id, fold(last.name))] else [])
  }

  lemma {:induction false} NothingPending(fold: string -> string, t: seq<Row>)
    requires forall i | 0 <= i < |t| :: fold(t[i].name) == t[i].name
    ensures Pending(fold, t) == []
  {
    if t != [] {
      NothingPending(fold, t[..|t| - 1]);
    }
  }

  // ----- The pass as the program has it -----

  function FoldedTables(fold: string -> string, ts: Tables): (r: Tables)
    ensures |r| == |ts|
  {
    seq(|ts|, i requires 0 <= i < |ts| => if ts[i].Some? then Some(Folded(fold, ts[i].value)) else None)
  }

  /** The names that fold to `folded`, in order. */
  function Spellings(fold: string -> string, t: seq<Row>, folded: string): seq<string> {
    if t == [] then []
    else
      var last := t[|t| - 1].name;
      Spellings(fold, t[..|t| - 1], folded) + (if fold(last) == folded then [last] else [])
  }

  ghost predicate Groups(fold: string -> string, t: seq<Row>, byFolded: map<string, seq<string>>) {
    forall f :: Spellings(fold, t, f) == if f in byFolded then byFolded[f] else []
  }

  /** Groups one table's names by what they fold to, and lists the rows to rewrite. */
  method Examine(fold: string -> string, t: seq<Row>) returns (byFolded: map<string, seq<string>>, todo: seq<Row>)
    ensures Groups(fold, t, byFolded) && todo == Pending(fold, t)
  {
    byFolded, todo := map[], [];
    for k := 0 to |t|
      invariant todo == Pending(fold, t[..k]) && Groups(fold, t[..k], byFolded)
    {
      GroupStep(fold, t, k, byFolded);
      PendingStep(fold, t, k);
      var folded := fold(t[k].name);
      byFolded := byFolded[folded := (if folded in byFolded then byFolded[folded] else []) + [t[k].name]];
      if folded != t[k].name {
        todo := todo + [Row(t[k].id, folded)];
      }
    }
    assert t[..|t|] == t;
  }

  lemma GroupStep(fold: string -> string, t: seq<Row>, k: nat, byFolded: map<string, seq<string>>)
    requires k < |t| && Groups(fold, t[..k], byFolded)
    ensures var f := fold(t[k].name);
            Groups(fold, t[..k + 1], byFolded[f := (if f in byFolded then byFolded[f] else []) + [t[k].name]])
  {
    assert t[..k + 1][..k] == t[..k];
    forall f
      ensures Spellings(fold, t[..k + 1], f)
           == Spellings(fold, t[..k], f) + (if fold(t[k].name) == f then [t[k].name] else [])
    {
    }
  }

  /** Names collide exactly when some group has two spellings. */
  lemma GroupsCollide(fold: string -> string, t: seq<Row>, byFolded: map<string, seq<string>>)
    requires Groups(fold, t, byFolded)
    ensures Collides(fold, t) <==> exists f | f in byFolded :: |byFolded[f]| >= 2
  {
    if Collides(fold, t) {
      var i, j :| 0 <= i < j < |t| && fold(t[i].name) == fold(t[j].name);
      var f := fold(t[i].name);
      TwoSpellings(fold, t, i, j);
      assert f in byFolded && |byFolded[f]| >= 2;
    } else {
      forall f | f in byFolded
        ensures |byFolded[f]| < 2
      {
        if |Spellings(fold, t, f)| >= 2 {
          SpelledTwice(fold, t, f);
        }
      }
    }
  }

  lemma {:induction false} OneSpelling(fold: string -> string, t: seq<Row>, i: nat)
    requires i < |t|
    ensures |Spellings(fold, t, fold(t[i].name))| >= 1
  {
    if i < |t| - 1 {
      OneSpelling(fold, t[..|t| - 1], i);
    }
  }

  lemma {:induction false} TwoSpellings(fold: string -> string, t: seq<Row>, i: nat, j: nat)
    requires i < j < |t| && fold(t[i].name) == fold(t[j].name)
    ensures |Spellings(fold, t, fold(t[i].name))| >= 2
  {
    if j < |t| - 1 {
      TwoSpellings(fold, t[..|t| - 1], i, j);
    } else {
      OneSpelling(fold, t[..|t| - 1], i);
    }
  }

  lemma {:induction false} SpelledOnce(fold: string -> string, t: seq<Row>, f: string) returns (i: nat)
    requires Spellings(fold, t, f) != []
    ensures i < |t| && fold(t[i].name) == f
  {
    i := |t| - 1;
    if fold(t[i].name) != f {
      i := SpelledOnce(fold, t[..|t| - 1], f);
    }
  }

  lemma {:induction false} SpelledTwice(fold: string -> string, t: seq<Row>, f: string)
    requires |Spellings(fold, t, f)| >= 2
    ensures Collides(fold, t)
  {
    var n := |t| - 1;
    if fold(t[n].name) == f {
      var i := SpelledOnce(fold, t[..n], f);
      assert fold(t[i].name) == fold(t[n].name);
    } else {
      SpelledTwice(fold, t[..n], f);
      var i, j :| 0 <= i < j < n && fold(t[..n][i].name) == fold(t[..n][j].name);
      assert t[i] == t[..n][i] && t[j] == t[..n][j];
    }
  }

  class Database {
    var tables: Tables

    constructor (tables: Tables)
      ensures this.tables == tables
    {
      this.tables := tables;
    }

    /** Writes one name; the constraint may refuse it. */
    method Exec(i: nat, p: Row) returns (ok: bool)
      requires i < |tables| && tables[i].Some?
      modifies this
      ensures match Update(old(tables[i].value), p.id, p.name)
              case None => !ok && tables == old(tables)
              case Some(t) => ok && tables == old(tables)[i := Some(t)]
    {
      var next := Update(tables[i].value, p.id, p.name);
      ok := next.Some?;
      if ok {
        tables := tables[i := next];
      }
    }

    /** The next write of a rewrite: the rows before `k` are folded, and then those up to the one written. */
    method WriteNext(fold: string -> string, i: nat, todo: seq<Row>, n: nat, ghost t: seq<Row>, ghost k: nat)
      returns (ok: bool, ghost next: nat)
      requires Idempotent(fold) && Unique(t) && !Collides(fold, t)
      requires todo == Pending(fold, t) && n < |todo| && k <= |t| && Pending(fold, t[..k]) == todo[..n]
      requires i < |tables| && tables[i] == Some(FoldedTo(fold, t, k))
      modifies this
      ensures ok && next <= |t| && Pending(fold, t[..next]) == todo[..n + 1]
      ensures tables == old(tables)[i := Some(FoldedTo(fold, t, next))]
    {
      next := SkipTo(fold, t, k, todo, n);
      OneUpdate(fold, t, next);
      PendingStep(fold, t, next);
      next := next + 1;
      ok := Exec(i, todo[n]);
    }

    /** Rewrites one table, row by row in the order they were read. */
    method Rewrite(fold: string -> string, i: nat, todo: seq<Row>) returns (ok: bool)
      requires Idempotent(fold) && i < |tables| && tables[i].Some?
      requires Unique(tables[i].value) && !Collides(fold, tables[i].value)
      requires todo == Pending(fold, tables[i].value)
      modifies this
      ensures ok && tables == old(tables)[i := Some(Folded(fold, old(tables[i].value)))]
    {
      ghost var before, t := tables, tables[i].value;
      ghost var k: nat := 0;
      assert FoldedTo(fold, t, 0) == t;
      for n := 0 to |todo|
        invariant k <= |t| && Pending(fold, t[..k]) == todo[..n]
        invariant |tables| == |before| && tables[i] == Some(FoldedTo(fold, t, k))
        invariant tables == before[i := tables[i]]
      {
        ok, k := WriteNext(fold, i, todo, n, t, k);
        if !ok {
          return;
        }
      }
      SkipAll(fold, t, k, todo);
      ok := true;
    }

    /** Refuses before writing anything if names collide in any table; otherwise rewrites the tables, in
        whatever order the map of pending rows yields them. */
    method FoldStoredNames(fold: string -> string, order: seq<nat>) returns (r: Result<(), Failure>)
      requires Idempotent(fold) && AllUnique(tables)
      requires forall i: nat | i < |tables| :: i in order
      requires forall j, k | 0 <= j < k < |order| :: order[j] != order[k]
      modifies this
      ensures r.Err? <==> AnyCollides(fold, old(tables))
      ensures r.Err? ==> tables == old(tables) && r.error == Collisions(Colliding(fold, tables))
      ensures r.Ok? ==> tables == FoldedTables(fold, old(tables))
    {
      ghost var before := tables;
      var problems, todo := ExamineAll(fold);
      if i: nat :| i in problems {
        assert before[i].Some? && Collides(fold, before[i].value);
        return Err(Collisions(problems));
      }
      forall i: nat | i < |before| && before[i].Some?
        ensures !Collides(fold, before[i].value)
      {
        assert i !in problems && i !in Colliding(fold, before);
      }
      for n := 0 to |order|
        invariant tables == PartlyFolded(fold, before, order[..n])
      {
        var i := order[n];
        assert i !in order[..n];
        PartStep(fold, before, order, n);
        if i in todo {
          var ok := Rewrite(fold, i, todo[i]);
          if !ok {
            return Err(Constraint(i));
          }
        }
      }
      assert order[..|order|] == order;
      assert tables == FoldedTables(fold, before);
      r := Ok(());
    }

    method ExamineAll(fold: string -> string) returns (problems: set<nat>, todo: map<nat, seq<Row>>)
      ensures problems == Colliding(fold, tables)
      ensures forall i: nat :: i in todo <==> i < |tables| && tables[i].Some?
      ensures forall i: nat | i in todo :: todo[i] == Pending(fold, tables[i].value)
    {
      problems, todo := {}, map[];
      for i := 0 to |tables|
        invariant forall j: nat :: j in problems <==> j < i && tables[j].Some? && Collides(fold, tables[j].value)
        invariant forall j: nat :: j in todo <==> j < i && tables[j].Some?
        invariant forall j: nat | j in todo :: todo[j] == Pending(fold, tables[j].value)
      {
        if tables[i].Some? {
          var collides, pending := ExamineTable(fold, tables[i].value);
          if collides {
            problems := problems + {i};
          }
          todo := todo[i := pending];
        }
      }
    }
  }

  method ExamineTable(fold: string -> string, t: seq<Row>) returns (collides: bool, todo: seq<Row>)
    ensures collides <==> Collides(fold, t)
    ensures todo == Pending(fold, t)
  {
    var byFolded: map<string, seq<string>>;
    byFolded, todo := Examine(fold, t);
    collides := exists f | f in byFolded :: |byFolded[f]| >= 2;
    GroupsCollide(fold, t, byFolded);
  }

  function Colliding(fold: string -> string, ts: Tables): set<nat> {
    set i: nat | i < |ts| && ts[i].Some? && Collides(fold, ts[i].value)
  }

  lemma PartStep(fold: string -> string, ts: Tables, order: seq<nat>, n: nat)
    requires n < |order| && order[n] !in order[..n]
    ensures var i, part, next := order[n], PartlyFolded(fold, ts, order[..n]), PartlyFolded(fold, ts, order[..n + 1]);
            && (i < |ts| ==> part[i] == ts[i])
            && next == (if i < |ts| && ts[i].Some? then part[i := Some(Folded(fold, ts[i].value))] else part)
  {
    assert order[..n + 1] == order[..n] + [order[n]];
  }

  function PartlyFolded(fold: string -> string, ts: Tables, done: seq<nat>): (r: Tables)
    ensures |r| == |ts|
  {
    seq(|ts|, i requires 0 <= i < |ts| => if ts[i].Some? && i in done then Some(Folded(fold, ts[i].value)) else ts[i])
  }

  lemma PendingStep(fold: string -> string, t: seq<Row>, k: nat)
    requires k < |t|
    ensures Pending(fold, t[..k + 1])
         == Pending(fold, t[..k]) + (if fold(t[k].name) != t[k].name then [Row(t[k].id, fold(t[k].name))] else [])
  {
    assert t[..k + 1][..k] == t[..k];
  }

  /** The next row that changes. */
  lemma {:induction false} SkipTo(fold: string -> string, t: seq<Row>, k: nat, todo: seq<Row>, n: nat) returns (next: nat)
    requires k <= |t| && n < |todo| && todo == Pending(fold, t) && Pending(fold, t[..k]) == todo[..n]
    ensures k <= next < |t| && Pending(fold, t[..next]) == todo[..n]
    ensures todo[n] == Row(t[next].id, fold(t[next].name)) && fold(t[next].name) != t[next].name
    ensures FoldedTo(fold, t, next) == FoldedTo(fold, t, k)
    decreases |t| - k
  {
    assert t[..|t|] == t;
    assert k < |t|;
    PendingStep(fold, t, k);
    if fold(t[k].name) == t[k].name {
      assert FoldedTo(fold, t, k) == FoldedTo(fold, t, k + 1);
      next := SkipTo(fold, t, k + 1, todo, n);
    } else {
      next := k;
      PendingGrows(fold, t, k + 1);
      assert todo[..n + 1] == Pending(fold, t[..k + 1]);
    }
  }

  lemma {:induction false} PendingGrows(fold: string -> string, t: seq<Row>, k: nat)
    requires k <= |t|
    ensures Pending(fold, t[..k]) <= Pending(fold, t)
    decreases |t| - k
  {
    if k == |t| {
      assert t[..k] == t;
    } else {
      PendingStep(fold, t, k);
      PendingGrows(fold, t, k + 1);
    }
  }

  lemma {:induction false} SkipAll(fold: string -> string, t: seq<Row>, k: nat, todo: seq<Row>)
    requires k <= |t| && todo == Pending(fold, t) && Pending(fold, t[..k]) == todo
    ensures FoldedTo(fold, t, k) == Folded(fold, t)
    decreases |t| - k
  {
    if k < |t| {
      PendingStep(fold, t, k);
      PendingGrows(fold, t, k + 1);
      assert fold(t[k].name) == t[k].name;
      assert FoldedTo(fold, t, k) == FoldedTo(fold, t, k + 1);
      SkipAll(fold, t, k + 1, todo);
    }
  }
}
