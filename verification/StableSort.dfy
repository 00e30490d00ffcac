/** The stable in-place sort the picker takes from its library (internal/session/sortmode.go,
    internal/session/guestrow.go), and what such a sort is. */
module StableSort {
  /** What the library asks of a comparison. */
  ghost predicate Comparison<T(!new)>(less: (T, T) -> bool) {
    && (forall a, b :: !(less(a, b) && less(b, a)))
    && (forall a, b, c :: !less(b, a) && !less(c, b) ==> !less(c, a))
  }

  function Insert<T>(less: (T, T) -> bool, x: T, s: seq<T>): (r: seq<T>)
    ensures |r| == |s| + 1
  {
    if s != [] && less(x, s[|s| - 1]) then Insert(less, x, s[..|s| - 1]) + [s[|s| - 1]] else s + [x]
  }

  /** The sorted order of `s`: each element put after the earlier ones it does not come before. */
  function Sorted<T>(less: (T, T) -> bool, s: seq<T>): (r: seq<T>)
    ensures |r| == |s|
  {
    if s == [] then [] else Insert(less, s[|s| - 1], Sorted(less, s[..|s| - 1]))
  }

  // ----- What sorting keeps and establishes -----

  predicate Ordered<T>(less: (T, T) -> bool, s: seq<T>) {
    forall i, j | 0 <= i < j < |s| :: !less(s[j], s[i])
  }

  /** The elements of `s` that tie with `x`, in their order. */
  function Ties<T>(less: (T, T) -> bool, x: T, s: seq<T>): seq<T> {
    if s == [] then []
    else Ties(less, x, s[..|s| - 1]) + (if Tied(less, x, s[|s| - 1]) then [s[|s| - 1]] else [])
  }

  predicate Tied<T>(less: (T, T) -> bool, a: T, b: T) {
    !less(a, b) && !less(b, a)
  }

  lemma {:induction false} InsertKeeps<T>(less: (T, T) -> bool, x: T, s: seq<T>)
    ensures multiset(Insert(less, x, s)) == multiset(s) + multiset{x}
  {
    if s != [] {
      var n := |s| - 1;
      assert s == s[..n] + [s[n]];
      if less(x, s[n]) {
        InsertKeeps(less, x, s[..n]);
      }
    }
  }

  lemma {:induction false} SortedKeeps<T>(less: (T, T) -> bool, s: seq<T>)
    ensures multiset(Sorted(less, s)) == multiset(s)
  {
    if s != [] {
      var n := |s| - 1;
      assert s == s[..n] + [s[n]];
      SortedKeeps(less, s[..n]);
      InsertKeeps(less, s[n], Sorted(less, s[..n]));
    }
  }

  lemma {:induction false} InsertOrders<T(!new)>(less: (T, T) -> bool, x: T, s: seq<T>)
    requires Comparison(less)
    requires Ordered(less, s)
    ensures Ordered(less, Insert(less, x, s))
  {
    if s != [] {
      var n := |s| - 1;
      var last := s[n];
      if less(x, last) {
        InsertOrders(less, x, s[..n]);
        InsertKeeps(less, x, s[..n]);
        var r := Insert(less, x, s[..n]);
        forall i | 0 <= i < |r|
          ensures !less(last, r[i])
        {
          assert r[i] in multiset(r);
        }
      } else {
        forall i | 0 <= i < |s|
          ensures !less(x, s[i])
        {
        }
      }
    }
  }

  lemma {:induction false} SortedOrders<T(!new)>(less: (T, T) -> bool, s: seq<T>)
    requires Comparison(less)
    ensures Ordered(less, Sorted(less, s))
  {
    if s != [] {
      SortedOrders(less, s[..|s| - 1]);
      InsertOrders(less, s[|s| - 1], Sorted(less, s[..|s| - 1]));
    }
  }

  lemma {:induction false} InsertStable<T(!new)>(less: (T, T) -> bool, x: T, s: seq<T>, y: T)
    requires Comparison(less)
    ensures Ties(less, y, Insert(less, x, s)) == Ties(less, y, s + [x])
  {
    if s != [] && less(x, s[|s| - 1]) {
      var n := |s| - 1;
      var last := s[n];
      InsertStable(less, x, s[..n], y);
      var r := Insert(less, x, s[..n]);
      assert (r + [last])[..n + 1] == r;
      assert (s[..n] + [x])[..n] == s[..n];
      assert (s + [x])[..n + 1] == s;
      NotBothTied(less, y, x, last);
    }
  }

  lemma NotBothTied<T(!new)>(less: (T, T) -> bool, y: T, a: T, b: T)
    requires Comparison(less)
    requires less(a, b)
    ensures !(Tied(less, y, a) && Tied(less, y, b))
  {
  }

  /** Elements that tie keep the order they had. */
  lemma {:induction false} SortedStable<T(!new)>(less: (T, T) -> bool, s: seq<T>, y: T)
    requires Comparison(less)
    ensures Ties(less, y, Sorted(less, s)) == Ties(less, y, s)
  {
    if s != [] {
      var n := |s| - 1;
      var r := Sorted(less, s[..n]);
      SortedStable(less, s[..n], y);
      InsertStable(less, s[n], r, y);
      assert (r + [s[n]])[..n] == r;
    }
  }

  /** Ordered, with every tie in its old order: there is only one such list, so it does not matter
      which stable algorithm the library uses. */
  lemma {:induction false} OneStableOrder<T(!new)>(less: (T, T) -> bool, s: seq<T>, t: seq<T>)
    requires Comparison(less) && Ordered(less, s) && Ordered(less, t)
    requires forall y :: Ties(less, y, s) == Ties(less, y, t)
    ensures s == t
    decreases |s|
  {
    BothEmpty(less, s, t);
    BothEmpty(less, t, s);
    if s != [] {
      var n, m := |s| - 1, |t| - 1;
      LastsTie(less, s, t);
      forall y
        ensures Ties(less, y, s[..n]) == Ties(less, y, t[..m])
      {
        var e := if Tied(less, y, s[n]) then [s[n]] else [];
        assert Ties(less, y, s[..n]) + e == Ties(less, y, s) == Ties(less, y, t) == Ties(less, y, t[..m]) + e;
        SameFront(Ties(less, y, s[..n]), Ties(less, y, t[..m]), e);
      }
      OneStableOrder(less, s[..n], t[..m]);
      assert s == s[..n] + [s[n]] && t == t[..m] + [t[m]];
    }
  }

  lemma BothEmpty<T(!new)>(less: (T, T) -> bool, s: seq<T>, t: seq<T>)
    requires Comparison(less) && forall y :: Ties(less, y, s) == Ties(less, y, t)
    ensures s != [] ==> t != []
  {
    if s != [] {
      LastOfTies(less, s);
      assert Ties(less, s[|s| - 1], t) != [];
    }
  }

  lemma SameFront<T>(a: seq<T>, b: seq<T>, e: seq<T>)
    requires a + e == b + e
    ensures a == b
  {
    assert |a| == |b| && a == (a + e)[..|a|] && b == (b + e)[..|b|];
  }

  lemma LastsTie<T(!new)>(less: (T, T) -> bool, s: seq<T>, t: seq<T>)
    requires Comparison(less) && Ordered(less, s) && Ordered(less, t) && s != [] && t != []
    requires forall y :: Ties(less, y, s) == Ties(less, y, t)
    ensures s[|s| - 1] == t[|t| - 1]
  {
    var x, z := s[|s| - 1], t[|t| - 1];
    LastOfTies(less, s);
    LastOfTies(less, t);
    TiesAreMembers(less, x, t);
    TiesAreMembers(less, z, s);
    assert Ties(less, x, s) == Ties(less, x, t) && Ties(less, z, s) == Ties(less, z, t);
    assert x in t && z in s;
    var i :| 0 <= i < |t| && t[i] == x;
    var j :| 0 <= j < |s| && s[j] == z;
    assert !less(z, x) && !less(x, z);
    assert Tied(less, x, z);
  }

  lemma LastOfTies<T(!new)>(less: (T, T) -> bool, s: seq<T>)
    requires Comparison(less) && s != []
    ensures var x := s[|s| - 1];
            var ties := Ties(less, x, s);
            ties != [] && ties[|ties| - 1] == x
  {
  }

  lemma {:induction false} TiesAreMembers<T>(less: (T, T) -> bool, x: T, s: seq<T>)
    ensures forall y | y in Ties(less, x, s) :: y in s
  {
    if s != [] {
      TiesAreMembers(less, x, s[..|s| - 1]);
    }
  }

  // ----- The sort itself -----

  /** Stable insertion by neighbouring swaps. */
  method Sort<T>(rows: array<T>, less: (T, T) -> bool)
    modifies rows
    ensures rows[..] == Sorted(less, old(rows[..]))
  {
    ghost var s := rows[..];
    var i := 0;
    while i < rows.Length
      invariant i <= rows.Length
      invariant rows[..i] == Sorted(less, s[..i])
      invariant forall k | i <= k < rows.Length :: rows[k] == s[k]
    {
      SortedStep(less, s, i);
      Sink(rows, less, i);
      i := i + 1;
    }
    assert rows[..] == rows[..i] && s == s[..i];
  }

  lemma SortedStep<T>(less: (T, T) -> bool, s: seq<T>, i: nat)
    requires i < |s|
    ensures Sorted(less, s[..i + 1]) == Insert(less, s[i], Sorted(less, s[..i]))
  {
    assert s[..i + 1][..i] == s[..i];
  }

  /** Moves the element at `i` down to its place among those before it. */
  method Sink<T>(rows: array<T>, less: (T, T) -> bool, i: nat)
    requires i < rows.Length
    modifies rows
    ensures rows[..i + 1] == Insert(less, old(rows[i]), old(rows[..i]))
    ensures forall k | i < k < rows.Length :: rows[k] == old(rows[k])
  {
    var j := i;
    ghost var x, sorted := rows[i], rows[..i];
    StartSinking(less, x, sorted);
    while j > 0 && less(rows[j], rows[j - 1])
      invariant 0 <= j <= i && rows[..i + 1] == Placed(sorted, x, j)
      invariant forall k | i < k < rows.Length :: rows[k] == old(rows[k])
      invariant Passed(less, x, sorted, j)
    {
      PlacedAt(sorted, x, j, rows[..i + 1]);
      InsertDown(less, x, sorted, j);
      SwapDown(sorted, x, j);
      Swap(rows, i, j);
      j := j - 1;
    }
    PlacedAt(sorted, x, j, rows[..i + 1]);
    DoneSinking(less, x, sorted, j);
  }

  method Swap<T>(rows: array<T>, i: nat, j: nat)
    requires 0 < j <= i < rows.Length
    modifies rows
    ensures rows[..i + 1] == old(rows[..i + 1][j := rows[j - 1]][j - 1 := rows[j]])
    ensures forall k | i < k < rows.Length :: rows[k] == old(rows[k])
  {
    rows[j], rows[j - 1] := rows[j - 1], rows[j];
  }

  /** `x` belongs before everything from `j` on. */
  ghost predicate Passed<T>(less: (T, T) -> bool, x: T, sorted: seq<T>, j: nat)
    requires j <= |sorted|
  {
    Insert(less, x, sorted) == Insert(less, x, sorted[..j]) + sorted[j..]
  }

  lemma StartSinking<T>(less: (T, T) -> bool, x: T, sorted: seq<T>)
    ensures Passed(less, x, sorted, |sorted|) && Placed(sorted, x, |sorted|) == sorted + [x]
  {
    assert sorted[..|sorted|] == sorted;
  }

  lemma DoneSinking<T>(less: (T, T) -> bool, x: T, sorted: seq<T>, j: nat)
    requires j <= |sorted| && Passed(less, x, sorted, j) && (j > 0 ==> !less(x, sorted[j - 1]))
    ensures Insert(less, x, sorted) == Placed(sorted, x, j)
  {
    assert j > 0 ==> sorted[..j][j - 1] == sorted[j - 1];
  }

  function Placed<T>(sorted: seq<T>, x: T, j: nat): (r: seq<T>)
    requires j <= |sorted|
    ensures |r| == |sorted| + 1
  {
    sorted[..j] + [x] + sorted[j..]
  }

  lemma PlacedAt<T>(sorted: seq<T>, x: T, j: nat, r: seq<T>)
    requires j <= |sorted| && r == Placed(sorted, x, j)
    ensures r[j] == x && (j > 0 ==> r[j - 1] == sorted[j - 1] == sorted[..j][j - 1])
  {
  }

  lemma SwapDown<T>(sorted: seq<T>, x: T, j: nat)
    requires 0 < j <= |sorted|
    ensures Placed(sorted, x, j)[j := sorted[j - 1]][j - 1 := x] == Placed(sorted, x, j - 1)
  {
  }

  lemma InsertDown<T>(less: (T, T) -> bool, x: T, sorted: seq<T>, j: nat)
    requires 0 < j <= |sorted| && less(x, sorted[j - 1]) && Passed(less, x, sorted, j)
    ensures Passed(less, x, sorted, j - 1)
  {
    assert sorted[..j][..j - 1] == sorted[..j - 1];
    assert [sorted[j - 1]] + sorted[j..] == sorted[j - 1..];
  }
}
