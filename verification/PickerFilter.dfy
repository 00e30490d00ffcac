/** Filtering the picker's rows by a typed query (internal/session/guestrow.go). */
module PickerFilter {
  import opened Wrappers
  import opened StableSort
  import opened PickerRows
  import opened FuzzyMatch

  const FIELD_RANK_PENALTY := 4

  /** The characters with Unicode's White_Space property. */
  predicate IsSpace(c: char) {
    || c == ' ' || '\t' <= c <= '\r' || c == '\U{85}' || c == '\U{A0}' || c == '\U{1680}' || '\U{2000}' <= c <= '\U{200A}'
    || c == '\U{2028}' || c == '\U{2029}' || c == '\U{202F}' || c == '\U{205F}' || c == '\U{3000}'
  }

  function Trim(s: string): (t: string)
    ensures |t| <= |s|
  {
    if s == "" then ""
    else if IsSpace(s[0]) then Trim(s[1..])
    else if IsSpace(s[|s| - 1]) then Trim(s[..|s| - 1])
    else s
  }

  /** `s[i..j]` is `s` without the spaces at both ends, all of them and nothing else. */
  predicate TrimsTo(s: string, i: nat, j: nat) {
    && i <= j <= |s|
    && (forall k | 0 <= k < i :: IsSpace(s[k])) && (forall k | j <= k < |s| :: IsSpace(s[k]))
    && (i < j ==> !IsSpace(s[i]) && !IsSpace(s[j - 1]))
  }

  lemma FrontTrims(s: string, i: nat, j: nat)
    requires s != "" && IsSpace(s[0]) && TrimsTo(s[1..], i, j)
    ensures TrimsTo(s, i + 1, j + 1) && s[1..][i..j] == s[i + 1..j + 1]
  {
    assert forall k | 0 <= k < |s| - 1 :: s[1..][k] == s[k + 1];
    forall k | 0 <= k < i + 1
      ensures IsSpace(s[k])
    {
      assert k > 0 ==> s[k] == s[1..][k - 1];
    }
    forall k | j + 1 <= k < |s|
      ensures IsSpace(s[k])
    {
      assert s[k] == s[1..][k - 1];
    }
  }

  lemma BackTrims(s: string, i: nat, j: nat)
    requires s != "" && IsSpace(s[|s| - 1]) && TrimsTo(s[..|s| - 1], i, j)
    ensures TrimsTo(s, i, j) && s[..|s| - 1][i..j] == s[i..j]
  {
    assert forall k | 0 <= k < |s| - 1 :: s[..|s| - 1][k] == s[k];
  }

  /** What Trim leaves of a query. */
  lemma {:induction false} TrimReads(s: string) returns (i: nat, j: nat)
    ensures TrimsTo(s, i, j) && Trim(s) == s[i..j]
    decreases |s|
  {
    i, j := 0, |s|;
    if s != "" && IsSpace(s[0]) {
      i, j := TrimReads(s[1..]);
      FrontTrims(s, i, j);
      i, j := i + 1, j + 1;
    } else if s != "" && IsSpace(s[|s| - 1]) {
      i, j := TrimReads(s[..|s| - 1]);
      BackTrims(s, i, j);
    }
  }

  /** What the field at `i` scores for the query; later fields count for less. */
  function FieldScore(fields: seq<string>, i: nat, query: string): Option<int>
    requires i < |fields|
  {
    match Score(fields[i], query)
    case None => None
    case Some(s) => Some(s - i * FIELD_RANK_PENALTY)
  }

  /** The same text counts four points less for every field it stands further back. */
  lemma FieldRank(fields: seq<string>, i: nat, j: nat, query: string)
    requires i <= j < |fields| && fields[i] == fields[j] && FieldScore(fields, i, query).Some?
    ensures FieldScore(fields, j, query) == Some(FieldScore(fields, i, query).value - 4 * (j - i))
  {
  }

  /** The best score among the first `n` fields. */
  function BestOf(fields: seq<string>, n: nat, query: string): Option<int>
    requires n <= |fields|
  {
    if n == 0 then None
    else
      var before, here := BestOf(fields, n - 1, query), FieldScore(fields, n - 1, query);
      if here.None? || (before.Some? && here.value <= before.value) then before else here
  }

  function Best(r: Row, query: string): Option<int> {
    BestOf(r.fields, |r.fields|, query)
  }

  ghost predicate FieldMatches(fields: seq<string>, i: nat, query: string)
    requires i < |fields|
  {
    Subsequence(Lower(query), Lower(fields[i]))
  }

  lemma {:induction false} BestExists(fields: seq<string>, n: nat, query: string)
    requires n <= |fields|
    ensures BestOf(fields, n, query).Some? <==> exists i | 0 <= i < n :: FieldMatches(fields, i, query)
  {
    if n > 0 {
      BestExists(fields, n - 1, query);
      MatchesAreSubsequences(fields[n - 1], query);
      assert FieldScore(fields, n - 1, query).Some? <==> FieldMatches(fields, n - 1, query);
    }
  }

  lemma {:induction false} BestAttained(fields: seq<string>, n: nat, query: string) returns (i: nat)
    requires n <= |fields| && BestOf(fields, n, query).Some?
    ensures i < n && FieldScore(fields, i, query) == BestOf(fields, n, query)
  {
    if FieldScore(fields, n - 1, query) == BestOf(fields, n, query) {
      i := n - 1;
    } else {
      i := BestAttained(fields, n - 1, query);
    }
  }

  lemma {:induction false} BestBounds(fields: seq<string>, n: nat, query: string, i: nat)
    requires i < n <= |fields| && FieldScore(fields, i, query).Some?
    ensures BestOf(fields, n, query).Some? && FieldScore(fields, i, query).value <= BestOf(fields, n, query).value
  {
    if i < n - 1 {
      BestBounds(fields, n - 1, query, i);
    }
  }

  /** The best score is the largest any field has, and there is one exactly when some field has the
      query as a subsequence. */
  lemma BestIsLargest(fields: seq<string>, n: nat, query: string)
    requires n <= |fields|
    ensures var best := BestOf(fields, n, query);
            && (best.Some? <==> exists i | 0 <= i < n :: FieldMatches(fields, i, query))
            && (best.Some? ==> exists i | 0 <= i < n :: FieldScore(fields, i, query) == best)
            && (forall i | 0 <= i < n && FieldScore(fields, i, query).Some? ::
                  best.Some? && FieldScore(fields, i, query).value <= best.value)
  {
    BestExists(fields, n, query);
    if BestOf(fields, n, query).Some? {
      var i := BestAttained(fields, n, query);
    }
    forall i | 0 <= i < n && FieldScore(fields, i, query).Some?
      ensures BestOf(fields, n, query).Some? && FieldScore(fields, i, query).value <= BestOf(fields, n, query).value
    {
      BestBounds(fields, n, query, i);
    }
  }

  predicate Matches(r: Row, query: string) {
    Best(r, query).Some?
  }

  /** The matching rows in their order, each with its score. */
  function Kept(rows: seq<Row>, query: string): seq<Row> {
    if rows == [] then []
    else
      var n := |rows| - 1;
      Kept(rows[..n], query) + (match Best(rows[n], query)
                                case None => []
                                case Some(s) => [rows[n].(score := s)])
  }

  /** The list shown for a query. */
  function Filtered(rows: seq<Row>, query: string): seq<Row> {
    if Trim(query) == "" then rows else Sorted(BEST_FIRST, Kept(rows, Trim(query)))
  }

  lemma BestFirstCompares()
    ensures Comparison(BEST_FIRST)
  {
  }

  lemma {:induction false} KeptAre(rows: seq<Row>, query: string, x: Row)
    ensures x in Kept(rows, query) <==> exists r | r in rows :: Matches(r, query) && x == r.(score := Best(r, query).value)
  {
    if rows != [] {
      var n := |rows| - 1;
      KeptAre(rows[..n], query, x);
      assert rows == rows[..n] + [rows[n]];
    }
  }

  /** Filtering shows exactly the rows with a field that has the query as a subsequence, best first, and
      rows that score the same in the order they had. */
  lemma FilterMeaning(rows: seq<Row>, query: string)
    requires Trim(query) != ""
    ensures var q := Trim(query);
            var shown := Filtered(rows, query);
            && multiset(shown) == multiset(Kept(rows, q))
            && (forall r | r in rows ::
                  (exists i | 0 <= i < |r.fields| :: FieldMatches(r.fields, i, q))
                  <==> (Best(r, q).Some? && r.(score := Best(r, q).value) in shown))
            && (forall x | x in shown :: exists r | r in rows :: x == r.(score := x.score))
            && Ordered(BEST_FIRST, shown)
            && (forall y :: Ties(BEST_FIRST, y, shown) == Ties(BEST_FIRST, y, Kept(rows, q)))
  {
    var q := Trim(query);
    var kept := Kept(rows, q);
    var shown := Sorted(BEST_FIRST, kept);
    BestFirstCompares();
    SortedKeeps(BEST_FIRST, kept);
    SortedOrders(BEST_FIRST, kept);
    forall y
      ensures Ties(BEST_FIRST, y, shown) == Ties(BEST_FIRST, y, kept)
    {
      SortedStable(BEST_FIRST, kept, y);
    }
    SameMembers(shown, kept);
    forall r | r in rows
      ensures (exists i | 0 <= i < |r.fields| :: FieldMatches(r.fields, i, q))
         <==> (Best(r, q).Some? && r.(score := Best(r, q).value) in shown)
    {
      BestExists(r.fields, |r.fields|, q);
      if Matches(r, q) {
        KeptAre(rows, q, r.(score := Best(r, q).value));
      }
    }
    forall x | x in shown
      ensures exists r | r in rows :: x == r.(score := x.score)
    {
      KeptAre(rows, q, x);
    }
  }

  lemma SameMembers(s: seq<Row>, t: seq<Row>)
    requires multiset(s) == multiset(t)
    ensures forall x :: x in s <==> x in t
  {
    forall x
      ensures x in s <==> x in t
    {
      assert x in s <==> x in multiset(s);
      assert x in t <==> x in multiset(t);
    }
  }

  // ----- The filter as the program has it -----

  method BestScore(r: Row, query: string) returns (best: int, matched: bool)
    ensures matched <==> Matches(r, query)
    ensures matched ==> Best(r, query) == Some(best)
  {
    best, matched := 0, false;
    for i := 0 to |r.fields|
      invariant BestOf(r.fields, i, query) == if matched then Some(best) else None
    {
      var score, ok := FuzzyScore(r.fields[i], query);
      if ok {
        score := score - i * FIELD_RANK_PENALTY;
        assert FieldScore(r.fields, i, query) == Some(score);
        if !matched || score > best {
          best, matched := score, true;
        }
      }
    }
  }

  /** The given rows themselves when the query is blank; otherwise a new list. */
  method FilterRows(rows: array<Row>, query: string) returns (shown: array<Row>)
    ensures shown[..] == Filtered(rows[..], query)
    ensures if Trim(query) == "" then shown == rows else fresh(shown)
  {
    var q := Trim(query);
    if q == "" {
      return rows;
    }
    var kept: seq<Row> := [];
    for i := 0 to rows.Length
      invariant kept == Kept(rows[..i], q)
    {
      assert rows[..i + 1][..i] == rows[..i];
      var best, matched := BestScore(rows[i], q);
      if matched {
        kept := kept + [rows[i].(score := best)];
      }
    }
    assert rows[..rows.Length] == rows[..];
    shown := new Row[|kept|](i requires 0 <= i < |kept| => kept[i]);
    assert shown[..] == kept;
    Sort(shown, BEST_FIRST);
  }
}
