/** The placeholders of a query text and their numbering for Postgres (rebind, internal/db/dialect.go). */
module Rebind {
  import opened Numerals

  // ----- rebind -----

  /** One byte of the query, after n placeholders. */
  function Rebound(c: char, n: nat): string {
    if c == '?' then "$" + Decimal(n + 1) else [c]
  }

  function Next(c: char, n: nat): nat {
    if c == '?' then n + 1 else n
  }

  /** `q` with its placeholders numbered from n + 1 on. */
  function RebindFrom(q: string, n: nat): string {
    if q == "" then "" else Rebound(q[0], n) + RebindFrom(q[1..], Next(q[0], n))
  }

  function Placeholders(q: string): nat {
    if q == "" then 0 else (if q[0] == '?' then 1 else 0) + Placeholders(q[1..])
  }

  method Rebind(query: string, numbered: bool) returns (r: string)
    ensures r == if numbered then RebindFrom(query, 0) else query
  {
    if !numbered {
      return query;
    }
    var sb := "";
    var n := 0;
    assert query[0..] == query;
    for i := 0 to |query|
      invariant n >= 0 && RebindFrom(query, 0) == sb + RebindFrom(query[i..], n)
    {
      assert query[i..][0] == query[i] && query[i..][1..] == query[i + 1..];
      if query[i] != '?' {
        sb := sb + [query[i]];
      } else {
        n := n + 1;
        sb := sb + ("$" + Decimal(n));
      }
    }
    assert sb + "" == sb;
    return sb;
  }

  lemma {:induction false} RebindAppend(p: string, q: string, n: nat)
    ensures RebindFrom(p + q, n) == RebindFrom(p, n) + RebindFrom(q, n + Placeholders(p))
    ensures Placeholders(p + q) == Placeholders(p) + Placeholders(q)
    decreases |p|
  {
    if p == "" {
      assert p + q == q;
    } else {
      var m := Next(p[0], n);
      RebindAppend(p[1..], q, m);
      Cons(p, q);
      Associative(Rebound(p[0], n), RebindFrom(p[1..], m), RebindFrom(q, n + Placeholders(p)));
    }
  }

  lemma Cons(p: string, q: string)
    requires p != ""
    ensures (p + q)[0] == p[0] && (p + q)[1..] == p[1..] + q
  {
  }

  lemma Associative(a: string, b: string, c: string)
    ensures a + (b + c) == a + b + c
  {
  }

  /** Text without a placeholder is left alone. */
  lemma {:induction false} RebindPlain(p: string, n: nat)
    requires '?' !in p
    ensures RebindFrom(p, n) == p && Placeholders(p) == 0
    decreases |p|
  {
    if p != "" {
      assert p == [p[0]] + p[1..];
      RebindPlain(p[1..], n);
    }
  }

  /** Undoing it: the k-th "$" followed by the numeral k becomes "?" again. */
  function Undo(s: string, n: nat): string
    decreases |s|
  {
    if s == "" then ""
    else if s[0] == '$' && Decimal(n + 1) <= s[1..] then "?" + Undo(s[1 + |Decimal(n + 1)|..], n + 1)
    else [s[0]] + Undo(s[1..], n)
  }

  lemma UndoNumber(tail: string, n: nat)
    ensures Undo("$" + Decimal(n + 1) + tail, n) == "?" + Undo(tail, n + 1)
  {
    var d := Decimal(n + 1);
    var r := "$" + d + tail;
    assert r[0] == '$' && r[1..] == d + tail;
    assert r[1 + |d|..] == tail;
  }

  lemma UndoOther(c: char, tail: string, n: nat)
    requires c != '$'
    ensures Undo([c] + tail, n) == [c] + Undo(tail, n)
  {
    assert ([c] + tail)[1..] == tail;
  }

  /** Rebinding changes the placeholders and nothing else: any query without "$" comes back. */
  lemma {:induction false} UndoRebind(q: string, n: nat)
    requires '$' !in q
    ensures Undo(RebindFrom(q, n), n) == q
    decreases |q|
  {
    if q != "" {
      assert q == [q[0]] + q[1..];
      if q[0] == '?' {
        UndoNumber(RebindFrom(q[1..], n + 1), n);
        UndoRebind(q[1..], n + 1);
      } else {
        UndoOther(q[0], RebindFrom(q[1..], n), n);
        UndoRebind(q[1..], n);
      }
    }
  }

  // ----- How Postgres reads the result: "$" and the longest run of digits -----

  function DigitRun(s: string): (k: nat)
    ensures k <= |s| && (forall i | 0 <= i < k :: IsDigit(s[i])) && (k < |s| ==> !IsDigit(s[k]))
  {
    if s == "" || !IsDigit(s[0]) then 0 else 1 + DigitRun(s[1..])
  }

  /** The parameter numbers in a Postgres query, left to right. */
  function Parameters(s: string): seq<nat>
    decreases |s|
  {
    if s == "" then []
    else if s[0] == '$' then
      var k := DigitRun(s[1..]);
      [Value(s[1..][..k])] + Parameters(s[1..][k..])
    else Parameters(s[1..])
  }

  /** No placeholder runs into a digit. */
  predicate Separated(q: string) {
    forall i | 0 <= i < |q| - 1 :: q[i] == '?' ==> !IsDigit(q[i + 1])
  }

  function Count(n: nat, m: nat): seq<nat> {
    seq(m, i requires 0 <= i < m => n + 1 + i)
  }

  lemma DigitRunOf(ds: string, rest: string)
    requires (forall i | 0 <= i < |ds| :: IsDigit(ds[i])) && (rest != "" ==> !IsDigit(rest[0]))
    ensures DigitRun(ds + rest) == |ds|
  {
    assert forall i | 0 <= i < |ds| :: (ds + rest)[i] == ds[i];
    assert rest != "" ==> (ds + rest)[|ds|] == rest[0];
  }

  /** A numeral that runs into a digit is read as a larger number. */
  lemma DigitRunPast(ds: string, rest: string)
    requires (forall i | 0 <= i < |ds| :: IsDigit(ds[i])) && rest != "" && IsDigit(rest[0]) && Value(ds) > 0
    ensures Value((ds + rest)[..DigitRun(ds + rest)]) > Value(ds)
  {
    var k := DigitRun(ds + rest);
    assert forall i | 0 <= i < |ds| :: (ds + rest)[i] == ds[i];
    assert (ds + rest)[|ds|] == rest[0];
    assert k > |ds|;
    var more := rest[..k - |ds|];
    assert (ds + rest)[..k] == ds + more;
    assert forall i | 0 <= i < |more| :: more[i] == (ds + rest)[|ds| + i];
    ValueGrows(ds, more);
  }

  lemma RebindHead(q: string, n: nat)
    requires q != ""
    ensures var r := RebindFrom(q, n); r != "" && (IsDigit(r[0]) <==> IsDigit(q[0]))
  {
  }

  lemma ParametersSkip(p: string, s: string)
    requires forall i | 0 <= i < |p| :: p[i] != '$'
    ensures Parameters(p + s) == Parameters(s)
    decreases |p|
  {
    if p == "" {
      assert p + s == s;
    } else {
      assert (p + s)[0] == p[0] && (p + s)[1..] == p[1..] + s;
      ParametersSkip(p[1..], s);
    }
  }

  /** A numbered placeholder that meets no digit is read as its number. */
  lemma ParametersStep(d: string, tail: string)
    requires (forall i | 0 <= i < |d| :: IsDigit(d[i])) && (tail != "" ==> !IsDigit(tail[0]))
    ensures Parameters("$" + d + tail) == [Value(d)] + Parameters(tail)
  {
    var r := "$" + d + tail;
    assert r[1..] == d + tail;
    DigitRunOf(d, tail);
    assert (d + tail)[..|d|] == d && (d + tail)[|d|..] == tail;
  }

  lemma CountStep(n: nat, m: nat, rest: seq<nat>)
    ensures Count(n, m + 1) == [n + 1] + Count(n + 1, m)
    ensures [n + 1] + rest == Count(n, m + 1) <==> rest == Count(n + 1, m)
  {
    assert ([n + 1] + rest)[1..] == rest && ([n + 1] + Count(n + 1, m))[1..] == Count(n + 1, m);
  }

  /** Postgres reads n + 1, n + 2, ... */
  predicate InOrder(q: string, n: nat) {
    Parameters(RebindFrom(q, n)) == Count(n, Placeholders(q))
  }

  lemma OtherInOrder(q: string, n: nat)
    requires q != "" && q[0] != '?' && q[0] != '$'
    ensures InOrder(q, n) <==> InOrder(q[1..], n)
  {
    assert RebindFrom(q, n)[1..] == RebindFrom(q[1..], n);
  }

  lemma FirstParameter(s: string)
    ensures var k := DigitRun(s);
            Parameters("$" + s) == [Value(s[..k])] + Parameters(s[k..])
  {
    assert ("$" + s)[1..] == s;
  }

  /** A numbered placeholder that meets a digit is read as a larger number. */
  lemma RunsOn(d: string, tail: string)
    requires (forall i | 0 <= i < |d| :: IsDigit(d[i])) && Value(d) > 0 && tail != "" && IsDigit(tail[0])
    ensures Parameters("$" + d + tail) != [] && Parameters("$" + d + tail)[0] > Value(d)
  {
    DigitRunPast(d, tail);
    FirstParameter(d + tail);
    assert "$" + d + tail == "$" + (d + tail);
  }

  lemma PlaceholderInOrder(q: string, n: nat)
    requires q != "" && q[0] == '?'
    ensures InOrder(q, n) <==> (|q| > 1 ==> !IsDigit(q[1])) && InOrder(q[1..], n + 1)
  {
    var d, tail := Decimal(n + 1), RebindFrom(q[1..], n + 1);
    ValueOfDecimal(n + 1);
    if q[1..] != "" {
      RebindHead(q[1..], n + 1);
    }
    CountStep(n, Placeholders(q[1..]), Parameters(tail));
    if tail != "" && IsDigit(tail[0]) {
      RunsOn(d, tail);
      assert Count(n, Placeholders(q))[0] == n + 1;
    } else {
      ParametersStep(d, tail);
    }
  }

  /** Postgres reads the parameters 1, 2, 3, ... in order exactly when no placeholder is directly
      followed by a digit. */
  lemma {:induction false} ParametersInOrder(q: string, n: nat)
    requires '$' !in q
    ensures Parameters(RebindFrom(q, n)) == Count(n, Placeholders(q)) <==> Separated(q)
    decreases |q|
  {
    if q != "" {
      SeparatedTail(q);
      if q[0] != '?' {
        OtherInOrder(q, n);
        ParametersInOrder(q[1..], n);
      } else {
        PlaceholderInOrder(q, n);
        ParametersInOrder(q[1..], n + 1);
      }
    }
  }

  lemma SeparatedTail(q: string)
    requires q != ""
    ensures Separated(q) <==> (q[0] == '?' && |q| > 1 ==> !IsDigit(q[1])) && Separated(q[1..])
  {
    assert forall i | 0 <= i < |q[1..]| :: q[1..][i] == q[i + 1];
    if Separated(q) {
      forall i | 0 <= i < |q[1..]| - 1 && q[1..][i] == '?'
        ensures !IsDigit(q[1..][i + 1])
      {
        assert q[i + 1] == '?' && q[1..][i + 1] == q[i + 2];
      }
    }
    if Separated(q[1..]) && (q[0] == '?' && |q| > 1 ==> !IsDigit(q[1])) {
      forall i | 0 <= i < |q| - 1 && q[i] == '?'
        ensures !IsDigit(q[i + 1])
      {
        if i > 0 {
          assert q[1..][i - 1] == '?' && q[1..][i] == q[i + 1];
        }
      }
    }
  }
}
