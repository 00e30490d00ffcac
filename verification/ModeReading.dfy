/** Which modes a set or reset sequence names, said of its parameters as they are written. */
module ModeReading {
  import opened Wrappers
  import opened ModeFilter

  /** `ps[a..b]` is one parameter: between semicolons or the ends, and without any. */
  predicate Parameter(ps: seq<byte>, a: nat, b: nat) {
    && a <= b <= |ps|
    && (a == 0 || ps[a - 1] == ';' as byte) && (b == |ps| || ps[b] == ';' as byte)
    && forall i | a <= i < b :: ps[i] != ';' as byte
  }

  /** The private marker stands at the front of a parameter, no later than the one at `a`. */
  predicate MarkedBy(ps: seq<byte>, a: nat) {
    exists i | 0 <= i <= a && i < |ps| :: ps[i] == '?' as byte && (i == 0 || ps[i - 1] == ';' as byte)
  }

  predicate NamesAt(ps: seq<byte>, marked: bool, texts: set<seq<byte>>, a: nat, b: nat) {
    Parameter(ps, a, b) && (marked || MarkedBy(ps, a)) && ps[a..b] in texts
  }

  /** Some parameter after a marker, or with one of its own, is one of the texts. */
  ghost predicate Names(ps: seq<byte>, marked: bool, texts: set<seq<byte>>) {
    exists a: nat, b: nat :: NamesAt(ps, marked, texts, a, b)
  }

  /** A number with or without the marker in front. */
  predicate Spelling(texts: set<seq<byte>>, wanted: set<seq<byte>>) {
    && (forall w | w in wanted :: w != [] && w[0] != '?' as byte && w in texts && ['?' as byte] + w in texts)
    && (forall t | t in texts :: t in wanted || (t != [] && t[0] == '?' as byte && t[1..] in wanted))
  }

  lemma {:induction false} SplitFirst(ps: seq<byte>, k: nat)
    requires Parameter(ps, 0, k)
    ensures Split(ps) == if k == |ps| then [ps] else [ps[..k]] + Split(ps[k + 1..])
    decreases k
  {
    if k > 0 {
      assert forall i | 0 <= i < k - 1 :: ps[1..][i] == ps[i + 1];
      SplitFirst(ps[1..], k - 1);
      assert ps[1..][..k - 1] == ps[1..k] && [ps[0]] + ps[1..k] == ps[..k];
      assert k == |ps| ==> [ps[0]] + ps[1..] == ps;
      assert k < |ps| ==> ps[1..][k..] == ps[k + 1..];
    }
  }

  lemma {:induction false} FirstParameter(ps: seq<byte>) returns (k: nat)
    ensures Parameter(ps, 0, k)
  {
    k := 0;
    while k < |ps| && ps[k] != ';' as byte
      invariant k <= |ps| && forall i | 0 <= i < k :: ps[i] != ';' as byte
    {
      k := k + 1;
    }
  }

  /** The parameters are the first and those of the rest. */
  lemma ParametersSplit(ps: seq<byte>, k: nat, a: nat, b: nat)
    requires Parameter(ps, 0, k)
    ensures Parameter(ps, a, b) && a == 0 ==> b == k
    ensures Parameter(ps, a, b) && a > 0 ==> k < |ps| && a >= k + 1 && Parameter(ps[k + 1..], a - k - 1, b - k - 1)
    ensures k < |ps| && Parameter(ps[k + 1..], a, b) ==> Parameter(ps, a + k + 1, b + k + 1)
  {
    if k < |ps| {
      var rest := ps[k + 1..];
      assert forall i | 0 <= i < |rest| :: rest[i] == ps[i + k + 1];
    }
  }

  predicate Starts(ps: seq<byte>) {
    ps != [] && ps[0] == '?' as byte
  }

  lemma MarksSplit(ps: seq<byte>, k: nat, a: nat)
    requires Parameter(ps, 0, k) && k < |ps|
    ensures MarkedBy(ps, a + k + 1) <==> Starts(ps[..k]) || MarkedBy(ps[k + 1..], a)
  {
    var rest := ps[k + 1..];
    if MarkedBy(rest, a) {
      var i :| 0 <= i <= a && i < |rest| && rest[i] == '?' as byte && (i == 0 || rest[i - 1] == ';' as byte);
      assert ps[i + k + 1] == '?' as byte;
    }
    if Starts(ps[..k]) {
      assert ps[0] == '?' as byte;
    }
    if MarkedBy(ps, a + k + 1) {
      var i :| 0 <= i <= a + k + 1 && i < |ps| && ps[i] == '?' as byte && (i == 0 || ps[i - 1] == ';' as byte);
      if i > k {
        assert rest[i - k - 1] == '?' as byte;
      }
    }
  }

  lemma NamesFirst(ps: seq<byte>, marked: bool, texts: set<seq<byte>>, k: nat)
    requires Parameter(ps, 0, k)
    ensures NamesAt(ps, marked, texts, 0, k) <==> (marked || Starts(ps[..k])) && ps[..k] in texts
  {
    assert MarkedBy(ps, 0) <==> Starts(ps);
    assert ps[0..k] == ps[..k];
    if k == 0 && k < |ps| {
      assert ps[0] == ';' as byte;
    }
  }

  lemma SliceTwice(ps: seq<byte>, m: nat, a: nat, b: nat)
    requires m <= |ps| && a <= b <= |ps| - m
    ensures ps[m..][a..b] == ps[a + m..b + m]
  {
  }

  lemma NamesLater(ps: seq<byte>, marked: bool, texts: set<seq<byte>>, k: nat, a: nat, b: nat)
    requires Parameter(ps, 0, k) && a > 0 && NamesAt(ps, marked, texts, a, b)
    ensures k < |ps| && Names(ps[k + 1..], marked || Starts(ps[..k]), texts)
  {
    ParametersSplit(ps, k, a, b);
    MarksSplit(ps, k, a - k - 1);
    SliceTwice(ps, k + 1, a - k - 1, b - k - 1);
    assert NamesAt(ps[k + 1..], marked || Starts(ps[..k]), texts, a - k - 1, b - k - 1);
  }

  lemma NamesEarlier(ps: seq<byte>, marked: bool, texts: set<seq<byte>>, k: nat)
    requires Parameter(ps, 0, k) && k < |ps| && Names(ps[k + 1..], marked || Starts(ps[..k]), texts)
    ensures Names(ps, marked, texts)
  {
    var a: nat, b: nat :| NamesAt(ps[k + 1..], marked || Starts(ps[..k]), texts, a, b);
    ParametersSplit(ps, k, a, b);
    MarksSplit(ps, k, a);
    SliceTwice(ps, k + 1, a, b);
    assert NamesAt(ps, marked, texts, a + k + 1, b + k + 1);
  }

  lemma NamesSplit(ps: seq<byte>, marked: bool, texts: set<seq<byte>>, k: nat)
    requires Parameter(ps, 0, k)
    ensures Names(ps, marked, texts)
       <==> || ((marked || Starts(ps[..k])) && ps[..k] in texts)
            || (k < |ps| && Names(ps[k + 1..], marked || Starts(ps[..k]), texts))
  {
    NamesFirst(ps, marked, texts, k);
    if Names(ps, marked, texts) {
      var a: nat, b: nat :| NamesAt(ps, marked, texts, a, b);
      if a > 0 {
        NamesLater(ps, marked, texts, k, a, b);
      } else {
        ParametersSplit(ps, k, a, b);
      }
    }
    if k < |ps| && Names(ps[k + 1..], marked || Starts(ps[..k]), texts) {
      NamesEarlier(ps, marked, texts, k);
    }
  }

  lemma NumberReads(p: seq<byte>, texts: set<seq<byte>>, wanted: set<seq<byte>>)
    requires Spelling(texts, wanted)
    ensures p in texts <==> (if Starts(p) then p[1..] else p) in wanted
  {
    if Starts(p) {
      assert p == ['?' as byte] + p[1..];
    }
  }

  lemma {:induction false} PrivateNames(ps: seq<byte>, marked: bool, texts: set<seq<byte>>, wanted: set<seq<byte>>)
    requires Spelling(texts, wanted)
    ensures HasPrivate(Split(ps), marked, wanted) <==> Names(ps, marked, texts)
    decreases |ps|
  {
    var k := FirstParameter(ps);
    SplitFirst(ps, k);
    NamesSplit(ps, marked, texts, k);
    NumberReads(ps[..k], texts, wanted);
    assert k == |ps| ==> ps[..k] == ps;
    if k < |ps| {
      PrivateNames(ps[k + 1..], marked || Starts(ps[..k]), texts, wanted);
      assert Split(ps)[1..] == Split(ps[k + 1..]);
    } else {
      assert Split(ps)[1..] == [];
    }
  }

  /** CSI, parameters, and a final h to set or l to reset. */
  predicate Sets(s: seq<byte>, on: bool) {
    |s| >= 4 && s[1] == '[' as byte && s[|s| - 1] == if on then 'h' as byte else 'l' as byte
  }

  lemma ModeNamed(s: seq<byte>, on: bool, texts: set<seq<byte>>, wanted: set<seq<byte>>)
    requires Spelling(texts, wanted)
    ensures PrivateMode(s, wanted) == Some(on) <==> Sets(s, on) && Names(s[2..|s| - 1], false, texts)
  {
    if |s| >= 4 {
      PrivateNames(s[2..|s| - 1], false, texts, wanted);
    }
  }

  const SCREEN_TEXTS := {Bytes("47"), Bytes("1047"), Bytes("1049"), Bytes("?47"), Bytes("?1047"), Bytes("?1049")}
  const SAVING_TEXTS := {Bytes("1049"), Bytes("?1049")}
  const ORIGIN_TEXTS := {Bytes("6"), Bytes("?6")}

  /** The screens are switched exactly by a set or reset whose parameters, at or after the private marker,
      name mode 47, 1047 or 1049, and the cursor is kept by one that names mode 1049. */
  lemma ScreenModes(s: seq<byte>, on: bool)
    ensures ParseAltScreen(s) == Some(on) <==> Sets(s, on) && Names(s[2..|s| - 1], false, SCREEN_TEXTS)
    ensures PrivateMode(s, SAVING_ALT_SCREEN_MODES) == Some(on) <==> Sets(s, on) && Names(s[2..|s| - 1], false, SAVING_TEXTS)
  {
    ScreenSpelling();
    ModeNamed(s, on, SCREEN_TEXTS, ALT_SCREEN_MODES);
    ModeNamed(s, on, SAVING_TEXTS, SAVING_ALT_SCREEN_MODES);
  }

  /** Origin mode by one that names mode 6. */
  lemma OriginModes(s: seq<byte>, on: bool)
    ensures ParseOriginMode(s) == Some(on) <==> Sets(s, on) && Names(s[2..|s| - 1], false, ORIGIN_TEXTS)
  {
    OriginSpelling();
    ModeNamed(s, on, ORIGIN_TEXTS, ORIGIN_MODES);
  }

  lemma ScreenSpelling()
    ensures Spelling(SCREEN_TEXTS, ALT_SCREEN_MODES) && Spelling(SAVING_TEXTS, SAVING_ALT_SCREEN_MODES)
  {
    assert ['?' as byte] + Bytes("47") == Bytes("?47") && Bytes("?47")[1..] == Bytes("47");
    assert ['?' as byte] + Bytes("1047") == Bytes("?1047") && Bytes("?1047")[1..] == Bytes("1047");
    assert ['?' as byte] + Bytes("1049") == Bytes("?1049") && Bytes("?1049")[1..] == Bytes("1049");
  }

  lemma OriginSpelling()
    ensures Spelling(ORIGIN_TEXTS, ORIGIN_MODES)
  {
    assert ['?' as byte] + Bytes("6") == Bytes("?6") && Bytes("?6")[1..] == Bytes("6");
  }
}
