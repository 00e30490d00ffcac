/** The observer on the guest's output stream (internal/console/modefilter.go). */
module ModeFilter {
  import opened Wrappers

  const ESC: byte := 0x1b
  const MAX_PARTIAL_ESCAPE := 64
  /** One second, in the clock's nanoseconds. */
  const MAX_CURSOR_HOLD := 1_000_000_000

  /** The bytes of an ASCII string. */
  function Bytes(s: string): seq<byte>
    requires forall i | 0 <= i < |s| :: s[i] < 128 as char
  {
    seq(|s|, i requires 0 <= i < |s| => s[i] as byte)
  }

  // ----- Framing of escape sequences (section 5.4 of ECMA-48) -----

  /** Parameter bytes 0x30-0x3F and intermediate bytes 0x20-0x2F. */
  predicate Continues(c: byte) {
    0x20 <= c <= 0x3f
  }

  /** Where the first byte from `i` on that does not continue a control sequence is. */
  function FinalAt(b: seq<byte>, i: nat): (k: nat)
    requires i <= |b|
    ensures i <= k <= |b| && (k < |b| ==> !Continues(b[k])) && (forall j | i <= j < k :: Continues(b[j]))
    decreases |b| - i
  {
    if i == |b| || !Continues(b[i]) then i else FinalAt(b, i + 1)
  }

  /** The length of the sequence at the start of `b`, when it is complete. */
  function EscapeLength(b: seq<byte>): (n: Option<nat>)
    ensures n.Some? ==> 2 <= n.value <= |b|
  {
    if |b| < 2 then None
    else if b[1] != '[' as byte then Some(2)
    else
      var k := FinalAt(b, 2);
      if k == |b| then None else Some(k + 1)
  }

  /** A sequence ends with its second byte, or, when that is "[", with the first byte behind it that is
      not in 0x20 to 0x3f; otherwise it is not complete. */
  method ScanEscape(b: seq<byte>) returns (n: Option<nat>)
    ensures n == EscapeLength(b)
    ensures match n
            case None => |b| < 2 || (b[1] == '[' as byte && forall i | 2 <= i < |b| :: 0x20 <= b[i] <= 0x3f)
            case Some(k) =>
              && 2 <= k <= |b|
              && if b[1] != '[' as byte then k == 2
                 else k > 2 && !(0x20 <= b[k - 1] <= 0x3f) && forall i | 2 <= i < k - 1 :: 0x20 <= b[i] <= 0x3f
  {
    if |b| < 2 {
      return None;
    }
    if b[1] != '[' as byte {
      return Some(2);
    }
    for i := 2 to |b|
      invariant FinalAt(b, 2) == FinalAt(b, i)
    {
      if !Continues(b[i]) {
        return Some(i + 1);
      }
    }
    return None;
  }

  // ----- Classification of a complete sequence -----

  predicate Csi(s: seq<byte>) {
    |s| >= 3 && s[1] == '[' as byte
  }

  function Split(s: seq<byte>): (parts: seq<seq<byte>>)
    ensures |parts| > 0
  {
    if s == [] then [[]]
    else
      var rest := Split(s[1..]);
      if s[0] == ';' as byte then [[]] + rest else [[s[0]] + rest[0]] + rest[1..]
  }

  /** Some parameter after a private marker is one of `wanted`; the marker carries over ";". */
  predicate HasPrivate(params: seq<seq<byte>>, marked: bool, wanted: set<seq<byte>>) {
    params != [] &&
    var marks := params[0] != [] && params[0][0] == '?' as byte;
    var number := if marks then params[0][1..] else params[0];
    ((marked || marks) && number in wanted) || HasPrivate(params[1..], marked || marks, wanted)
  }

  /** The direction of a set/reset sequence that names one of `wanted`. */
  function PrivateMode(s: seq<byte>, wanted: set<seq<byte>>): Option<bool> {
    if |s| < 4 || s[1] != '[' as byte || s[|s| - 1] !in {'h' as byte, 'l' as byte} then None
    else if HasPrivate(Split(s[2..|s| - 1]), false, wanted) then Some(s[|s| - 1] == 'h' as byte)
    else None
  }

  const ALT_SCREEN_MODES: set<seq<byte>> := {Bytes("47"), Bytes("1047"), Bytes("1049")}
  const SAVING_ALT_SCREEN_MODES: set<seq<byte>> := {Bytes("1049")}
  const ORIGIN_MODES: set<seq<byte>> := {Bytes("6")}

  function ParseAltScreen(s: seq<byte>): Option<bool> {
    PrivateMode(s, ALT_SCREEN_MODES)
  }

  function ParseOriginMode(s: seq<byte>): Option<bool> {
    PrivateMode(s, ORIGIN_MODES)
  }

  predicate IsSetScrollRegion(s: seq<byte>) {
    Csi(s) && s[|s| - 1] == 'r' as byte && s[2] != '?' as byte
  }

  predicate IsFullReset(s: seq<byte>) {
    s == [ESC, 'c' as byte]
  }

  predicate IsCursorSave(s: seq<byte>) {
    s == [ESC, '7' as byte] || (|s| == 3 && Csi(s) && s[2] == 's' as byte)
  }

  predicate IsCursorRestore(s: seq<byte>) {
    s == [ESC, '8' as byte] || (|s| == 3 && Csi(s) && s[2] == 'u' as byte)
  }

  predicate ErasesBarRow(s: seq<byte>) {
    Csi(s) && s[|s| - 1] == 'J' as byte
    && s[2..|s| - 1] in {Bytes(""), Bytes("0"), Bytes("2"), Bytes("3")}
  }

  // ----- The observer as a value -----

  datatype Modes = Modes(
    altScreen: bool, reset: bool, cursorSaved: bool, cursorSavedAt: int,
    regionLost: bool, originMode: bool, leftAltScreen: bool)

  /** The modes and the carried incomplete sequence. */
  datatype Observer = Observer(modes: Modes, partial: seq<byte>)

  const NEW_OBSERVER := Observer(Modes(false, false, false, 0, false, false, false), [])

  /** New modes, and whether the bar must redraw. */
  datatype Applied = Applied(modes: Modes, redraw: bool)

  /** One complete sequence. */
  function Apply(m: Modes, s: seq<byte>, now: int): Applied {
    var alt := ParseAltScreen(s);
    if alt.Some? then
      if alt.value == m.altScreen then Applied(m, false)
      else Applied(m.(altScreen := alt.value, leftAltScreen := m.leftAltScreen || !alt.value), true)
    else if IsSetScrollRegion(s) then Applied(m.(regionLost := true), true)
    else if IsFullReset(s) then
      Applied(m.(reset := true, altScreen := false, cursorSaved := false, originMode := false), true)
    else if IsCursorSave(s) then Applied(m.(cursorSaved := true, cursorSavedAt := now), false)
    else if IsCursorRestore(s) then Applied(m.(cursorSaved := false), m.cursorSaved)
    else if ErasesBarRow(s) then Applied(m, true)
    else
      var origin := ParseOriginMode(s);
      if origin.Some? && origin.value != m.originMode then Applied(m.(originMode := origin.value), true)
      else Applied(m, false)
  }

  /** A buffer cut into single bytes and complete escape sequences, and the incomplete sequence it
      ends in. */
  datatype Frames = Frames(items: seq<seq<byte>>, tail: seq<byte>)

  function Front(item: seq<byte>, f: Frames): Frames {
    Frames([item] + f.items, f.tail)
  }

  /** `g` continues where `f` ended. */
  function Glue(f: Frames, g: Frames): Frames {
    Frames(f.items + g.items, g.tail)
  }

  lemma GlueFront(item: seq<byte>, f: Frames, g: Frames)
    ensures Glue(Front(item, f), g) == Front(item, Glue(f, g))
  {
    assert [item] + f.items + g.items == [item] + (f.items + g.items);
  }

  function FramesOf(buf: seq<byte>): (r: Frames)
    ensures |r.tail| <= |buf|
    decreases |buf|
  {
    if buf == [] then Frames([], [])
    else if buf[0] != ESC then
      var rest := FramesOf(buf[1..]);
      Front([buf[0]], rest)
    else
      var n := EscapeLength(buf);
      if n.None? then Frames([], buf)
      else
        var rest := FramesOf(buf[n.value..]);
        Front(buf[..n.value], rest)
  }

  /** Applying a run of items, first to last. */
  function ApplyAll(m: Modes, items: seq<seq<byte>>, now: int): Applied {
    if items == [] then Applied(m, false)
    else
      var before := ApplyAll(m, items[..|items| - 1], now);
      var last := Apply(before.modes, items[|items| - 1], now);
      Applied(last.modes, before.redraw || last.redraw)
  }

  /** The items a chunk completes, the carried prefix included. */
  function ItemsOf(o: Observer, p: seq<byte>): seq<seq<byte>> {
    FramesOf(o.partial + p).items
  }

  /** The incomplete tail once `p` has been seen, before the bound is applied. */
  function Pending(o: Observer, p: seq<byte>): seq<byte> {
    FramesOf(o.partial + p).tail
  }

  datatype Observation = Observation(observer: Observer, redraw: bool)

  /** Observe: scan the carried prefix with the new bytes, keep a plausible tail. */
  function ObserveOf(o: Observer, p: seq<byte>, now: int): Observation {
    var a := ApplyAll(o.modes, ItemsOf(o, p), now);
    Observation(Observer(a.modes, if |Pending(o, p)| <= MAX_PARTIAL_ESCAPE then Pending(o, p) else []), a.redraw)
  }

  function CursorSavedOf(m: Modes, now: int): bool {
    m.cursorSaved && now - m.cursorSavedAt < MAX_CURSOR_HOLD
  }

  /** CursorSaved gives up on a hold that has lasted too long. */
  function Released(m: Modes, now: int): Modes {
    m.(cursorSaved := CursorSavedOf(m, now))
  }

  // ----- Chunk independence -----

  lemma {:induction false} FinalAtExtends(b: seq<byte>, c: seq<byte>, i: nat)
    requires i <= |b| && FinalAt(b, i) < |b|
    ensures FinalAt(b + c, i) == FinalAt(b, i)
    decreases |b| - i
  {
    if Continues(b[i]) {
      FinalAtExtends(b, c, i + 1);
    }
  }

  /** A complete sequence stays the same sequence when more bytes follow. */
  lemma CompleteExtends(b: seq<byte>, c: seq<byte>)
    requires EscapeLength(b).Some?
    ensures EscapeLength(b + c) == EscapeLength(b)
  {
    if b[1] == '[' as byte {
      FinalAtExtends(b, c, 2);
    }
  }

  /** Cutting a stream in two parts, the second with the tail of the first in front, is cutting it whole. */
  lemma {:induction false} FramesSplit(a: seq<byte>, b: seq<byte>)
    ensures FramesOf(a + b) == Glue(FramesOf(a), FramesOf(FramesOf(a).tail + b))
    decreases |a|
  {
    if a == [] {
      assert a + b == b && [] + b == b;
      assert [] + FramesOf(b).items == FramesOf(b).items;
    } else if a[0] != ESC {
      assert (a + b)[0] == a[0] && (a + b)[1..] == a[1..] + b;
      FramesSplit(a[1..], b);
      GlueFront([a[0]], FramesOf(a[1..]), FramesOf(FramesOf(a[1..]).tail + b));
    } else if EscapeLength(a).Some? {
      var n := EscapeLength(a).value;
      CompleteExtends(a, b);
      assert (a + b)[0] == a[0] && (a + b)[..n] == a[..n] && (a + b)[n..] == a[n..] + b;
      FramesSplit(a[n..], b);
      GlueFront(a[..n], FramesOf(a[n..]), FramesOf(FramesOf(a[n..]).tail + b));
    } else {
      assert [] + FramesOf(a + b).items == FramesOf(a + b).items;
    }
  }

  lemma {:induction false} ApplyAppend(m: Modes, xs: seq<seq<byte>>, ys: seq<seq<byte>>, now: int)
    ensures var a := ApplyAll(m, xs, now);
            var b := ApplyAll(a.modes, ys, now);
            ApplyAll(m, xs + ys, now) == Applied(b.modes, a.redraw || b.redraw)
    decreases |ys|
  {
    if ys == [] {
      assert xs + ys == xs;
    } else {
      var k := |ys| - 1;
      assert (xs + ys)[..|xs + ys| - 1] == xs + ys[..k];
      ApplyAppend(m, xs, ys[..k], now);
    }
  }

  function Concat(chunks: seq<seq<byte>>): seq<byte> {
    if chunks == [] then [] else chunks[0] + Concat(chunks[1..])
  }

  /** Feeding the chunks one after the other; redraw answers are OR-ed. */
  function ObserveAll(o: Observer, chunks: seq<seq<byte>>, now: int): Observation
    decreases |chunks|
  {
    if chunks == [] then Observation(o, false)
    else
      var first := ObserveOf(o, chunks[0], now);
      var rest := ObserveAll(first.observer, chunks[1..], now);
      Observation(rest.observer, first.redraw || rest.redraw)
  }

  /** No chunk before the last ends in an incomplete sequence longer than the bound. */
  predicate TailsFit(o: Observer, chunks: seq<seq<byte>>, now: int)
    decreases |chunks|
  {
    |chunks| <= 1
    || (|Pending(o, chunks[0])| <= MAX_PARTIAL_ESCAPE
        && TailsFit(ObserveOf(o, chunks[0], now).observer, chunks[1..], now))
  }

  /** Observing `p` and then `q` is observing them at once. */
  ghost predicate TwoAsOne(o: Observer, p: seq<byte>, q: seq<byte>, now: int) {
    var first := ObserveOf(o, p, now);
    var second := ObserveOf(first.observer, q, now);
    ObserveOf(o, p + q, now) == Observation(second.observer, first.redraw || second.redraw)
  }

  /** Two chunks are one when the first leaves a tail within the bound. */
  lemma ObserveTwo(o: Observer, p: seq<byte>, q: seq<byte>, now: int)
    requires |Pending(o, p)| <= MAX_PARTIAL_ESCAPE
    ensures TwoAsOne(o, p, q, now)
  {
    var o1 := ObserveOf(o, p, now).observer;
    FramesSplit(o.partial + p, q);
    assert o.partial + (p + q) == o.partial + p + q;
    ApplyAppend(o.modes, ItemsOf(o, p), ItemsOf(o1, q), now);
    assert ItemsOf(o, p + q) == ItemsOf(o, p) + ItemsOf(o1, q) && Pending(o, p + q) == Pending(o1, q);
  }

  /** Any split of a stream whose incomplete tails stay within the bound is observed like the whole:
      same modes, latches and carried tail, and the OR of the redraw answers. */
  lemma {:induction false} ChunkIndependence(o: Observer, chunks: seq<seq<byte>>, now: int)
    requires chunks != [] && TailsFit(o, chunks, now)
    ensures ObserveAll(o, chunks, now) == ObserveOf(o, Concat(chunks), now)
    decreases |chunks|
  {
    if |chunks| == 1 {
      assert Concat(chunks) == chunks[0] + [] == chunks[0];
      assert !ObserveAll(ObserveOf(o, chunks[0], now).observer, [], now).redraw;
    } else {
      ChunkIndependence(ObserveOf(o, chunks[0], now).observer, chunks[1..], now);
      ObserveTwo(o, chunks[0], Concat(chunks[1..]), now);
    }
  }

  // ----- The bound is needed: beyond it some continuation is missed -----

  /** A sequence of which the final byte is still to come. */
  predicate Incomplete(t: seq<byte>) {
    t == [] || (t[0] == ESC && EscapeLength(t).None?)
  }

  lemma {:induction false} TailIncomplete(buf: seq<byte>)
    ensures Incomplete(FramesOf(buf).tail)
    decreases |buf|
  {
    if buf != [] && buf[0] != ESC {
      TailIncomplete(buf[1..]);
    } else if buf != [] && EscapeLength(buf).Some? {
      TailIncomplete(buf[EscapeLength(buf).value..]);
    }
  }

  lemma IncompleteShape(t: seq<byte>)
    requires Incomplete(t) && |t| >= 2
    ensures t[0] == ESC && t[1] == '[' as byte && forall i | 2 <= i < |t| :: Continues(t[i])
  {
    assert FinalAt(t, 2) == |t|;
  }

  lemma {:induction false} FinalAtEnd(b: seq<byte>, c: byte, i: nat)
    requires i <= |b| && (forall j | i <= j < |b| :: Continues(b[j])) && !Continues(c)
    ensures FinalAt(b + [c], i) == |b|
    decreases |b| - i
  {
    if i < |b| {
      assert (b + [c])[i] == b[i];
      FinalAtEnd(b, c, i + 1);
    } else {
      assert (b + [c])[i] == c;
    }
  }

  lemma {:induction false} SplitOne(y: seq<byte>)
    requires ';' as byte !in y
    ensures Split(y) == [y]
    decreases |y|
  {
    if y != [] {
      SplitOne(y[1..]);
      assert [y[0]] + y[1..] == y;
    }
  }

  lemma {:induction false} SplitLast(x: seq<byte>, y: seq<byte>)
    requires ';' as byte !in y
    ensures Split(x + [';' as byte] + y) == Split(x) + [y]
    decreases |x|
  {
    var all := x + [';' as byte] + y;
    if x == [] {
      assert all[0] == ';' as byte && all[1..] == y;
      SplitOne(y);
    } else {
      assert all[0] == x[0] && all[1..] == x[1..] + [';' as byte] + y;
      SplitLast(x[1..], y);
      var rest := Split(x[1..]);
      assert (rest + [y])[0] == rest[0] && (rest + [y])[1..] == rest[1..] + [y];
    }
  }

  const ALT_47: seq<byte> := ['?' as byte, '4' as byte, '7' as byte]

  /** Whatever parameters came before, a last parameter "?47" names an alternate screen. */
  lemma {:induction false} LastParameterCounts(ps: seq<seq<byte>>, marked: bool)
    ensures HasPrivate(ps + [ALT_47], marked, ALT_SCREEN_MODES)
    decreases |ps|
  {
    if ps == [] {
      assert ALT_47[1..] == Bytes("47");
    } else {
      var marks := ps[0] != [] && ps[0][0] == '?' as byte;
      assert (ps + [ALT_47])[0] == ps[0] && (ps + [ALT_47])[1..] == ps[1..] + [ALT_47];
      LastParameterCounts(ps[1..], marked || marks);
    }
  }

  /** Bytes that complete a long tail into a switch to or from the alternate screen. */
  function Completion(on: bool): seq<byte> {
    [';' as byte] + ALT_47 + [if on then 'h' as byte else 'l' as byte]
  }

  lemma CompletionSwitches(t: seq<byte>, on: bool)
    requires |t| >= 2 && t[0] == ESC && t[1] == '[' as byte && forall i | 2 <= i < |t| :: Continues(t[i])
    ensures EscapeLength(t + Completion(on)) == Some(|t + Completion(on)|)
    ensures ParseAltScreen(t + Completion(on)) == Some(on)
  {
    var final := if on then 'h' as byte else 'l' as byte;
    var body := t + ([';' as byte] + ALT_47);
    var s := t + Completion(on);
    assert s == body + [final];
    assert forall i | 2 <= i < |body| :: Continues(body[i]) by {
      assert forall i | |t| <= i < |body| :: body[i] == ([';' as byte] + ALT_47)[i - |t|];
    }
    FinalAtEnd(body, final, 2);
    assert s[2..|s| - 1] == t[2..] + [';' as byte] + ALT_47;
    SplitLast(t[2..], ALT_47);
    LastParameterCounts(Split(t[2..]), false);
  }

  /** Plain bytes change nothing. */
  lemma {:induction false} PlainFrames(buf: seq<byte>)
    requires ESC !in buf
    ensures FramesOf(buf).tail == [] && forall i | 0 <= i < |FramesOf(buf).items| :: |FramesOf(buf).items[i]| == 1
    decreases |buf|
  {
    if buf != [] {
      PlainFrames(buf[1..]);
    }
  }

  lemma {:induction false} PlainApply(m: Modes, items: seq<seq<byte>>, now: int)
    requires forall i | 0 <= i < |items| :: |items[i]| == 1
    ensures ApplyAll(m, items, now) == Applied(m, false)
    decreases |items|
  {
    if items != [] {
      PlainApply(m, items[..|items| - 1], now);
    }
  }

  /** A chunk may be observed on its own, whatever follows it, exactly when the incomplete sequence
      it ends in is within the bound. */
  lemma SplitPointIsSafe(o: Observer, p: seq<byte>, now: int)
    ensures (forall q :: TwoAsOne(o, p, q, now)) <==> |Pending(o, p)| <= MAX_PARTIAL_ESCAPE
  {
    if |Pending(o, p)| <= MAX_PARTIAL_ESCAPE {
      forall q
        ensures TwoAsOne(o, p, q, now)
      {
        ObserveTwo(o, p, q, now);
      }
    } else {
      var q := Completion(!ObserveOf(o, p, now).observer.modes.altScreen);
      SplitMissesSwitch(o, p, q, now);
      SwitchSeenWhole(o, p, q, now);
      assert !TwoAsOne(o, p, q, now);
    }
  }

  /** After a dropped tail its completion is plain text. */
  lemma SplitMissesSwitch(o: Observer, p: seq<byte>, q: seq<byte>, now: int)
    requires |Pending(o, p)| > MAX_PARTIAL_ESCAPE && ESC !in q
    ensures ObserveOf(ObserveOf(o, p, now).observer, q, now).observer.modes == ObserveOf(o, p, now).observer.modes
  {
    assert [] + q == q;
    PlainFrames(q);
    PlainApply(ObserveOf(o, p, now).observer.modes, FramesOf(q).items, now);
  }

  /** Seen whole, it switches the screen. */
  lemma SwitchSeenWhole(o: Observer, p: seq<byte>, q: seq<byte>, now: int)
    requires |Pending(o, p)| > MAX_PARTIAL_ESCAPE
    requires q == Completion(!ObserveOf(o, p, now).observer.modes.altScreen)
    ensures ObserveOf(o, p + q, now).observer.modes.altScreen == !ObserveOf(o, p, now).observer.modes.altScreen
  {
    var tail, m := Pending(o, p), ObserveOf(o, p, now).observer.modes;
    TailIncomplete(o.partial + p);
    IncompleteShape(tail);
    CompletionSwitches(tail, !m.altScreen);
    WholeSequence(tail + q);
    FramesSplit(o.partial + p, q);
    assert o.partial + (p + q) == o.partial + p + q;
    ApplyAppend(o.modes, ItemsOf(o, p), [tail + q], now);
    assert [tail + q][..0] == [];
    assert ApplyAll(m, [tail + q], now).modes == Apply(m, tail + q, now).modes;
  }

  lemma WholeSequence(s: seq<byte>)
    requires s != [] && s[0] == ESC && EscapeLength(s) == Some(|s|)
    ensures FramesOf(s) == Frames([s], [])
  {
    assert s[..|s|] == s && s[|s|..] == [];
  }

  /** The carry never exceeds the bound. */
  lemma CarryIsBounded(o: Observer, p: seq<byte>, now: int)
    ensures |ObserveOf(o, p, now).observer.partial| <= MAX_PARTIAL_ESCAPE
  {
  }

  // ----- The observer as the program has it -----

  // One turn of the loop of Observe, from position `i` of the buffer.

  lemma PlainStep(all: Frames, buf: seq<byte>, i: nat, done: seq<seq<byte>>)
    requires i < |buf| && buf[i] != ESC && all == After(done, buf, i)
    ensures all == After(done + [[buf[i]]], buf, i + 1)
  {
    var b := buf[i..];
    assert b[0] == buf[i] && b[1..] == buf[i + 1..];
    GlueSnoc(done, [b[0]], FramesOf(b[1..]));
  }

  lemma EscapeStep(all: Frames, buf: seq<byte>, i: nat, done: seq<seq<byte>>, n: nat)
    requires i < |buf| && buf[i] == ESC && EscapeLength(buf[i..]) == Some(n) && all == After(done, buf, i)
    ensures all == After(done + [buf[i..i + n]], buf, i + n)
  {
    var b := buf[i..];
    assert b[0] == buf[i] && b[..n] == buf[i..i + n] && b[n..] == buf[i + n..];
    GlueSnoc(done, b[..n], FramesOf(b[n..]));
  }

  lemma IncompleteStep(all: Frames, buf: seq<byte>, i: nat, done: seq<seq<byte>>)
    requires i < |buf| && buf[i] == ESC && EscapeLength(buf[i..]).None? && all == After(done, buf, i)
    ensures all == Frames(done, buf[i..])
  {
    assert done + [] == done;
  }

  lemma GlueSnoc(done: seq<seq<byte>>, item: seq<byte>, f: Frames)
    ensures Glue(Frames(done, []), Front(item, f)) == Glue(Frames(done + [item], []), f)
  {
    assert done + ([item] + f.items) == done + [item] + f.items;
  }

  lemma EndStep(buf: seq<byte>, done: seq<seq<byte>>)
    ensures After(done, buf, |buf|) == Frames(done, []) && After([], buf, 0) == FramesOf(buf)
  {
    assert done + [] == done && buf[0..] == buf && [] + FramesOf(buf).items == FramesOf(buf).items;
  }

  /** The frames of a buffer of which `done` lies before position `i`. */
  function After(done: seq<seq<byte>>, buf: seq<byte>, i: nat): Frames
    requires i <= |buf|
  {
    Glue(Frames(done, []), FramesOf(buf[i..]))
  }

  lemma ApplyOne(m: Modes, done: seq<seq<byte>>, item: seq<byte>, now: int)
    ensures var a := ApplyAll(m, done, now);
            var b := Apply(a.modes, item, now);
            ApplyAll(m, done + [item], now) == Applied(b.modes, a.redraw || b.redraw)
    ensures |item| == 1 ==> ApplyAll(m, done + [item], now) == ApplyAll(m, done, now)
  {
    assert (done + [item])[..|done|] == done;
  }

  class Filter {
    var altScreen: bool
    var partial: seq<byte>
    var reset: bool
    var cursorSaved: bool
    var cursorSavedAt: int
    var regionLost: bool
    var originMode: bool
    var leftAltScreen: bool

    function ModesNow(): Modes
      reads this
    {
      Modes(altScreen, reset, cursorSaved, cursorSavedAt, regionLost, originMode, leftAltScreen)
    }

    function State(): Observer
      reads this
    {
      Observer(ModesNow(), partial)
    }

    constructor ()
      ensures State() == NEW_OBSERVER
    {
      altScreen, partial, reset, cursorSaved, cursorSavedAt := false, [], false, false, 0;
      regionLost, originMode, leftAltScreen := false, false, false;
    }

    method TakeReset() returns (was: bool)
      modifies this
      ensures was == old(reset) && State() == old(State()).(modes := old(ModesNow()).(reset := false))
    {
      was, reset := reset, false;
    }

    method TakeRegionLost() returns (was: bool)
      modifies this
      ensures was == old(regionLost) && State() == old(State()).(modes := old(ModesNow()).(regionLost := false))
    {
      was, regionLost := regionLost, false;
    }

    method TakeLeftAltScreen() returns (was: bool)
      modifies this
      ensures was == old(leftAltScreen) && State() == old(State()).(modes := old(ModesNow()).(leftAltScreen := false))
    {
      was, leftAltScreen := leftAltScreen, false;
    }

    method CursorSaved(now: int) returns (held: bool)
      modifies this
      ensures held == CursorSavedOf(old(ModesNow()), now)
      ensures held <==> old(cursorSaved) && now - old(cursorSavedAt) < 1_000_000_000
      ensures State() == old(State()).(modes := Released(old(ModesNow()), now))
    {
      if !cursorSaved {
        return false;
      }
      if now - cursorSavedAt >= MAX_CURSOR_HOLD {
        cursorSaved := false;
        return false;
      }
      return true;
    }

    method ApplySequence(s: seq<byte>, now: int) returns (redraw: bool)
      modifies this
      ensures Applied(ModesNow(), redraw) == Apply(old(ModesNow()), s, now) && partial == old(partial)
    {
      redraw := false;
      var alt := ParseAltScreen(s);
      if alt.Some? {
        if alt.value != altScreen {
          if !alt.value {
            leftAltScreen := true;
          }
          altScreen := alt.value;
          redraw := true;
        }
      } else if IsSetScrollRegion(s) {
        regionLost := true;
        redraw := true;
      } else if IsFullReset(s) {
        reset := true;
        altScreen, cursorSaved, originMode := false, false, false;
        redraw := true;
      } else if IsCursorSave(s) {
        cursorSaved, cursorSavedAt := true, now;
      } else if IsCursorRestore(s) {
        if cursorSaved {
          cursorSaved := false;
          redraw := true;
        }
      } else if ErasesBarRow(s) {
        redraw := true;
      } else {
        var origin := ParseOriginMode(s);
        if origin.Some? && origin.value != originMode {
          originMode := origin.value;
          redraw := true;
        }
      }
    }

    /** Acts on the escape sequence at position `i`, when it is complete; `done` are the items before it. */
    method TakeSequence(buf: seq<byte>, i: nat, now: int, redraw: bool,
                        ghost before: Modes, ghost done: seq<seq<byte>>, ghost all: Frames)
      returns (n: nat, redraw': bool, ghost done': seq<seq<byte>>)
      requires i < |buf| && buf[i] == ESC && Applied(ModesNow(), redraw) == ApplyAll(before, done, now)
      requires all == After(done, buf, i)
      modifies this
      ensures partial == old(partial) && Applied(ModesNow(), redraw') == ApplyAll(before, done', now)
      ensures n == 0 ==> all == Frames(done', buf[i..])
      ensures n > 0 ==> i + n <= |buf| && all == After(done', buf, i + n)
    {
      n, done', redraw' := 0, done, redraw;
      n, done' := NextSequence(buf, i, done, all);
      if n > 0 {
        redraw' := Feed(buf[i..i + n], now, redraw, before, done);
      }
    }

    /** The length of the escape sequence at position `i`, or 0 when it is not complete. */
    method NextSequence(buf: seq<byte>, i: nat, ghost done: seq<seq<byte>>, ghost all: Frames)
      returns (n: nat, ghost done': seq<seq<byte>>)
      requires i < |buf| && buf[i] == ESC && all == After(done, buf, i)
      ensures n == 0 ==> done' == done && all == Frames(done', buf[i..])
      ensures n > 0 ==> i + n <= |buf| && done' == done + [buf[i..i + n]] && all == After(done', buf, i + n)
    {
      var length := ScanEscape(buf[i..]);
      if length.None? {
        IncompleteStep(all, buf, i, done);
        return 0, done;
      }
      n := length.value;
      EscapeStep(all, buf, i, done, n);
      done' := done + [buf[i..i + n]];
    }

    /** Acts on one more sequence after those in `done`. */
    method Feed(s: seq<byte>, now: int, redraw: bool, ghost before: Modes, ghost done: seq<seq<byte>>)
      returns (redraw': bool)
      requires Applied(ModesNow(), redraw) == ApplyAll(before, done, now)
      modifies this
      ensures partial == old(partial) && Applied(ModesNow(), redraw') == ApplyAll(before, done + [s], now)
    {
      ApplyOne(before, done, s, now);
      var changed := ApplySequence(s, now);
      redraw' := redraw || changed;
    }

    /** Keeps an incomplete sequence for the next chunk, if it is plausible. */
    method Carry(rest: seq<byte>)
      requires partial == []
      modifies this`partial
      ensures partial == if |rest| <= MAX_PARTIAL_ESCAPE then rest else []
    {
      if |rest| <= MAX_PARTIAL_ESCAPE {
        partial := rest;
      }
    }

    /** The loop of Observe over the joined buffer. */
    method ScanBuffer(buf: seq<byte>, now: int) returns (redraw: bool)
      requires partial == []
      modifies this
      ensures Applied(ModesNow(), redraw) == ApplyAll(old(ModesNow()), FramesOf(buf).items, now)
      ensures partial == if |FramesOf(buf).tail| <= MAX_PARTIAL_ESCAPE then FramesOf(buf).tail else []
    {
      redraw := false;
      ghost var before, done, all := ModesNow(), [], FramesOf(buf);
      var i := 0;
      EndStep(buf, []);
      while i < |buf|
        invariant i <= |buf| && partial == []
        invariant all == After(done, buf, i)
        invariant Applied(ModesNow(), redraw) == ApplyAll(before, done, now)
        decreases |buf| - i
      {
        if buf[i] != ESC {
          PlainStep(all, buf, i, done);
          ApplyOne(before, done, [buf[i]], now);
          done, i := done + [[buf[i]]], i + 1;
        } else {
          var n;
          n, redraw, done := TakeSequence(buf, i, now, redraw, before, done, all);
          if n == 0 {
            Carry(buf[i..]);
            return;
          }
          i := i + n;
        }
      }
      EndStep(buf, done);
    }

    method Observe(p: seq<byte>, now: int) returns (redraw: bool)
      modifies this
      ensures Observation(State(), redraw) == ObserveOf(old(State()), p, now)
    {
      var buf := p;
      if |partial| > 0 {
        buf := partial + p;
        partial := [];
      }
      assert buf == old(partial) + p;
      redraw := ScanBuffer(buf, now);
    }
  }
}
