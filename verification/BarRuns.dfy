/** Runs of the bar: guest output, resizes, text changes and repaints in any order. A guest write and
    the observation of it are one step, and so are a change of size and the call that reports it. */
module BarRuns {
  import opened Wrappers
  import opened ModeFilter
  import opened Terminal
  import opened BarLayout
  import opened StatusBar

  /** The bar and the terminal. */
  datatype Sys = Sys(bar: Bar, term: Term)

  datatype Event =
    | GuestWrites(p: seq<byte>, effects: seq<Effect>)
    | Resizes(cols: int, rows: int, bottom: string)
    | SetsText(left: string, right: string)
    | Tick

  /** An effect for each item the terminal recognises. */
  predicate Sized(s: Sys, e: Event) {
    e.GuestWrites? ==> |e.effects| == |GuestFrames(s.term, e.p).items|
  }

  /** What the event does to the terminal before the bar answers. */
  function Before(s: Sys, e: Event): Term
    requires Sized(s, e)
  {
    match e
    case GuestWrites(p, effects) => GuestOutput(s.term, p, effects)
    case Resizes(cols, rows, bottom) => Resized(s.term, cols, rows, bottom)
    case _ => s.term
  }

  /** How the bar answers. */
  function Answer(s: Sys, e: Event, marks: Marks, now: int): Did {
    match e
    case GuestWrites(p, _) => ObserveBarOf(s.bar, p, marks, now)
    case Resizes(cols, rows, _) => ResizeOf(s.bar, cols, rows, now)
    case SetsText(l, r) => Did(s.bar.(left := l, right := r), [])
    case Tick => DrawOf(s.bar, marks, now)
  }

  /** The terminal as the bar's answer finds it. */
  function Heard(s: Sys, e: Event, marks: Marks, now: int): Term
    requires Sized(s, e)
  {
    Interrupted(Before(s, e), Answer(s, e, marks, now).out)
  }

  function Step(s: Sys, e: Event, marks: Marks, now: int): Sys
    requires Sized(s, e)
  {
    var did := Answer(s, e, marks, now);
    Sys(did.bar, Receive(Before(s, e), did.out))
  }

  // ----- What is asked of a run -----

  /** A mode list that names origin mode and an alternate screen is taken for the screen alone. */
  predicate OriginSeen(m: Modes, item: seq<byte>) {
    ParseAltScreen(item).Some? && ParseOriginMode(item) == Some(true) ==> m.originMode
  }

  predicate OriginSeenAt(m: Modes, items: seq<seq<byte>>, i: nat, now: int)
    requires i < |items|
  {
    OriginSeen(ApplyAll(m, items[..i], now).modes, items[i])
  }

  predicate OriginsSeen(m: Modes, items: seq<seq<byte>>, now: int) {
    forall i | 0 <= i < |items| :: OriginSeenAt(m, items, i, now)
  }

  /** The guest interrupts no escape sequence by a control and sets origin mode where it is noticed. */
  predicate Tidy(s: Sys, e: Event, now: int) {
    e.GuestWrites? ==>
      var items := ItemsOf(s.bar.observer, e.p);
      NoneCut(items) && OriginsSeen(s.bar.observer.modes, items, now)
  }

  /** A sequence left unfinished is neither dropped by the observer nor cut off by the bar's answer,
      unless both happen to it. */
  predicate Undivided(s: Sys, e: Event, marks: Marks, now: int)
    requires Sized(s, e)
  {
    var rest := Before(s, e).pending;
    if Answer(s, e, marks, now).out == [] then |rest| <= MAX_PARTIAL_ESCAPE
    else rest == [] || |rest| > MAX_PARTIAL_ESCAPE
  }

  predicate Fits(s: Sys, e: Event, marks: Marks, now: int)
    requires Sized(s, e)
  {
    Tidy(s, e, now) && Undivided(s, e, marks, now)
  }

  // ----- The invariant -----

  predicate BarRegion(b: Bar, t: Term) {
    b.active && !b.hidden && b.rows >= MIN_BAR_ROWS ==> t.region == Region(1, GuestRows(b))
  }

  /** The bar knows the terminal: its size, which screen is shown, whether a row coordinate can be
      relative; and while it is shown its row is reserved. */
  predicate Placed(b: Bar, t: Term) {
    var m := b.observer.modes;
    && t.rows == b.rows && t.cols == b.cols
    && t.cursor == OnScreen(t, t.cursor)
    && t.alt == m.altScreen == b.hidden
    && (t.origin ==> m.originMode)
    && BarRegion(b, t)
  }

  /** Observer and terminal wait for the rest of the same sequence. */
  predicate InStep(b: Bar, t: Term) {
    t.pending == b.observer.partial && Incomplete(t.pending) && |t.pending| <= MAX_PARTIAL_ESCAPE
  }

  predicate Coherent(s: Sys) {
    Placed(s.bar, s.term) && InStep(s.bar, s.term)
  }

  // ----- A run of guest items against the observer -----

  predicate Latched(m: Modes) {
    m.reset || m.regionLost || m.leftAltScreen
  }

  /** Inside a chunk: `m` and `redraw` are what the observer has of the items so far, `t0` is the
      terminal before the chunk. */
  predicate Tracking(t0: Term, t: Term, a: Applied) {
    && t.rows == t0.rows && t.cols == t0.cols
    && t.cursor == OnScreen(t, t.cursor)
    && t.alt == a.modes.altScreen
    && (t.origin ==> a.modes.originMode)
    && (t.alt || Latched(a.modes) || (!t0.alt && t.region == t0.region))
    && (!a.redraw ==> t.alt == t0.alt && t.region == t0.region)
  }

  function NextApplied(a: Applied, item: seq<byte>, now: int): Applied {
    var b := Apply(a.modes, item, now);
    Applied(b.modes, a.redraw || b.redraw)
  }

  /** An item keeps the observer on track exactly when an origin mode it sets is noticed. */
  lemma TrackItem(t0: Term, t: Term, a: Applied, item: seq<byte>, e: Effect, now: int)
    requires Tracking(t0, t, a)
    ensures Tracking(t0, GuestItem(t, item, e), NextApplied(a, item, now)) <==> OriginSeen(a.modes, item)
  {
    if ParseAltScreen(item).Some? {
      TrackSwitch(t0, t, a, item, e, now);
    } else if IsSetScrollRegion(item) || IsFullReset(item) {
      TrackRegion(t0, t, a, item, e, now);
    } else {
      TrackPlain(t0, t, a, item, e, now);
    }
  }

  lemma TrackSwitch(t0: Term, t: Term, a: Applied, item: seq<byte>, e: Effect, now: int)
    requires Tracking(t0, t, a) && ParseAltScreen(item).Some?
    ensures Tracking(t0, GuestItem(t, item, e), NextApplied(a, item, now)) <==> OriginSeen(a.modes, item)
  {
  }

  lemma TrackRegion(t0: Term, t: Term, a: Applied, item: seq<byte>, e: Effect, now: int)
    requires Tracking(t0, t, a) && ParseAltScreen(item).None? && (IsSetScrollRegion(item) || IsFullReset(item))
    ensures Tracking(t0, GuestItem(t, item, e), NextApplied(a, item, now))
  {
  }

  /** Neither a switch of screens, nor a region change, nor a reset. */
  predicate Ordinary(item: seq<byte>) {
    ParseAltScreen(item).None? && !IsSetScrollRegion(item) && !IsFullReset(item)
  }

  lemma OrdinaryTerm(t: Term, item: seq<byte>, e: Effect)
    requires Ordinary(item) && t.cursor == OnScreen(t, t.cursor)
    ensures var t' := GuestItem(t, item, e);
            && t'.rows == t.rows && t'.cols == t.cols && t'.alt == t.alt && t'.region == t.region
            && t'.cursor == OnScreen(t', t'.cursor) && t'.origin == ParseOriginMode(item).GetOr(t.origin)
  {
  }

  lemma OrdinaryModes(m: Modes, item: seq<byte>, now: int)
    requires Ordinary(item)
    ensures var m' := Apply(m, item, now).modes;
            && m'.altScreen == m.altScreen && (Latched(m') <==> Latched(m))
            && m'.originMode == ParseOriginMode(item).GetOr(m.originMode)
  {
    assert IsCursorSave(item) || IsCursorRestore(item) || ErasesBarRow(item) ==> ParseOriginMode(item).None?;
  }

  lemma TrackPlain(t0: Term, t: Term, a: Applied, item: seq<byte>, e: Effect, now: int)
    requires Tracking(t0, t, a) && Ordinary(item)
    ensures Tracking(t0, GuestItem(t, item, e), NextApplied(a, item, now))
  {
    OrdinaryTerm(t, item, e);
    OrdinaryModes(a.modes, item, now);
  }

  predicate TrackingAt(t: Term, m: Modes, items: seq<seq<byte>>, es: seq<Effect>, k: nat, now: int)
    requires k <= |items| == |es|
  {
    Tracking(t, GuestRun(t, items[..k], es[..k]), ApplyAll(m, items[..k], now))
  }

  lemma SeenBefore(m: Modes, items: seq<seq<byte>>, k: nat, now: int)
    requires k <= |items| && (forall i | 0 <= i < k :: OriginSeenAt(m, items, i, now))
    ensures OriginsSeen(m, items[..k], now)
  {
    forall i | 0 <= i < k
      ensures OriginSeenAt(m, items[..k], i, now)
    {
      assert items[..k][..i] == items[..i];
      assert OriginSeenAt(m, items, i, now);
    }
  }

  /** One more item of a run that has been tracked so far. */
  lemma TrackNext(t: Term, m: Modes, items: seq<seq<byte>>, es: seq<Effect>, k: nat, now: int)
    requires k < |items| == |es| && TrackingAt(t, m, items, es, k, now)
    ensures TrackingAt(t, m, items, es, k + 1, now) <==> OriginSeenAt(m, items, k, now)
  {
    var xs, fs := items[..k + 1], es[..k + 1];
    assert xs[..k] == items[..k] && fs[..k] == es[..k];
    TrackItem(t, GuestRun(t, items[..k], es[..k]), ApplyAll(m, items[..k], now), items[k], es[k], now);
  }

  lemma {:induction false} TrackTo(t: Term, m: Modes, items: seq<seq<byte>>, es: seq<Effect>, k: nat, now: int)
    requires k <= |items| == |es| && (forall i | 0 <= i < k :: OriginSeenAt(m, items, i, now))
    requires t.cursor == OnScreen(t, t.cursor) && t.alt == m.altScreen && (t.origin ==> m.originMode)
    ensures TrackingAt(t, m, items, es, k, now)
  {
    if k > 0 {
      TrackTo(t, m, items, es, k - 1, now);
      TrackNext(t, m, items, es, k - 1, now);
    }
  }

  /** Through a run of guest items the observer stays on track exactly when every setting of origin
      mode is noticed. */
  lemma TrackRun(t: Term, m: Modes, items: seq<seq<byte>>, es: seq<Effect>, now: int)
    requires |items| == |es|
    requires t.cursor == OnScreen(t, t.cursor) && t.alt == m.altScreen && (t.origin ==> m.originMode)
    ensures (forall k | 0 <= k <= |items| :: TrackingAt(t, m, items, es, k, now)) <==> OriginsSeen(m, items, now)
    ensures OriginsSeen(m, items, now) ==> Tracking(t, GuestRun(t, items, es), ApplyAll(m, items, now))
  {
    if OriginsSeen(m, items, now) {
      forall k | 0 <= k <= |items|
        ensures TrackingAt(t, m, items, es, k, now)
      {
        TrackTo(t, m, items, es, k, now);
      }
      assert TrackingAt(t, m, items, es, |items|, now);
      assert items[..|items|] == items && es[..|es|] == es;
    } else {
      var k :| 0 <= k < |items| && !OriginSeenAt(m, items, k, now);
      if TrackingAt(t, m, items, es, k, now) {
        TrackNext(t, m, items, es, k, now);
      }
    }
  }

  /** What a guest write leaves, as the observer has it. */
  lemma GuestTracked(s: Sys, e: Event, now: int)
    requires Coherent(s) && e.GuestWrites? && Sized(s, e) && Tidy(s, e, now)
    ensures var items := ItemsOf(s.bar.observer, e.p);
            && GuestFrames(s.term, e.p) == Frames(items, Pending(s.bar.observer, e.p))
            && |e.effects| == |items|
            && Before(s, e) == GuestRun(s.term, items, e.effects).(pending := Pending(s.bar.observer, e.p))
    ensures Tracking(s.term, Before(s, e), ApplyAll(s.bar.observer.modes, ItemsOf(s.bar.observer, e.p), now))
  {
    ReadersAgree(s.term.pending, e.p);
    TrackRun(s.term, s.bar.observer.modes, ItemsOf(s.bar.observer, e.p), e.effects, now);
  }

  // ----- What the bar's own writes do -----

  /** A bracketed region change leaves everything but the region and the save slot. */
  lemma KeptReact(b: Bar, t: Term, region: Out, now: int)
    requires region.SetRegion? || region.ResetRegion?
    requires t.cursor == OnScreen(t, t.cursor)
    ensures var did := CursorKept(b, region, now);
            var t' := ReactAll(t, did.out);
            && t'.region == (if region.SetRegion? then Region(1, region.bottom) else Full(t))
            && t'.cursor == (if Held(b, now) then HOME else t.cursor)
            && t' == (if Held(b, now) then t else Save(t)).(region := t'.region, cursor := t'.cursor)
  {
    var out := CursorKept(b, region, now).out;
    if Held(b, now) {
      assert out[1..] == [];
    } else {
      ReactThree(t, SaveCursor, region, RestoreCursor);
    }
  }

  /** A repaint leaves everything but the bottom row and the save slot. */
  lemma PaintReact(t: Term, text: string)
    requires t.cursor == OnScreen(t, t.cursor) && !t.origin && !t.alt && t.rows >= MIN_BAR_ROWS && t.cols >= 1
    ensures ReactAll(t, Painting(t.rows, text)) == Save(t).(bottom := text)
  {
    var first, second := [SaveCursor, MoveTo(t.rows, 1), Attributes], [Text(text), Attributes, RestoreCursor];
    assert Painting(t.rows, text) == first + second;
    ReactAppend(t, first, second);
    ReactThree(t, SaveCursor, MoveTo(t.rows, 1), Attributes);
    var t3 := ReactAll(t, first);
    assert t3 == Save(t).(cursor := Pos(t.rows, 1));
    ReactThree(t3, Text(text), Attributes, RestoreCursor);
  }

  /** Drawing changes the bottom row and the save slot, and only when it paints. */
  lemma DrawReact(b: Bar, t: Term, marks: Marks, now: int)
    requires Placed(b, t)
    ensures var did := DrawOf(b, marks, now);
            var t' := ReactAll(t, did.out);
            && Placed(did.bar, t')
            && did.bar == b.(lastBar := did.bar.lastBar, observer := did.bar.observer)
            && (did.out == [] ==> t' == t && did.bar.lastBar == b.lastBar)
            && (did.out != [] ==> MayDraw(b, now) && did.bar.lastBar == BarText(b.left, b.right, b.cols, marks)
                                  && t' == Save(t).(bottom := did.bar.lastBar))
  {
    var did := DrawOf(b, marks, now);
    if did.out != [] {
      PaintReact(t, did.bar.lastBar);
    }
  }

  // ----- Region safety -----

  /** After a chunk that changed something the reserved row is reserved again, or given up with the screen. */
  lemma RegionReact(b0: Bar, t0: Term, t: Term, seen: Observation, now: int)
    requires Placed(b0, t0) && seen.redraw
    requires Tracking(t0, t, Applied(seen.observer.modes, true))
    ensures var did := RegionAfter(b0.(observer := seen.observer), now);
            && Placed(did.bar, ReactAll(t, did.out))
            && did.bar.active == b0.active && did.bar.lastBar == ""
  {
    var b1 := b0.(observer := seen.observer);
    var taken := TakeRegionGone(b1.observer.modes);
    var b := WithModes(b1, taken.modes).(lastBar := "", hidden := b1.observer.modes.altScreen);
    KeptReact(b, t, ResetRegion, now);
    KeptReact(b, t, SetRegion(GuestRows(b)), now);
  }

  lemma GuestPlaced(s: Sys, e: Event, marks: Marks, now: int)
    requires Coherent(s) && e.GuestWrites? && Sized(s, e) && Tidy(s, e, now)
    ensures Placed(Step(s, e, marks, now).bar, Step(s, e, marks, now).term)
    ensures Answer(s, e, marks, now).bar.active == s.bar.active
  {
    var t, seen := Heard(s, e, marks, now), ObserveOf(s.bar.observer, e.p, now);
    GuestTracked(s, e, now);
    if seen.redraw {
      var region := RegionAfter(s.bar.(observer := seen.observer), now);
      RegionReact(s.bar, s.term, t, seen, now);
      DrawReact(region.bar, ReactAll(t, region.out), marks, now);
      ReactAppend(t, region.out, DrawOf(region.bar, marks, now).out);
    }
  }

  lemma ResizePlaced(s: Sys, e: Event, marks: Marks, now: int)
    requires Coherent(s) && e.Resizes?
    ensures Placed(Step(s, e, marks, now).bar, Step(s, e, marks, now).term)
    ensures Answer(s, e, marks, now).bar.active == s.bar.active
  {
    var t := Heard(s, e, marks, now);
    var b := s.bar.(cols := e.cols, rows := e.rows, lastBar := "");
    KeptReact(b, t, ResetRegion, now);
    KeptReact(b, t, SetRegion(GuestRows(b)), now);
  }

  /** Every step keeps the bar placed: whenever it is active, not hidden and the terminal has room
      for it, the scroll region is every row but the last. */
  lemma StepPlaced(s: Sys, e: Event, marks: Marks, now: int)
    requires Coherent(s) && Sized(s, e) && Tidy(s, e, now)
    ensures Placed(Step(s, e, marks, now).bar, Step(s, e, marks, now).term)
    ensures Answer(s, e, marks, now).bar.active == s.bar.active
  {
    match e
    case GuestWrites(_, _) => GuestPlaced(s, e, marks, now);
    case Resizes(_, _, _) => ResizePlaced(s, e, marks, now);
    case SetsText(_, _) =>
    case Tick => DrawReact(s.bar, Heard(s, e, marks, now), marks, now);
  }

  /** While the bar is hidden, the region a full-screen program has set survives a write of the guest
      exactly when the observer reports nothing of it, or the region was the whole screen: at every
      report the bar releases the region anew. */
  lemma HiddenRegion(s: Sys, e: Event, marks: Marks, now: int)
    requires Coherent(s) && e.GuestWrites? && Sized(s, e) && Tidy(s, e, now) && s.bar.active && Before(s, e).alt
    ensures var t, reported := Before(s, e), ObserveOf(s.bar.observer, e.p, now).redraw;
            && Step(s, e, marks, now).term.region == (if reported then Full(t) else t.region)
            && (Step(s, e, marks, now).term.region == t.region <==> !reported || t.region == Full(t))
  {
    var seen := ObserveOf(s.bar.observer, e.p, now);
    GuestTracked(s, e, now);
    if seen.redraw {
      HiddenAnswer(s.bar.(observer := seen.observer), Heard(s, e, marks, now), marks, now);
    }
  }

  lemma HiddenAnswer(b: Bar, t: Term, marks: Marks, now: int)
    requires b.active && b.observer.modes.altScreen && t.cursor == OnScreen(t, t.cursor)
    ensures ReactAll(t, Redrawn(b, marks, now).out).region == Full(t)
  {
    var b1 := WithModes(b, TakeRegionGone(b.observer.modes).modes).(lastBar := "", hidden := true);
    var region := CursorKept(b1, ResetRegion, now);
    assert RegionAfter(b, now) == region;
    assert region.out + [] == region.out;
    KeptReact(b1, t, ResetRegion, now);
  }

  // ----- Staying in step -----

  /** The bar's writes set no mode. */
  lemma {:induction false} ReactFrame(t: Term, out: seq<Out>)
    ensures var t' := ReactAll(t, out);
            t'.pending == t.pending && t'.alt == t.alt && t'.origin == t.origin && t'.rows == t.rows && t'.cols == t.cols
    decreases |out|
  {
    if out != [] {
      ReactFrame(React(t, out[0]), out[1..]);
    }
  }

  lemma AnswerPartial(s: Sys, e: Event, marks: Marks, now: int)
    ensures Answer(s, e, marks, now).bar.observer.partial
            == if e.GuestWrites? then ObserveOf(s.bar.observer, e.p, now).observer.partial else s.bar.observer.partial
  {
  }

  /** After a step observer and terminal wait for the same sequence exactly when none was divided. */
  lemma StepInStep(s: Sys, e: Event, marks: Marks, now: int)
    requires Coherent(s) && Sized(s, e) && Tidy(s, e, now)
    ensures InStep(Step(s, e, marks, now).bar, Step(s, e, marks, now).term) <==> Undivided(s, e, marks, now)
    ensures Step(s, e, marks, now).term.pending == Heard(s, e, marks, now).pending
    ensures Step(s, e, marks, now).bar.observer.partial
            == if |Before(s, e).pending| <= MAX_PARTIAL_ESCAPE then Before(s, e).pending else []
    ensures Incomplete(Before(s, e).pending)
  {
    ReactFrame(Heard(s, e, marks, now), Answer(s, e, marks, now).out);
    AnswerPartial(s, e, marks, now);
    if e.GuestWrites? {
      GuestTracked(s, e, now);
      TailIncomplete(s.bar.observer.partial + e.p);
    }
  }

  lemma StepCoherent(s: Sys, e: Event, marks: Marks, now: int)
    requires Coherent(s) && Sized(s, e) && Fits(s, e, marks, now)
    ensures Coherent(Step(s, e, marks, now))
    ensures Answer(s, e, marks, now).bar.active == s.bar.active
  {
    StepPlaced(s, e, marks, now);
    StepInStep(s, e, marks, now);
  }

  /** Whatever the guest writes next, observer and terminal agree which screen it leaves shown. */
  ghost predicate Follows(s: Sys) {
    forall q: seq<byte>, es: seq<Effect>, now: int
      | |es| == |GuestFrames(s.term, q).items| && Plain(s, q)
      :: GuestOutput(s.term, q, es).alt == ObserveOf(s.bar.observer, q, now).observer.modes.altScreen
  }

  /** No control inside a sequence, to the terminal or to the observer. */
  predicate Plain(s: Sys, q: seq<byte>) {
    NoneCut(FramesOf(s.term.pending + q).items) && NoneCut(ItemsOf(s.bar.observer, q))
  }

  lemma SwitchItem(t: Term, m: Modes, item: seq<byte>, on: bool, e: Effect, now: int)
    requires ParseAltScreen(item) == Some(on)
    ensures GuestItem(t, item, e).alt == on && Apply(m, item, now).modes.altScreen == on
  {
  }

  lemma AltItem(t: Term, m: Modes, item: seq<byte>, e: Effect, now: int)
    requires t.alt == m.altScreen
    ensures GuestItem(t, item, e).alt == Apply(m, item, now).modes.altScreen
  {
    if ParseAltScreen(item).Some? {
      SwitchItem(t, m, item, ParseAltScreen(item).value, e, now);
    } else {
      SameScreen(t, m, item, e, now);
    }
  }

  lemma SameScreen(t: Term, m: Modes, item: seq<byte>, e: Effect, now: int)
    requires ParseAltScreen(item).None?
    ensures GuestItem(t, item, e).alt == if IsFullReset(item) then false else t.alt
    ensures Apply(m, item, now).modes.altScreen == if IsFullReset(item) then false else m.altScreen
  {
    assert IsFullReset(item) ==> !IsSetScrollRegion(item);
  }

  lemma {:induction false} AltTracked(t: Term, m: Modes, items: seq<seq<byte>>, es: seq<Effect>, now: int)
    requires |items| == |es| && t.alt == m.altScreen
    ensures GuestRun(t, items, es).alt == ApplyAll(m, items, now).modes.altScreen
    decreases |items|
  {
    if items != [] {
      var k := |items| - 1;
      AltTracked(t, m, items[..k], es[..k], now);
      AltItem(GuestRun(t, items[..k], es[..k]), ApplyAll(m, items[..k], now).modes, items[k], es[k], now);
    }
  }

  /** Bytes that make an unfinished sequence a switch to or from the alternate screen. */
  function Finish(rest: seq<byte>, on: bool): seq<byte> {
    if |rest| == 1 then ['[' as byte] + Completion(on) else Completion(on)
  }

  lemma FinishSwitches(rest: seq<byte>, on: bool)
    requires Incomplete(rest) && rest != []
    ensures var s := rest + Finish(rest, on);
            FramesOf(s) == Frames([s], []) && ParseAltScreen(s) == Some(on) && !Cut(s)
  {
    var s := rest + Finish(rest, on);
    if |rest| == 1 {
      assert s == [ESC, '[' as byte] + Completion(on);
      CompletionSwitches([ESC, '[' as byte], on);
    } else {
      IncompleteShape(rest);
      CompletionSwitches(rest, on);
    }
    WholeSequence(s);
  }

  lemma OneItem(t: Term, m: Modes, item: seq<byte>, e: Effect, now: int)
    ensures GuestRun(t, [item], [e]) == GuestItem(t, item, e)
    ensures ApplyAll(m, [item], now).modes == Apply(m, item, now).modes
  {
    assert [item][..0] == [] && [e][..0] == [];
  }

  // A reader that holds the unfinished sequence sees it become a switch; one that lost it sees text.

  lemma TerminalSees(t: Term, on: bool, e: Effect)
    requires t.pending != [] && Incomplete(t.pending)
    ensures var q := Finish(t.pending, on);
            && GuestFrames(t, q).items == FramesOf(t.pending + q).items == [t.pending + q] && NoneCut([t.pending + q])
            && GuestOutput(t, q, [e]).alt == on
  {
    var q := Finish(t.pending, on);
    var item := t.pending + q;
    FinishSwitches(t.pending, on);
    assert NoneCut([item]);
    ReadersAgree(t.pending, q);
    OneItem(t, NEW_OBSERVER.modes, item, e, 0);
    SwitchItem(t, NEW_OBSERVER.modes, item, on, e, 0);
  }

  lemma ObserverSees(o: Observer, on: bool, now: int)
    requires o.partial != [] && Incomplete(o.partial)
    ensures var q := Finish(o.partial, on);
            NoneCut(ItemsOf(o, q)) && ObserveOf(o, q, now).observer.modes.altScreen == on
  {
    var item := o.partial + Finish(o.partial, on);
    FinishSwitches(o.partial, on);
    ApplyOne(o.modes, [], item, now);
    assert [] + [item] == [item];
  }

  lemma FinishIsText(rest: seq<byte>, on: bool)
    ensures var q := Finish(rest, on);
            FramesOf(q).tail == [] && NoneCut(FramesOf(q).items)
            && forall i | 0 <= i < |FramesOf(q).items| :: |FramesOf(q).items[i]| == 1
  {
    PlainFrames(Finish(rest, on));
  }

  lemma ObserverMisses(o: Observer, rest: seq<byte>, on: bool, now: int)
    requires o.partial == []
    ensures var q := Finish(rest, on);
            NoneCut(ItemsOf(o, q)) && ObserveOf(o, q, now).observer.modes == o.modes
  {
    var q := Finish(rest, on);
    assert [] + q == q;
    FinishIsText(rest, on);
    PlainApply(o.modes, FramesOf(q).items, now);
  }

  lemma TerminalMisses(t: Term, rest: seq<byte>, on: bool, es: seq<Effect>)
    requires t.pending == [] && |es| == |GuestFrames(t, Finish(rest, on)).items|
    ensures var q := Finish(rest, on);
            NoneCut(FramesOf(t.pending + q).items) && GuestOutput(t, q, es).alt == t.alt
  {
    var q, m := Finish(rest, on), NEW_OBSERVER.modes.(altScreen := t.alt);
    assert [] + q == q;
    FinishIsText(rest, on);
    ReadersAgree([], q);
    AltTracked(t, m, FramesOf(q).items, es, 0);
    PlainApply(m, FramesOf(q).items, 0);
  }

  lemma FollowsWhileInStep(s: Sys)
    requires InStep(s.bar, s.term) && s.term.alt == s.bar.observer.modes.altScreen
    ensures Follows(s)
  {
    forall q: seq<byte>, es: seq<Effect>, now: int | |es| == |GuestFrames(s.term, q).items| && Plain(s, q)
      ensures GuestOutput(s.term, q, es).alt == ObserveOf(s.bar.observer, q, now).observer.modes.altScreen
    {
      ReadersAgree(s.term.pending, q);
      AltTracked(s.term, s.bar.observer.modes, GuestFrames(s.term, q).items, es, now);
    }
  }

  lemma LostByObserver(s: Sys)
    requires s.term.pending != [] && s.bar.observer.partial == [] && Incomplete(s.term.pending)
    ensures !Follows(s)
  {
    var on, e := !s.bar.observer.modes.altScreen, Effect(HOME, Full(s.term), "");
    var q := Finish(s.term.pending, on);
    TerminalSees(s.term, on, e);
    ObserverMisses(s.bar.observer, s.term.pending, on, 0);
    assert Plain(s, q) && |[e]| == |GuestFrames(s.term, q).items|;
  }

  lemma LostByTerminal(s: Sys)
    requires s.term.pending == [] && s.bar.observer.partial != [] && Incomplete(s.bar.observer.partial)
    ensures !Follows(s)
  {
    var on, e := !s.term.alt, Effect(HOME, Full(s.term), "");
    var q := Finish(s.bar.observer.partial, on);
    var es := seq(|GuestFrames(s.term, q).items|, _ => e);
    TerminalMisses(s.term, s.bar.observer.partial, on, es);
    ObserverSees(s.bar.observer, on, 0);
    assert Plain(s, q) && |es| == |GuestFrames(s.term, q).items|;
  }

  /** The bar keeps following which screen is shown, whatever the guest writes after this step,
      exactly when the step divides no sequence. */
  lemma FollowsExactly(s: Sys, e: Event, marks: Marks, now: int)
    requires Coherent(s) && Sized(s, e) && Tidy(s, e, now)
    ensures Follows(Step(s, e, marks, now)) <==> Undivided(s, e, marks, now)
  {
    var s' := Step(s, e, marks, now);
    StepPlaced(s, e, marks, now);
    StepInStep(s, e, marks, now);
    if Undivided(s, e, marks, now) {
      FollowsWhileInStep(s');
    } else if s'.term.pending != [] {
      LostByObserver(s');
    } else {
      LostByTerminal(s');
    }
  }

  /** A guest write of one item with its effect. */
  function Writes(item: seq<byte>, e: Effect): Event {
    GuestWrites(item, [e])
  }

  lemma {:induction false} RunPending(t: Term, items: seq<seq<byte>>, es: seq<Effect>)
    requires |items| == |es|
    ensures GuestRun(t, items, es).pending == t.pending
    decreases |items|
  {
    if items != [] {
      RunPending(t, items[..|items| - 1], es[..|items| - 1]);
    }
  }

  /** The terminal and the observer on one item and the start of another. */
  lemma OneWrite(t: Term, o: Observer, p: seq<byte>, item: seq<byte>, rest: seq<byte>, e: Effect, now: int)
    requires t.pending == o.partial == [] && FramesOf(p) == Frames([item], rest) && !Cut(item)
    ensures GuestFrames(t, p) == Frames([item], rest) && GuestOutput(t, p, [e]) == GuestItem(t, item, e).(pending := rest)
    ensures ItemsOf(o, p) == [item] && Pending(o, p) == rest
    ensures ApplyAll(o.modes, [item], now) == Apply(o.modes, item, now)
  {
    assert [] + p == p && [item][..0] == [];
    ReadersAgree([], p);
    OneItem(t, o.modes, item, e, now);
    assert ApplyAll(o.modes, [item], now) == NextApplied(Applied(o.modes, false), item, now);
  }

  /** The guest writes one whole item of which the observer has nothing to report. */
  lemma QuietWrite(s: Sys, item: seq<byte>, e: Effect, marks: Marks, now: int)
    requires s.term.pending == s.bar.observer.partial == []
    requires FramesOf(item) == Frames([item], []) && !Cut(item) && !Apply(s.bar.observer.modes, item, now).redraw
    ensures Sized(s, Writes(item, e)) && Undivided(s, Writes(item, e), marks, now)
    ensures Tidy(s, Writes(item, e), now) <==> OriginSeen(s.bar.observer.modes, item)
    ensures Step(s, Writes(item, e), marks, now)
            == Sys(WithModes(s.bar, Apply(s.bar.observer.modes, item, now).modes), GuestItem(s.term, item, e))
  {
    OneWrite(s.term, s.bar.observer, item, item, [], e, now);
    RunPending(s.term, [item], [e]);
    OneItem(s.term, s.bar.observer.modes, item, e, now);
    TidyOne(s.bar.observer.modes, item, now);
  }

  lemma TidyOne(m: Modes, item: seq<byte>, now: int)
    ensures OriginsSeen(m, [item], now) <==> OriginSeen(m, item)
  {
    assert [item][..0] == [];
    assert OriginSeenAt(m, [item], 0, now) <==> OriginSeen(m, item);
  }

  // ----- Runs -----

  datatype Timed = Timed(event: Event, now: int)

  /** Each event comes with an effect for each item. */
  predicate Possible(s: Sys, log: seq<Timed>, marks: Marks)
    decreases |log|
  {
    log == [] || (Sized(s, log[0].event) && Possible(Step(s, log[0].event, marks, log[0].now), log[1..], marks))
  }

  predicate Admissible(s: Sys, log: seq<Timed>, marks: Marks)
    requires Possible(s, log, marks)
    decreases |log|
  {
    log == [] ||
    (Fits(s, log[0].event, marks, log[0].now) && Admissible(Step(s, log[0].event, marks, log[0].now), log[1..], marks))
  }

  function Run(s: Sys, log: seq<Timed>, marks: Marks): Sys
    requires Possible(s, log, marks)
    decreases |log|
  {
    if log == [] then s else Run(Step(s, log[0].event, marks, log[0].now), log[1..], marks)
  }

  /** A terminal the bar can be started on: the main screen, row coordinates absolute, no sequence
      half read. */
  predicate Fresh(t: Term) {
    !t.alt && !t.origin && t.cursor == OnScreen(t, t.cursor) && t.pending == []
  }

  function Started(t: Term, left: string, right: string): Sys {
    var did := StartOf(NewBar(t.cols, t.rows).(left := left, right := right));
    Sys(did.bar, Receive(t, did.out))
  }

  function Stopped(s: Sys): Sys {
    var did := StopOf(s.bar);
    Sys(did.bar, Receive(s.term, did.out))
  }

  lemma StartCoherent(t: Term, left: string, right: string)
    requires Fresh(t)
    ensures var s := Started(t, left, right);
            Coherent(s) && s.bar.active == (t.rows >= MIN_BAR_ROWS)
            && (s.bar.active ==> s.term.cursor == HOME && s.term.bottom == "" && s.bar.lastBar == "")
            && (!s.bar.active ==> s.term == t)
  {
    if t.rows >= MIN_BAR_ROWS {
      ReactThree(t, EraseScreen, SetRegion(t.rows - 1), MoveTo(1, 1));
    }
  }

  lemma {:induction false} RunAppend(s: Sys, a: seq<Timed>, b: seq<Timed>, marks: Marks)
    requires Possible(s, a, marks) && Possible(Run(s, a, marks), b, marks)
    ensures Possible(s, a + b, marks) && Run(s, a + b, marks) == Run(Run(s, a, marks), b, marks)
    ensures Admissible(s, a + b, marks) <==> Admissible(s, a, marks) && Admissible(Run(s, a, marks), b, marks)
    decreases |a|
  {
    if a == [] {
      assert a + b == b;
    } else {
      assert (a + b)[0] == a[0] && (a + b)[1..] == a[1..] + b;
      RunAppend(Step(s, a[0].event, marks, a[0].now), a[1..], b, marks);
    }
  }

  /** The run from `s0` that `log` describes ends in the coherent state `s`. */
  predicate Reaches(s0: Sys, log: seq<Timed>, marks: Marks, s: Sys) {
    Possible(s0, log, marks) && Admissible(s0, log, marks) && Run(s0, log, marks) == s && Coherent(s)
  }

  lemma ReachNext(s0: Sys, log: seq<Timed>, marks: Marks, s: Sys, next: Timed)
    requires Reaches(s0, log, marks, s) && Sized(s, next.event) && Fits(s, next.event, marks, next.now)
    ensures Reaches(s0, log + [next], marks, Step(s, next.event, marks, next.now))
  {
    assert [next][1..] == [];
    RunAppend(s0, log, [next], marks);
    StepCoherent(s, next.event, marks, next.now);
  }

  lemma {:induction false} RunCoherent(s: Sys, log: seq<Timed>, marks: Marks)
    requires Coherent(s) && Possible(s, log, marks) && Admissible(s, log, marks)
    ensures Coherent(Run(s, log, marks)) && Run(s, log, marks).bar.active == s.bar.active
    decreases |log|
  {
    if log != [] {
      StepCoherent(s, log[0].event, marks, log[0].now);
      RunCoherent(Step(s, log[0].event, marks, log[0].now), log[1..], marks);
    }
  }

  /** Once stopped, or never started, the bar writes nothing ever again. */
  lemma {:induction false} InactiveIsSilent(s: Sys, e: Event, marks: Marks, now: int)
    requires !s.bar.active
    ensures Answer(s, e, marks, now).out == [] && !Answer(s, e, marks, now).bar.active
  {
  }

  /** The terminal after a run in which only the guest and the window act: nothing is written to it. */
  function Unattended(s: Sys, log: seq<Timed>, marks: Marks): Term
    requires !s.bar.active && Possible(s, log, marks)
    decreases |log|
  {
    if log == [] then s.term
    else
      InactiveIsSilent(s, log[0].event, marks, log[0].now);
      Unattended(Sys(Answer(s, log[0].event, marks, log[0].now).bar, Before(s, log[0].event)), log[1..], marks)
  }

  lemma {:induction false} InactiveRun(s: Sys, log: seq<Timed>, marks: Marks)
    requires !s.bar.active && Possible(s, log, marks)
    ensures !Run(s, log, marks).bar.active
    ensures Run(s, log, marks).term == Unattended(s, log, marks)
    decreases |log|
  {
    if log != [] {
      InactiveIsSilent(s, log[0].event, marks, log[0].now);
      InactiveRun(Step(s, log[0].event, marks, log[0].now), log[1..], marks);
    }
  }

  /** Over every run from Start to Stop and beyond: whenever the bar is active, not hidden and the
      terminal has at least four rows, the scroll region is exactly the rows the guest was told;
      Stop gives the whole screen back, and the bar then leaves the terminal to the guest for good. */
  lemma RegionSafety(t: Term, left: string, right: string, log: seq<Timed>, after: seq<Timed>, marks: Marks)
    requires Fresh(t) && Possible(Started(t, left, right), log, marks) && Admissible(Started(t, left, right), log, marks)
    requires Possible(Stopped(Run(Started(t, left, right), log, marks)), after, marks)
    ensures var s := Run(Started(t, left, right), log, marks);
            && (s.bar.active <==> t.rows >= MIN_BAR_ROWS)
            && (s.bar.active && !s.bar.hidden && s.bar.rows >= MIN_BAR_ROWS ==>
                  s.term.region == Region(1, GuestRows(s.bar)) && GuestRows(s.bar) == s.term.rows - 1)
            && (s.bar.hidden <==> s.term.alt)
            && (s.bar.active ==> Stopped(s).term.region == Full(s.term))
            && !Stopped(s).bar.active
            && Run(Stopped(s), after, marks).term == Unattended(Stopped(s), after, marks)
  {
    var s0 := Started(t, left, right);
    StartCoherent(t, left, right);
    RunCoherent(s0, log, marks);
    var s := Run(s0, log, marks);
    if s.bar.active {
      ReactThree(Interrupted(s.term, StopOf(s.bar).out), ResetRegion, MoveTo(s.bar.rows, 1), EraseLine);
    }
    InactiveRun(Stopped(s), after, marks);
  }

  // ----- Where the bar paints -----

  /** Text is only ever written on the bottom row, below the scroll region. */
  predicate PaintsOutside(t: Term, out: seq<Out>)
    decreases |out|
  {
    out == [] ||
    ((out[0].Text? ==> !t.alt && !t.origin && t.cursor == Pos(t.rows, 1) && t.rows > t.region.bottom)
     && PaintsOutside(React(t, out[0]), out[1..]))
  }

  lemma {:induction false} OutsideAppend(t: Term, a: seq<Out>, b: seq<Out>)
    requires PaintsOutside(t, a) && PaintsOutside(ReactAll(t, a), b)
    ensures PaintsOutside(t, a + b)
    decreases |a|
  {
    if a == [] {
      assert a + b == b;
    } else {
      assert (a + b)[0] == a[0] && (a + b)[1..] == a[1..] + b;
      OutsideAppend(React(t, a[0]), a[1..], b);
    }
  }

  lemma {:induction false} NoTextOutside(t: Term, out: seq<Out>)
    requires forall i | 0 <= i < |out| :: !out[i].Text?
    ensures PaintsOutside(t, out)
    decreases |out|
  {
    if out != [] {
      NoTextOutside(React(t, out[0]), out[1..]);
    }
  }

  lemma DrawOutside(b: Bar, t: Term, marks: Marks, now: int)
    requires Placed(b, t)
    ensures PaintsOutside(t, DrawOf(b, marks, now).out)
  {
    var did := DrawOf(b, marks, now);
    if did.out != [] {
      var text := did.bar.lastBar;
      var first, second := [SaveCursor, MoveTo(t.rows, 1), Attributes], [Attributes, RestoreCursor];
      assert did.out == first + ([Text(text)] + second);
      ReactThree(t, SaveCursor, MoveTo(t.rows, 1), Attributes);
      NoTextOutside(t, first);
      var t3 := ReactAll(t, first);
      NoTextOutside(React(t3, Text(text)), second);
      assert ([Text(text)] + second)[1..] == second;
      OutsideAppend(t, first, [Text(text)] + second);
    }
  }

  lemma GuestOutside(s: Sys, e: Event, marks: Marks, now: int)
    requires Coherent(s) && e.GuestWrites? && Sized(s, e) && Tidy(s, e, now)
    ensures PaintsOutside(Heard(s, e, marks, now), Answer(s, e, marks, now).out)
  {
    var t, seen := Heard(s, e, marks, now), ObserveOf(s.bar.observer, e.p, now);
    GuestTracked(s, e, now);
    if seen.redraw {
      var region := RegionAfter(s.bar.(observer := seen.observer), now);
      RegionReact(s.bar, s.term, t, seen, now);
      NoTextOutside(t, region.out);
      DrawOutside(region.bar, ReactAll(t, region.out), marks, now);
      OutsideAppend(t, region.out, DrawOf(region.bar, marks, now).out);
    }
  }

  /** In every coherent state, whatever happens, the bar is painted outside the scroll region only. */
  lemma AnswerOutside(s: Sys, e: Event, marks: Marks, now: int)
    requires Coherent(s) && Sized(s, e) && Tidy(s, e, now)
    ensures PaintsOutside(Heard(s, e, marks, now), Answer(s, e, marks, now).out)
  {
    match e
    case GuestWrites(_, _) => GuestOutside(s, e, marks, now);
    case Resizes(_, _, _) => NoTextOutside(Heard(s, e, marks, now), Answer(s, e, marks, now).out);
    case SetsText(_, _) =>
    case Tick => DrawOutside(s.bar, Heard(s, e, marks, now), marks, now);
  }
}
