/** The remembered text: skipping an unchanged repaint is unobservable. */
module BarCache {
  import opened Wrappers
  import opened ModeFilter
  import opened Terminal
  import opened BarLayout
  import opened StatusBar
  import opened BarRuns

  /** A remembered text is what the bottom row shows. */
  predicate Shown(s: Sys) {
    s.bar.active && s.bar.lastBar != "" ==>
      !s.bar.hidden && s.bar.rows >= MIN_BAR_ROWS && s.term.bottom == s.bar.lastBar
  }

  // ----- What is asked of the guest and of the window -----

  /** On the main screen the cursor is above the bar's row. */
  predicate KeepsOff(t: Term) {
    t.alt || t.rows < MIN_BAR_ROWS || t.cursor.row < t.rows
  }

  /** What is written above the bar's row, inside the region, does not reach it. */
  predicate StaysInside(t: Term, item: seq<byte>, e: Effect) {
    !t.alt && t.region == Region(1, t.rows - 1) && t.cursor.row < t.rows ==> e.bottom == t.bottom
  }

  /** The guest addresses only the rows it was given. */
  predicate Behaves(t: Term, item: seq<byte>, e: Effect) {
    KeepsOff(GuestItem(t, item, e)) && StaysInside(t, item, e)
  }

  predicate BehavesAt(t: Term, items: seq<seq<byte>>, es: seq<Effect>, k: nat)
    requires k < |items| == |es|
  {
    Behaves(GuestRun(t, items[..k], es[..k]), items[k], es[k])
  }

  predicate BehavesRun(t: Term, items: seq<seq<byte>>, es: seq<Effect>)
    requires |items| == |es|
  {
    forall k | 0 <= k < |items| :: BehavesAt(t, items, es, k)
  }

  predicate WellBehaved(s: Sys, e: Event)
    requires Sized(s, e)
  {
    match e
    case GuestWrites(p, effects) => BehavesRun(s.term, GuestFrames(s.term, p).items, effects)
    case Resizes(_, _, _) => KeepsOff(Before(s, e))
    case _ => true
  }

  // ----- One step -----

  /** Inside a chunk: until something is reported the bottom row is untouched. */
  predicate Untouched(t0: Term, t: Term, a: Applied) {
    KeepsOff(t) && (!a.redraw ==> t.bottom == t0.bottom)
  }

  predicate BarInForce(t: Term) {
    !t.alt && t.rows >= MIN_BAR_ROWS && t.region == Region(1, t.rows - 1)
  }

  /** An erasure of the display is reported exactly when it is one that reaches the bottom row: without a
      parameter, with 0, with 2 or with 3. */
  lemma ErasureReported(m: Modes, ps: seq<byte>, now: int)
    ensures var s := [ESC, '[' as byte] + ps + ['J' as byte];
            Apply(m, s, now).redraw <==> ps == [] || ps == ['0' as byte] || ps == ['2' as byte] || ps == ['3' as byte]
  {
    var s := [ESC, '[' as byte] + ps + ['J' as byte];
    assert s[2..|s| - 1] == ps && s[|s| - 1] == 'J' as byte;
    assert Bytes("") == [] && Bytes("0") == ['0' as byte] && Bytes("2") == ['2' as byte] && Bytes("3") == ['3' as byte];
  }

  /** Everything the observer reports of a sequence: a change of screen, new margins, a reset, the end of a
      hold on the cursor, an erasure that reaches the bottom row, and a change of origin mode. */
  lemma ReportedExactly(m: Modes, s: seq<byte>, now: int)
    requires s != [] && (|s| == 1 || s[0] == ESC)
    ensures Apply(m, s, now).redraw
       <==> if ParseAltScreen(s).Some? then ParseAltScreen(s).value != m.altScreen
            else
              || SetsMargins(s) || ResetsAll(s) || (RestoresCursor(s) && m.cursorSaved)
              || ErasesBelow(s) || ErasesAll(s)
              || (ParseOriginMode(s).Some? && ParseOriginMode(s).value != m.originMode)
  {
    if |s| >= 3 && s[1] == '[' as byte && s[|s| - 1] == 'J' as byte {
      var ps := s[2..|s| - 1];
      assert s == [ESC, '[' as byte] + ps + ['J' as byte];
      ErasureReported(m, ps, now);
    }
  }

  /** Whatever blanks the bottom row of the main screen, where the cursor is above it, is reported. */
  lemma BlankingReported(t: Term, m: Modes, item: seq<byte>, e: Effect, now: int)
    requires BarInForce(t) && t.alt == m.altScreen && t.cursor.row < t.rows && StaysInside(t, item, e)
    ensures ClearsBottom(t, item) || GuestItem(t, item, e).bottom != t.bottom ==> Apply(m, item, now).redraw
  {
    if ClearsBottom(t, item) {
      var ps := item[2..|item| - 1];
      assert item == [ESC, '[' as byte] + ps + ['J' as byte];
      ErasureReported(m, ps, now);
    }
  }

  lemma UntouchedItem(t0: Term, t: Term, a: Applied, item: seq<byte>, e: Effect, now: int)
    requires BarInForce(t0) && Tracking(t0, t, a) && Untouched(t0, t, a) && Behaves(t, item, e)
    ensures Untouched(t0, GuestItem(t, item, e), NextApplied(a, item, now))
  {
    if !a.redraw && !t.alt {
      BlankingReported(t, a.modes, item, e, now);
    }
  }

  lemma {:induction false} UntouchedRun(t: Term, m: Modes, items: seq<seq<byte>>, es: seq<Effect>, now: int)
    requires |items| == |es| && OriginsSeen(m, items, now) && BehavesRun(t, items, es)
    requires t.cursor == OnScreen(t, t.cursor) && t.alt == m.altScreen && (t.origin ==> m.originMode)
    requires BarInForce(t) && KeepsOff(t)
    ensures Untouched(t, GuestRun(t, items, es), ApplyAll(m, items, now))
    decreases |items|
  {
    if items != [] {
      var n := |items| - 1;
      forall k | 0 <= k < n
        ensures BehavesAt(t, items[..n], es[..n], k)
      {
        assert BehavesAt(t, items, es, k);
        assert items[..n][..k] == items[..k] && es[..n][..k] == es[..k];
      }
      SeenBefore(m, items, n, now);
      UntouchedRun(t, m, items[..n], es[..n], now);
      TrackRun(t, m, items[..n], es[..n], now);
      assert BehavesAt(t, items, es, n);
      UntouchedItem(t, GuestRun(t, items[..n], es[..n]), ApplyAll(m, items[..n], now), items[n], es[n], now);
    }
  }

  lemma GuestKeepsOff(s: Sys, e: Event)
    requires Sized(s, e) && WellBehaved(s, e) && e.GuestWrites? && KeepsOff(s.term)
    ensures KeepsOff(Before(s, e))
  {
    var items := GuestFrames(s.term, e.p).items;
    if items != [] {
      assert BehavesAt(s.term, items, e.effects, |items| - 1);
    }
  }

  lemma DrawShown(b: Bar, t: Term, marks: Marks, now: int)
    requires Placed(b, t) && Shown(Sys(b, t)) && KeepsOff(t)
    ensures var did := DrawOf(b, marks, now);
            Shown(Sys(did.bar, ReactAll(t, did.out))) && KeepsOff(ReactAll(t, did.out))
  {
    DrawReact(b, t, marks, now);
  }

  lemma RegionKeepsOff(b: Bar, t: Term, now: int)
    requires KeepsOff(t) && t.cursor == OnScreen(t, t.cursor)
    ensures KeepsOff(ReactAll(t, RegionAfter(b, now).out))
  {
    var taken := TakeRegionGone(b.observer.modes);
    var b1 := WithModes(b, taken.modes).(lastBar := "", hidden := b.observer.modes.altScreen);
    if b1.hidden && b1.active {
      KeptReact(b1, t, ResetRegion, now);
    } else if b1.active && taken.gone {
      KeptReact(b1, t, SetRegion(GuestRows(b1)), now);
    }
  }

  /** A guest write the bar answers at once. */
  lemma ReportedShown(s: Sys, e: Event, marks: Marks, now: int)
    requires Coherent(s) && e.GuestWrites? && Sized(s, e) && Tidy(s, e, now) && WellBehaved(s, e) && KeepsOff(s.term)
    requires ObserveOf(s.bar.observer, e.p, now).redraw
    ensures Shown(Step(s, e, marks, now)) && KeepsOff(Step(s, e, marks, now).term)
  {
    var t, seen := Heard(s, e, marks, now), ObserveOf(s.bar.observer, e.p, now);
    GuestKeepsOff(s, e);
    GuestTracked(s, e, now);
    var b := s.bar.(observer := seen.observer);
    var region := RegionAfter(b, now);
    RegionReact(s.bar, s.term, t, seen, now);
    RegionKeepsOff(b, t, now);
    DrawShown(region.bar, ReactAll(t, region.out), marks, now);
    ReactAppend(t, region.out, DrawOf(region.bar, marks, now).out);
  }

  /** A guest write that goes unreported. */
  lemma UnreportedShown(s: Sys, e: Event, marks: Marks, now: int)
    requires Coherent(s) && e.GuestWrites? && Sized(s, e) && Tidy(s, e, now) && WellBehaved(s, e)
    requires Shown(s) && KeepsOff(s.term) && !ObserveOf(s.bar.observer, e.p, now).redraw
    ensures Shown(Step(s, e, marks, now)) && KeepsOff(Step(s, e, marks, now).term)
  {
    GuestKeepsOff(s, e);
    GuestTracked(s, e, now);
    if s.bar.active && s.bar.lastBar != "" {
      UntouchedRun(s.term, s.bar.observer.modes, ItemsOf(s.bar.observer, e.p), e.effects, now);
    }
  }

  lemma ResizeShown(s: Sys, e: Event, marks: Marks, now: int)
    requires Coherent(s) && e.Resizes? && WellBehaved(s, e)
    ensures Shown(Step(s, e, marks, now)) && KeepsOff(Step(s, e, marks, now).term)
  {
    var t := Heard(s, e, marks, now);
    var b := s.bar.(cols := e.cols, rows := e.rows, lastBar := "");
    KeptReact(b, t, ResetRegion, now);
    KeptReact(b, t, SetRegion(GuestRows(b)), now);
  }

  /** Every step keeps the remembered text true, as long as guest and window keep off the bar's row. */
  lemma StepShown(s: Sys, e: Event, marks: Marks, now: int)
    requires Coherent(s) && Sized(s, e) && Tidy(s, e, now) && WellBehaved(s, e) && Shown(s) && KeepsOff(s.term)
    ensures Shown(Step(s, e, marks, now)) && KeepsOff(Step(s, e, marks, now).term)
  {
    match e
    case GuestWrites(p, _) =>
      if ObserveOf(s.bar.observer, p, now).redraw {
        ReportedShown(s, e, marks, now);
      } else {
        UnreportedShown(s, e, marks, now);
      }
    case Resizes(_, _, _) => ResizeShown(s, e, marks, now);
    case SetsText(_, _) =>
    case Tick => DrawShown(s.bar, Heard(s, e, marks, now), marks, now);
  }

  // ----- Runs -----

  predicate BehavesThroughout(s: Sys, log: seq<Timed>, marks: Marks)
    requires Possible(s, log, marks)
    decreases |log|
  {
    log == [] ||
    (WellBehaved(s, log[0].event) && BehavesThroughout(Step(s, log[0].event, marks, log[0].now), log[1..], marks))
  }

  lemma {:induction false} RunShown(s: Sys, log: seq<Timed>, marks: Marks)
    requires Coherent(s) && Shown(s) && KeepsOff(s.term)
    requires Possible(s, log, marks) && Admissible(s, log, marks) && BehavesThroughout(s, log, marks)
    ensures Shown(Run(s, log, marks))
    decreases |log|
  {
    if log != [] {
      StepShown(s, log[0].event, marks, log[0].now);
      StepCoherent(s, log[0].event, marks, log[0].now);
      RunShown(Step(s, log[0].event, marks, log[0].now), log[1..], marks);
    }
  }

  /** After every run in which guest and window keep off the bar's row: a remembered text is what the
      row shows, a repaint that is due leaves the row at the bar's text, exactly as wide as the
      terminal, and painting where the repaint was skipped would change nothing but the save slot. */
  lemma CacheCoherence(t: Term, left: string, right: string, log: seq<Timed>, marks: Marks, now: int)
    requires Fresh(t) && !marks(' ')
    requires Possible(Started(t, left, right), log, marks) && Admissible(Started(t, left, right), log, marks)
    requires BehavesThroughout(Started(t, left, right), log, marks)
    ensures var s := Run(Started(t, left, right), log, marks);
            var text := BarText(s.bar.left, s.bar.right, s.bar.cols, marks);
            && Shown(s)
            && (MayDraw(s.bar, now) ==> Step(s, Tick, marks, now).term.bottom == text && Cells(text, marks) == s.term.cols)
            && (MayDraw(s.bar, now) && text == s.bar.lastBar ==>
                  DrawOf(s.bar, marks, now).out == [] && ReactAll(s.term, Painting(s.term.rows, text)) == Save(s.term))
  {
    var s0 := Started(t, left, right);
    StartCoherent(t, left, right);
    if s0.bar.active {
      RunShown(s0, log, marks);
    }
    RunCoherent(s0, log, marks);
    var s := Run(s0, log, marks);
    if MayDraw(s.bar, now) {
      var text := BarText(s.bar.left, s.bar.right, s.bar.cols, marks);
      BarTextWidth(s.bar.left, s.bar.right, s.bar.cols, marks);
      DrawReact(s.bar, Heard(s, Tick, marks, now), marks, now);
      PaintReact(s.term, text);
    }
  }

  // ----- A cursor stranded on the bar's row -----

  const LETTER: seq<byte> := ['x' as byte]

  /** When the terminal shrinks onto the guest's cursor, the cursor is left on the bar's row, and the
      text the guest writes next lands in the bar without being noticed. The remembered text survives
      whatever letter is typed exactly when the cursor is above the bar's row. */
  lemma StrandedCursor(s: Sys, marks: Marks, now: int)
    requires Coherent(s) && Shown(s) && s.bar.active && s.bar.lastBar != "" && s.term.pending == []
    ensures forall e :: Sized(s, Writes(LETTER, e)) && Fits(s, Writes(LETTER, e), marks, now)
    ensures (forall e | StaysInside(s.term, LETTER, e) :: Shown(Step(s, Writes(LETTER, e), marks, now)))
       <==> s.term.cursor.row < s.term.rows
  {
    forall e
      ensures Sized(s, Writes(LETTER, e)) && Fits(s, Writes(LETTER, e), marks, now)
      ensures Step(s, Writes(LETTER, e), marks, now)
              == Sys(s.bar, s.term.(cursor := OnScreen(s.term, e.cursor), bottom := e.bottom))
    {
      TypeStep(s, e, marks, now);
    }
    var other := Effect(s.term.cursor, s.term.region, "");
    assert s.term.cursor.row >= s.term.rows ==> StaysInside(s.term, LETTER, other);
  }

  lemma TypeStep(s: Sys, e: Effect, marks: Marks, now: int)
    requires Coherent(s) && !s.term.alt && s.term.pending == []
    ensures Sized(s, Writes(LETTER, e)) && Fits(s, Writes(LETTER, e), marks, now)
    ensures Step(s, Writes(LETTER, e), marks, now)
            == Sys(s.bar, s.term.(cursor := OnScreen(s.term, e.cursor), bottom := e.bottom))
  {
    LetterFrames();
    QuietWrite(s, LETTER, e, marks, now);
  }

  lemma LetterFrames()
    ensures FramesOf(LETTER) == Frames([LETTER], []) && ParseAltScreen(LETTER).None? && ParseOriginMode(LETTER).None?
  {
    assert LETTER[1..] == [];
  }
}
