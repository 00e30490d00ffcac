/** Where the promises of the bar end: guest output after which one of them fails. */
module BarLimits {
  import opened Wrappers
  import opened ModeFilter
  import opened Terminal
  import opened BarLayout
  import opened StatusBar
  import opened BarRuns
  import opened BarCursor
  import opened BarCache

  // ----- Reading the sequences below -----

  /** A control sequence up to its final byte. */
  predicate Whole(s: seq<byte>) {
    && |s| >= 3 && s[0] == ESC && s[1] == '[' as byte
    && (forall i | 2 <= i < |s| - 1 :: Continues(s[i])) && !Continues(s[|s| - 1])
  }

  lemma WholeFirst(s: seq<byte>, rest: seq<byte>)
    requires Whole(s)
    ensures EscapeLength(s + rest) == Some(|s|) && FramesOf(s + rest) == Front(s, FramesOf(rest))
  {
    var b := s + rest;
    assert b[0] == ESC && b[1] == '[' as byte && b[|s| - 1] == s[|s| - 1];
    assert forall i | 2 <= i < |s| - 1 :: Continues(b[i]) by {
      assert forall i | 0 <= i < |s| :: b[i] == s[i];
    }
    assert FinalAt(b, 2) == |s| - 1;
    assert b[..|s|] == s && b[|s|..] == rest;
  }

  lemma WholeAlone(s: seq<byte>)
    requires Whole(s)
    ensures FramesOf(s) == Frames([s], [])
  {
    WholeFirst(s, []);
    assert s + [] == s;
  }

  /** The start of a control sequence. */
  lemma StartOnly(s: seq<byte>)
    requires |s| >= 2 && s[0] == ESC && s[1] == '[' as byte && forall i | 2 <= i < |s| :: Continues(s[i])
    ensures FramesOf(s) == Frames([], s)
  {
    assert FinalAt(s, 2) == |s|;
  }

  /** A control sequence with these parameters and this final byte. */
  function Sequence(params: seq<byte>, final: char): seq<byte>
    requires final < 128 as char
  {
    [ESC, '[' as byte] + params + [final as byte]
  }

  lemma SequenceShape(params: seq<byte>, final: char)
    requires final < 128 as char && (forall i | 0 <= i < |params| :: Continues(params[i])) && !Continues(final as byte)
    ensures var s := Sequence(params, final);
            Whole(s) && s[2..|s| - 1] == params && s[|s| - 1] == final as byte
  {
    var s := Sequence(params, final);
    assert forall i | 2 <= i < |s| - 1 :: s[i] == params[i - 2];
  }

  // ----- Where a run starts -----

  /** The bar has just been started. */
  predicate Starts(t: Term, marks: Marks) {
    Fresh(t) && t.rows >= MIN_BAR_ROWS && t.cols >= 1 && !marks(' ')
  }

  lemma StartState(t: Term, left: string, right: string, marks: Marks)
    requires Starts(t, marks)
    ensures var s := Started(t, left, right);
            && Coherent(s) && s.bar == NewBar(t.cols, t.rows).(left := left, right := right, active := true)
            && s.term.cursor == HOME && s.term.pending == [] && !s.term.alt && !s.term.origin
            && s.term.region == Region(1, t.rows - 1)
  {
    StartCoherent(t, left, right);
    ReactThree(t, EraseScreen, SetRegion(t.rows - 1), MoveTo(1, 1));
  }

  lemma TextIsWide(b: Bar, marks: Marks)
    requires b.cols >= 1 && !marks(' ')
    ensures BarText(b.left, b.right, b.cols, marks) != ""
  {
    BarTextWidth(b.left, b.right, b.cols, marks);
  }

  /** No latch is set, no hold is on, the main screen is shown and rows are absolute. */
  predicate Calm(m: Modes) {
    !m.reset && !m.regionLost && !m.leftAltScreen && !m.altScreen && !m.originMode && !m.cursorSaved
  }

  /** The bar repaints at once when the observer reports an item and nothing has to be adjusted. */
  lemma BarRepaints(b: Bar, p: seq<byte>, seen: Observation, marks: Marks, now: int)
    requires b.active && b.rows >= MIN_BAR_ROWS && b.cols >= 1 && !marks(' ')
    requires seen == ObserveOf(b.observer, p, now) && seen.redraw && Calm(seen.observer.modes)
    ensures var text := BarText(b.left, b.right, b.cols, marks);
            ObserveBarOf(b, p, marks, now)
            == Did(b.(lastBar := text, hidden := false, observer := seen.observer), Painting(b.rows, text))
  {
    TextIsWide(b, marks);
    var b1 := b.(observer := seen.observer);
    assert RegionAfter(b1, now) == Did(b1.(lastBar := "", hidden := false), []);
    assert Released(seen.observer.modes, now) == seen.observer.modes;
  }

  lemma RepaintedWrite(s: Sys, p: seq<byte>, item: seq<byte>, rest: seq<byte>, e: Effect, marks: Marks, now: int)
    requires Coherent(s) && s.term.pending == [] && s.bar.active && s.bar.rows >= MIN_BAR_ROWS && s.bar.cols >= 1
    requires FramesOf(p) == Frames([item], rest) && !Cut(item) && |rest| <= MAX_PARTIAL_ESCAPE && !marks(' ')
    requires var a := Apply(s.bar.observer.modes, item, now);
             a.redraw && Calm(a.modes) && OriginSeen(s.bar.observer.modes, item)
    ensures Sized(s, GuestWrites(p, [e])) && Tidy(s, GuestWrites(p, [e]), now)
    ensures Undivided(s, GuestWrites(p, [e]), marks, now) <==> rest == []
    ensures var text := BarText(s.bar.left, s.bar.right, s.bar.cols, marks);
            Step(s, GuestWrites(p, [e]), marks, now)
            == Sys(s.bar.(lastBar := text, hidden := false,
                          observer := Observer(Apply(s.bar.observer.modes, item, now).modes, rest)),
                   Save(GuestItem(s.term, item, e)).(bottom := text, pending := []))
  {
    OneWrite(s.term, s.bar.observer, p, item, rest, e, now);
    TidyOne(s.bar.observer.modes, item, now);
    TrackItem(s.term, s.term, Applied(s.bar.observer.modes, false), item, e, now);
    BarRepaints(s.bar, p, ObserveOf(s.bar.observer, p, now), marks, now);
    PaintedOver(GuestItem(s.term, item, e).(pending := rest), s.bar, marks);
  }

  lemma PaintedOver(t: Term, b: Bar, marks: Marks)
    requires t.cursor == OnScreen(t, t.cursor) && !t.origin && !t.alt && t.rows == b.rows >= MIN_BAR_ROWS && t.cols >= 1
    ensures var text := BarText(b.left, b.right, b.cols, marks);
            Receive(t, Painting(b.rows, text)) == Save(t).(bottom := text, pending := [])
  {
    PaintReact(t.(pending := []), BarText(b.left, b.right, b.cols, marks));
  }

  // ----- A second restore -----

  const SAVE: seq<byte> := [ESC, '7' as byte]

  lemma SlotFrames()
    ensures FramesOf(SAVE) == Frames([SAVE], []) && FramesOf(RESTORE) == Frames([RESTORE], [])
    ensures !Cut(SAVE) && !Cut(RESTORE)
  {
    WholeSequence(SAVE);
    WholeSequence(RESTORE);
  }

  /** A coherent state between two sequences in which the bar is on. */
  predicate Ready(s: Sys) {
    && Coherent(s) && s.term.pending == [] && s.bar.active && !s.bar.hidden
    && s.bar.rows >= MIN_BAR_ROWS && s.bar.cols >= 1
  }

  lemma SaveStep(s: Sys, e: Effect, marks: Marks, now: int)
    requires Ready(s) && Calm(s.bar.observer.modes)
    ensures Sized(s, Writes(SAVE, e)) && Fits(s, Writes(SAVE, e), marks, now)
    ensures var m := s.bar.observer.modes.(cursorSaved := true, cursorSavedAt := now);
            Step(s, Writes(SAVE, e), marks, now) == Sys(WithModes(s.bar, m), Save(s.term))
  {
    SlotFrames();
    QuietWrite(s, SAVE, e, marks, now);
  }

  /** A restore that ends a hold makes the bar repaint. */
  lemma RestoreStep(s: Sys, e: Effect, marks: Marks, now: int)
    requires Ready(s) && !marks(' ')
    requires var m := s.bar.observer.modes; m.cursorSaved && Calm(m.(cursorSaved := false))
    ensures Sized(s, Writes(RESTORE, e)) && Fits(s, Writes(RESTORE, e), marks, now)
    ensures var text := BarText(s.bar.left, s.bar.right, s.bar.cols, marks);
            var m := s.bar.observer.modes.(cursorSaved := false);
            Step(s, Writes(RESTORE, e), marks, now)
            == Sys(WithModes(s.bar, m).(lastBar := text), Save(Restore(s.term)).(bottom := text))
  {
    SlotFrames();
    RepaintedWrite(s, RESTORE, RESTORE, [], e, marks, now);
  }

  /** A restore that ends none goes unreported. */
  lemma QuietRestoreStep(s: Sys, e: Effect, marks: Marks, now: int)
    requires Ready(s) && Calm(s.bar.observer.modes)
    ensures Sized(s, Writes(RESTORE, e)) && Fits(s, Writes(RESTORE, e), marks, now)
    ensures Step(s, Writes(RESTORE, e), marks, now) == Sys(s.bar, Restore(s.term))
  {
    SlotFrames();
    QuietWrite(s, RESTORE, e, marks, now);
  }

  /** A repaint that is due. */
  lemma TickStep(s: Sys, marks: Marks, now: int)
    requires Ready(s) && Calm(s.bar.observer.modes) && BarText(s.bar.left, s.bar.right, s.bar.cols, marks) != s.bar.lastBar
    ensures Fits(s, Tick, marks, now)
    ensures var text := BarText(s.bar.left, s.bar.right, s.bar.cols, marks);
            Step(s, Tick, marks, now) == Sys(s.bar.(lastBar := text), Save(s.term).(bottom := text))
  {
    PaintedOver(s.term, s.bar, marks);
    assert Released(s.bar.observer.modes, now) == s.bar.observer.modes;
  }

  /** The guest saves, restores and moves. */
  function SavedRestoredMoved(e: Effect): seq<Timed> {
    [Timed(Writes(SAVE, e), 0)] + [Timed(Writes(RESTORE, e), 0)] + [Timed(Writes(LETTER, e), 0)]
  }

  lemma SavedRestoredMovedRun(t: Term, left: string, right: string, e: Effect, marks: Marks) returns (s: Sys)
    requires Starts(t, marks)
    ensures Reaches(Started(t, left, right), SavedRestoredMoved(e), marks, s)
    ensures Ready(s) && Calm(s.bar.observer.modes) && s.bar.cols == t.cols
    ensures s.bar.lastBar == BarText(left, right, t.cols, marks)
    ensures s.term.mainSlot == HOME && s.term.cursor == OnScreen(s.term, e.cursor)
    ensures s.term.rows == t.rows && s.term.cols == t.cols
  {
    var s0 := Started(t, left, right);
    StartState(t, left, right, marks);
    SaveStep(s0, e, marks, 0);
    ReachNext(s0, [], marks, s0, Timed(Writes(SAVE, e), 0));
    var s1 := Step(s0, Writes(SAVE, e), marks, 0);
    RestoreStep(s1, e, marks, 0);
    ReachNext(s0, [Timed(Writes(SAVE, e), 0)], marks, s1, Timed(Writes(RESTORE, e), 0));
    var s2 := Step(s1, Writes(RESTORE, e), marks, 0);
    TypeStep(s2, e, marks, 0);
    ReachNext(s0, [Timed(Writes(SAVE, e), 0)] + [Timed(Writes(RESTORE, e), 0)], marks, s2, Timed(Writes(LETTER, e), 0));
    s := Step(s2, Writes(LETTER, e), marks, 0);
  }

  /** Then the bar's text changes, it repaints, and the guest restores again. */
  function RepaintedRestored(left: string, right: string, e: Effect): seq<Timed> {
    SavedRestoredMoved(e) + [Timed(SetsText(left, right), 0)] + [Timed(Tick, 0)] + [Timed(Writes(RESTORE, e), 0)]
  }

  lemma RepaintedRestoredRun(s0: Sys, s: Sys, left: string, right: string, e: Effect, marks: Marks) returns (s': Sys)
    requires Reaches(s0, SavedRestoredMoved(e), marks, s) && Ready(s) && Calm(s.bar.observer.modes)
    requires BarText(left, right, s.bar.cols, marks) != s.bar.lastBar
    ensures Reaches(s0, RepaintedRestored(left, right, e), marks, s') && s'.term.cursor == s.term.cursor
  {
    var log := SavedRestoredMoved(e);
    ReachNext(s0, log, marks, s, Timed(SetsText(left, right), 0));
    var s4 := Step(s, SetsText(left, right), marks, 0);
    TickStep(s4, marks, 0);
    ReachNext(s0, log + [Timed(SetsText(left, right), 0)], marks, s4, Timed(Tick, 0));
    var s5 := Step(s4, Tick, marks, 0);
    QuietRestoreStep(s5, e, marks, 0);
    ReachNext(s0, log + [Timed(SetsText(left, right), 0)] + [Timed(Tick, 0)], marks, s5, Timed(Writes(RESTORE, e), 0));
    s' := Step(s5, Writes(RESTORE, e), marks, 0);
  }

  /** From Start: the guest saves, restores and moves, the bar's text changes and it repaints, and the
      guest restores again. The second restore lands wherever the guest had moved. */
  lemma SecondRestoreMisses(t: Term, left: string, right: string, left': string, right': string, e: Effect, marks: Marks)
    requires Starts(t, marks) && BarText(left', right', t.cols, marks) != BarText(left, right, t.cols, marks)
    ensures var s0, log := Started(t, left, right), RepaintedRestored(left', right', e);
            && Possible(s0, log, marks) && Admissible(s0, log, marks)
            && s0.term.cursor == HOME && Run(s0, log, marks).term.cursor == OnScreen(t, e.cursor)
  {
    StartState(t, left, right, marks);
    var s3 := SavedRestoredMovedRun(t, left, right, e, marks);
    var s6 := RepaintedRestoredRun(Started(t, left, right), s3, left', right', e, marks);
  }

  // ----- A resize between two restores -----

  /** The window reports its size again, the same as before, and the guest restores. */
  function ResizedRestored(t: Term, e: Effect): seq<Timed> {
    SavedRestoredMoved(e) + [Timed(Resizes(t.cols, t.rows, ""), 0)] + [Timed(Writes(RESTORE, e), 0)]
  }

  /** From Start: the guest saves, restores and moves, and the window is resized. The bar paints nothing,
      but it goes through the slot to keep the cursor while it sets the region, and the guest's second
      restore lands wherever the guest had moved. */
  lemma ResizeTakesSlot(t: Term, left: string, right: string, e: Effect, marks: Marks) returns (s: Sys)
    requires Starts(t, marks)
    ensures Reaches(Started(t, left, right), SavedRestoredMoved(e), marks, s)
    ensures Answer(s, Resizes(t.cols, t.rows, ""), marks, 0).out == [SaveCursor, SetRegion(t.rows - 1), RestoreCursor]
    ensures var s0, log := Started(t, left, right), ResizedRestored(t, e);
            && Possible(s0, log, marks) && Admissible(s0, log, marks)
            && s0.term.cursor == HOME && Run(s0, log, marks).term.cursor == OnScreen(t, e.cursor)
  {
    StartState(t, left, right, marks);
    s := SavedRestoredMovedRun(t, left, right, e, marks);
    var s' := ResizedRestoredRun(Started(t, left, right), s, t, e, marks);
  }

  lemma ResizedRestoredRun(s0: Sys, s: Sys, t: Term, e: Effect, marks: Marks) returns (s': Sys)
    requires Reaches(s0, SavedRestoredMoved(e), marks, s) && Ready(s) && Calm(s.bar.observer.modes)
    requires s.term.rows == t.rows && s.term.cols == t.cols
    ensures Reaches(s0, ResizedRestored(t, e), marks, s') && s'.term.cursor == s.term.cursor
    ensures Answer(s, Resizes(t.cols, t.rows, ""), marks, 0).out == [SaveCursor, SetRegion(t.rows - 1), RestoreCursor]
  {
    s' := ResizeBeforeRestore(s0, SavedRestoredMoved(e), s, Timed(Resizes(t.cols, t.rows, ""), 0), e, marks);
  }

  lemma ResizeStep(s: Sys, marks: Marks)
    requires Ready(s) && Calm(s.bar.observer.modes)
    ensures var resize := Resizes(s.term.cols, s.term.rows, "");
            && Fits(s, resize, marks, 0)
            && Answer(s, resize, marks, 0).out == [SaveCursor, SetRegion(s.term.rows - 1), RestoreCursor]
            && var s' := Step(s, resize, marks, 0);
            && Ready(s') && Calm(s'.bar.observer.modes)
            && s'.term.mainSlot == s'.term.cursor == s.term.cursor
  {
    ShrinkStep(s, s.term.rows, marks);
    StepCoherent(s, Resizes(s.term.cols, s.term.rows, ""), marks, 0);
  }

  lemma ResizeBeforeRestore(s0: Sys, log: seq<Timed>, s: Sys, resize: Timed, e: Effect, marks: Marks) returns (s': Sys)
    requires Reaches(s0, log, marks, s) && Ready(s) && Calm(s.bar.observer.modes)
    requires resize == Timed(Resizes(s.term.cols, s.term.rows, ""), 0)
    ensures Reaches(s0, log + [resize] + [Timed(Writes(RESTORE, e), 0)], marks, s') && s'.term.cursor == s.term.cursor
    ensures Answer(s, resize.event, marks, 0).out == [SaveCursor, SetRegion(s.term.rows - 1), RestoreCursor]
  {
    ResizeStep(s, marks);
    ReachNext(s0, log, marks, s, resize);
    var s1 := Step(s, resize.event, marks, 0);
    QuietRestoreStep(s1, e, marks, 0);
    ReachNext(s0, log + [resize], marks, s1, Timed(Writes(RESTORE, e), 0));
    s' := Step(s1, Writes(RESTORE, e), marks, 0);
  }

  // ----- A restore in the other buffer -----

  /** The guest writes one whole sequence: what it does to the terminal, and what the observer keeps. */
  lemma WholeWrite(s: Sys, item: seq<byte>, e: Effect, marks: Marks, now: int)
    requires Coherent(s) && s.term.pending == []
    requires FramesOf(item) == Frames([item], []) && !Cut(item) && OriginSeen(s.bar.observer.modes, item)
    ensures Sized(s, Writes(item, e)) && Fits(s, Writes(item, e), marks, now)
    ensures Before(s, Writes(item, e)) == Heard(s, Writes(item, e), marks, now) == GuestItem(s.term, item, e)
    ensures var s', m := Step(s, Writes(item, e), marks, now), Apply(s.bar.observer.modes, item, now).modes;
            && Coherent(s') && s'.term.pending == [] && s'.bar.active == s.bar.active
            && s'.bar.observer.modes.altScreen == m.altScreen
            && (!m.cursorSaved ==> !s'.bar.observer.modes.cursorSaved)
  {
    var w := Writes(item, e);
    OneWrite(s.term, s.bar.observer, item, item, [], e, now);
    RunPending(s.term, [item], [e]);
    OneItem(s.term, s.bar.observer.modes, item, e, now);
    TidyOne(s.bar.observer.modes, item, now);
    StepCoherent(s, w, marks, now);
    AnswerModes(s, w, marks, now);
    StepInStep(s, w, marks, now);
  }

  const ENTER: seq<byte> := Sequence(Bytes("?47"), 'h')

  lemma EnterTexts()
    ensures Bytes("?47")[1..] == Bytes("47") && |Bytes("47")| == 2 && |Bytes("6")| == 1 && |Bytes("1049")| == 4
  {
  }

  lemma EnterFacts()
    ensures FramesOf(ENTER) == Frames([ENTER], []) && !Cut(ENTER) && !SavesOnSwitch(ENTER)
    ensures ParseAltScreen(ENTER) == Some(true) && ParseOriginMode(ENTER).None?
  {
    SequenceShape(Bytes("?47"), 'h');
    WholeAlone(ENTER);
    SplitOne(Bytes("?47"));
    EnterTexts();
    assert [Bytes("?47")][1..] == [];
  }

  lemma LeaveItem(t: Term, e: Effect)
    ensures !GuestItem(t, LEAVE, e).alt && GuestItem(t, LEAVE, e).cursor == OnScreen(t, e.cursor)
    ensures GuestItem(t, LEAVE, e).rows == t.rows && GuestItem(t, LEAVE, e).cols == t.cols
  {
    LeaveFacts();
  }

  /** Leaving the alternate screen makes the bar set its region again, through the slot of the main screen. */
  lemma LeaveTakesSlot(b: Bar, marks: Marks, now: int)
    requires b.observer.partial == [] && b.active && b.observer.modes.altScreen && !b.observer.modes.cursorSaved
    ensures SaveCursor in ObserveBarOf(b, LEAVE, marks, now).out
  {
    LeaveFacts();
    WholeAlone(LEAVE);
    assert [] + LEAVE == LEAVE && [] + [LEAVE] == [LEAVE];
    ApplyOne(b.observer.modes, [], LEAVE, now);
    RegionReturns(b.(observer := ObserveOf(b.observer, LEAVE, now).observer), now);
  }

  lemma RegionReturns(b: Bar, now: int)
    requires b.active && !b.observer.modes.altScreen && b.observer.modes.leftAltScreen && !b.observer.modes.cursorSaved
    ensures SaveCursor in RegionAfter(b, now).out
  {
  }

  /** The guest saves, and restores on the alternate screen before it restores on the main screen. */
  function BackAgain(e: Effect): seq<Timed> {
    [Timed(Writes(SAVE, e), 0)] + [Timed(Writes(ENTER, e), 0)] + [Timed(Writes(RESTORE, e), 0)]
      + [Timed(Writes(LEAVE, e), 0)]
  }

  lemma BackRun(s0: Sys, s2: Sys, t: Term, e: Effect, marks: Marks) returns (s: Sys)
    requires Reaches(s0, [Timed(Writes(SAVE, e), 0)] + [Timed(Writes(ENTER, e), 0)], marks, s2)
    requires s2.term.pending == [] && s2.bar.active && s2.bar.observer.modes.altScreen
    requires s2.term.rows == t.rows && s2.term.cols == t.cols
    ensures Reaches(s0, BackAgain(e), marks, s)
    ensures s.term.pending == [] && !s.bar.observer.modes.cursorSaved && !s.bar.observer.modes.altScreen
    ensures s.term.mainSlot == OnScreen(t, e.cursor) && s.term.rows == t.rows && s.term.cols == t.cols
  {
    var log := [Timed(Writes(SAVE, e), 0)] + [Timed(Writes(ENTER, e), 0)];
    RestoreThere(s2, e, marks);
    ReachNext(s0, log, marks, s2, Timed(Writes(RESTORE, e), 0));
    var s3 := Step(s2, Writes(RESTORE, e), marks, 0);
    LeaveThere(s3, e, marks);
    ReachNext(s0, log + [Timed(Writes(RESTORE, e), 0)], marks, s3, Timed(Writes(LEAVE, e), 0));
    s := Step(s3, Writes(LEAVE, e), marks, 0);
  }

  /** A restore on the alternate screen ends every hold. */
  lemma RestoreThere(s: Sys, e: Effect, marks: Marks)
    requires Coherent(s) && s.term.pending == [] && s.bar.active && s.bar.observer.modes.altScreen
    ensures Sized(s, Writes(RESTORE, e)) && Fits(s, Writes(RESTORE, e), marks, 0)
    ensures var s' := Step(s, Writes(RESTORE, e), marks, 0);
            && Coherent(s') && s'.term.pending == [] && s'.bar.active
            && s'.bar.observer.modes.altScreen && !s'.bar.observer.modes.cursorSaved
            && s'.term.rows == s.term.rows && s'.term.cols == s.term.cols
  {
    SlotFrames();
    assert ParseAltScreen(RESTORE).None? && !IsSetScrollRegion(RESTORE) && !IsFullReset(RESTORE) && !IsCursorSave(RESTORE);
    WholeWrite(s, RESTORE, e, marks, 0);
    SlotStep(s, Writes(RESTORE, e), marks, 0);
  }

  /** Back on the main screen the bar's answer takes the slot for wherever the cursor is. */
  lemma LeaveThere(s: Sys, e: Effect, marks: Marks)
    requires Coherent(s) && s.term.pending == [] && s.bar.active
    requires s.bar.observer.modes.altScreen && !s.bar.observer.modes.cursorSaved
    ensures Sized(s, Writes(LEAVE, e)) && Fits(s, Writes(LEAVE, e), marks, 0)
    ensures var s' := Step(s, Writes(LEAVE, e), marks, 0);
            && Coherent(s') && s'.term.pending == []
            && !s'.bar.observer.modes.altScreen && !s'.bar.observer.modes.cursorSaved
            && s'.term.mainSlot == OnScreen(s.term, e.cursor) && s'.term.rows == s.term.rows && s'.term.cols == s.term.cols
  {
    LeaveFacts();
    WholeAlone(LEAVE);
    WholeWrite(s, LEAVE, e, marks, 0);
    LeaveItem(s.term, e);
    LeaveTakesSlot(s.bar, marks, 0);
    SlotStep(s, Writes(LEAVE, e), marks, 0);
  }

  /** The state after the save, on the alternate screen after the restore there, and back. */
  lemma RestoredElsewhereRun(t: Term, left: string, right: string, e: Effect, marks: Marks) returns (s: Sys)
    requires Starts(t, marks)
    ensures Reaches(Started(t, left, right), BackAgain(e), marks, s)
    ensures s.term.pending == [] && !s.bar.observer.modes.cursorSaved && !s.bar.observer.modes.altScreen
    ensures s.term.mainSlot == OnScreen(t, e.cursor) && s.term.rows == t.rows && s.term.cols == t.cols
  {
    var s0 := Started(t, left, right);
    StartState(t, left, right, marks);
    SaveStep(s0, e, marks, 0);
    ReachNext(s0, [], marks, s0, Timed(Writes(SAVE, e), 0));
    var s1 := Step(s0, Writes(SAVE, e), marks, 0);
    EnterThere(s1, e, marks);
    ReachNext(s0, [Timed(Writes(SAVE, e), 0)], marks, s1, Timed(Writes(ENTER, e), 0));
    var s2 := Step(s1, Writes(ENTER, e), marks, 0);
    s := BackRun(s0, s2, t, e, marks);
  }

  lemma EnterThere(s: Sys, e: Effect, marks: Marks)
    requires Coherent(s) && s.term.pending == [] && s.bar.active
    ensures Sized(s, Writes(ENTER, e)) && Fits(s, Writes(ENTER, e), marks, 0)
    ensures var s' := Step(s, Writes(ENTER, e), marks, 0);
            && Coherent(s') && s'.term.pending == [] && s'.bar.active && s'.bar.observer.modes.altScreen
            && s'.term.rows == s.term.rows && s'.term.cols == s.term.cols
  {
    EnterFacts();
    WholeWrite(s, ENTER, e, marks, 0);
    SlotStep(s, Writes(ENTER, e), marks, 0);
  }

  /** From Start, all within the same instant: the guest saves, enters the alternate screen, restores
      there, leaves and restores. The restore on the other screen has ended the hold for both, so the
      bar has gone through the main screen's slot on the way back, and the last restore lands wherever
      the switch had left the cursor. */
  lemma OtherBufferRestoreMisses(t: Term, left: string, right: string, e: Effect, marks: Marks)
    requires Starts(t, marks)
    ensures var s0, log := Started(t, left, right), BackAgain(e) + [Timed(Writes(RESTORE, e), 0)];
            && Possible(s0, log, marks) && Admissible(s0, log, marks)
            && s0.term.cursor == HOME && Run(s0, log, marks).term.cursor == OnScreen(t, e.cursor)
  {
    var s0 := Started(t, left, right);
    StartState(t, left, right, marks);
    var s := RestoredElsewhereRun(t, left, right, e, marks);
    SlotFrames();
    QuietWrite(s, RESTORE, e, marks, 0);
    ReachNext(s0, BackAgain(e), marks, s, Timed(Writes(RESTORE, e), 0));
  }

  // ----- The region of a full-screen program -----

  const OWN_REGION: seq<byte> := Sequence(Bytes("1;5"), 'r')

  lemma OwnRegionFacts(m: Modes, now: int)
    ensures FramesOf(OWN_REGION) == Frames([OWN_REGION], []) && !Cut(OWN_REGION)
    ensures ParseAltScreen(OWN_REGION).None? && ParseOriginMode(OWN_REGION).None? && IsSetScrollRegion(OWN_REGION)
    ensures Apply(m, OWN_REGION, now).redraw
  {
    SequenceShape(Bytes("1;5"), 'r');
    WholeAlone(OWN_REGION);
    assert OWN_REGION[2] == '1' as byte;
  }

  /** From Start: a program on the alternate screen sets a region of its own, and the bar answers by
      releasing it. */
  lemma OwnRegionIsReleased(t: Term, left: string, right: string, e: Effect, marks: Marks)
    requires Starts(t, marks)
    ensures var s0 := Started(t, left, right);
            && Sized(s0, Writes(ENTER, e)) && Fits(s0, Writes(ENTER, e), marks, 0)
            && var s1 := Step(s0, Writes(ENTER, e), marks, 0);
            && Sized(s1, Writes(OWN_REGION, e)) && Fits(s1, Writes(OWN_REGION, e), marks, 0)
            && Before(s1, Writes(OWN_REGION, e)).region == e.region
            && Step(s1, Writes(OWN_REGION, e), marks, 0).term.region == Region(1, t.rows)
  {
    StartState(t, left, right, marks);
    EnterThere(Started(t, left, right), e, marks);
    OwnRegionStep(Step(Started(t, left, right), Writes(ENTER, e), marks, 0), e, marks);
  }

  lemma OwnRegionStep(s: Sys, e: Effect, marks: Marks)
    requires Coherent(s) && s.term.pending == [] && s.bar.active && s.bar.observer.modes.altScreen
    ensures Sized(s, Writes(OWN_REGION, e)) && Fits(s, Writes(OWN_REGION, e), marks, 0)
    ensures Before(s, Writes(OWN_REGION, e)).region == e.region
    ensures Step(s, Writes(OWN_REGION, e), marks, 0).term.region == Full(s.term)
  {
    OwnRegionFacts(s.bar.observer.modes, 0);
    WholeWrite(s, OWN_REGION, e, marks, 0);
    OneWrite(s.term, s.bar.observer, OWN_REGION, OWN_REGION, [], e, 0);
    HiddenRegion(s, Writes(OWN_REGION, e), marks, 0);
  }

  // ----- A cursor stranded on the bar's row -----

  /** The window shrinks to the row the guest's cursor is on, and the bar repaints. */
  function ShrunkOnto(t: Term, e: Effect): seq<Timed> {
    [Timed(Writes(LETTER, e), 0)] + [Timed(Resizes(t.cols, e.cursor.row, ""), 0)] + [Timed(Tick, 0)]
  }

  /** From Start: a shrinking window leaves the cursor on the bar's row under a remembered text, and
      then some letter the guest types makes that text untrue. */
  lemma WindowStrandsCursor(t: Term, left: string, right: string, e: Effect, marks: Marks)
    requires Starts(t, marks) && MIN_BAR_ROWS <= e.cursor.row < t.rows && 1 <= e.cursor.col <= t.cols
    ensures var s0, log := Started(t, left, right), ShrunkOnto(t, e);
            && Possible(s0, log, marks) && Admissible(s0, log, marks)
            && var s := Run(s0, log, marks);
            && Shown(s) && s.bar.lastBar != "" && s.term.cursor == e.cursor && e.cursor.row == s.term.rows
            && exists x | Sized(s, Writes(LETTER, x)) ::
                 StaysInside(s.term, LETTER, x) && !Shown(Step(s, Writes(LETTER, x), marks, 0))
  {
    var s0 := Started(t, left, right);
    StartState(t, left, right, marks);
    TypeStep(s0, e, marks, 0);
    ReachNext(s0, [], marks, s0, Timed(Writes(LETTER, e), 0));
    var s1 := Step(s0, Writes(LETTER, e), marks, 0);
    ShrinkStep(s1, e.cursor.row, marks);
    ReachNext(s0, [Timed(Writes(LETTER, e), 0)], marks, s1, Timed(Resizes(t.cols, e.cursor.row, ""), 0));
    var s2 := Step(s1, Resizes(t.cols, e.cursor.row, ""), marks, 0);
    TextIsWide(s2.bar, marks);
    TickStep(s2, marks, 0);
    ReachNext(s0, [Timed(Writes(LETTER, e), 0)] + [Timed(Resizes(t.cols, e.cursor.row, ""), 0)], marks, s2, Timed(Tick, 0));
    StrandedCursor(Step(s2, Tick, marks, 0), marks, 0);
  }

  lemma ShrinkStep(s: Sys, rows: int, marks: Marks)
    requires Ready(s) && Calm(s.bar.observer.modes) && !s.term.origin && rows >= MIN_BAR_ROWS
    ensures var e := Resizes(s.bar.cols, rows, "");
            Fits(s, e, marks, 0)
            && var t := s.term.(rows := rows, bottom := "", region := Region(1, rows - 1));
            var t' := t.(cursor := OnScreen(t, s.term.cursor));
            Step(s, e, marks, 0) == Sys(s.bar.(rows := rows, lastBar := ""), Save(t'))
  {
    var e := Resizes(s.bar.cols, rows, "");
    var b := s.bar.(rows := rows, lastBar := "");
    KeptReact(b, Heard(s, e, marks, 0), SetRegion(GuestRows(b)), 0);
    assert Released(s.bar.observer.modes, 0) == s.bar.observer.modes;
  }

  // ----- Sequences divided by the bar's own output, or too long for the observer -----

  const ERASE: seq<byte> := Sequence(Bytes("2"), 'J')
  const HALF_SWITCH: seq<byte> := [ESC, '[' as byte] + Bytes("?1049")

  lemma EraseFacts(m: Modes, now: int)
    ensures Whole(ERASE) && !Cut(ERASE) && ParseAltScreen(ERASE).None? && ParseOriginMode(ERASE).None?
    ensures Apply(m, ERASE, now) == Applied(m, true)
  {
    SequenceShape(Bytes("2"), 'J');
  }

  lemma HalfSwitchPending()
    ensures FramesOf(HALF_SWITCH) == Frames([], HALF_SWITCH) && |HALF_SWITCH| == 7
  {
    StartOnly(HALF_SWITCH);
  }

  const WHOLE_SWITCH: seq<byte> := Sequence(Bytes("?1049"), 'h')

  lemma SwitchTexts()
    ensures Bytes("?1049")[1..] == Bytes("1049")
  {
  }

  lemma WholeSwitchFacts()
    ensures HALF_SWITCH + FINAL == WHOLE_SWITCH
    ensures FramesOf(WHOLE_SWITCH) == Frames([WHOLE_SWITCH], []) && ParseAltScreen(WHOLE_SWITCH) == Some(true)
  {
    SequenceShape(Bytes("?1049"), 'h');
    WholeAlone(WHOLE_SWITCH);
    SplitOne(Bytes("?1049"));
    SwitchTexts();
  }

  /** From Start: the guest erases the screen and writes the start of a switch to the alternate
      screen; the bar repaints in the middle of it; the guest writes the last byte. The bar takes
      itself for hidden, and the terminal still shows the main screen. */
  lemma RepaintDividesSwitch(t: Term, left: string, right: string, e: Effect, marks: Marks)
    requires Starts(t, marks)
    ensures var s0, first, second := Started(t, left, right), GuestWrites(ERASE + HALF_SWITCH, [e]), Writes(FINAL, e);
            && Sized(s0, first) && Tidy(s0, first, 0) && !Undivided(s0, first, marks, 0)
            && var s1 := Step(s0, first, marks, 0);
            && Sized(s1, second)
            && var s2 := Step(s1, second, marks, 0);
            s2.bar.hidden && !s2.term.alt
  {
    var s0 := Started(t, left, right);
    StartState(t, left, right, marks);
    EraseFacts(s0.bar.observer.modes, 0);
    HalfSwitchPending();
    WholeFirst(ERASE, HALF_SWITCH);
    RepaintedWrite(s0, ERASE + HALF_SWITCH, ERASE, HALF_SWITCH, e, marks, 0);
    var s1 := Step(s0, GuestWrites(ERASE + HALF_SWITCH, [e]), marks, 0);
    SwitchUnheard(s1, e, marks);
  }

  const FINAL: seq<byte> := ['h' as byte]

  lemma SwitchUnheard(s: Sys, e: Effect, marks: Marks)
    requires s.term.pending == [] && !s.term.alt && s.bar.observer.partial == HALF_SWITCH
    requires !s.bar.observer.modes.altScreen
    ensures Sized(s, Writes(FINAL, e))
    ensures Step(s, Writes(FINAL, e), marks, 0).bar.hidden && !Step(s, Writes(FINAL, e), marks, 0).term.alt
  {
    FinalHeard(s.term, e);
    FinalObserved(s.bar, marks);
    ReactFrame(Heard(s, Writes(FINAL, e), marks, 0), Answer(s, Writes(FINAL, e), marks, 0).out);
  }

  lemma FinalHeard(t: Term, e: Effect)
    requires t.pending == []
    ensures |GuestFrames(t, FINAL).items| == 1 && GuestOutput(t, FINAL, [e]).alt == t.alt
  {
    assert FINAL[1..] == [] && Parse([], []).items == [];
    assert [FINAL] + [] == [FINAL];
    OneItem(t, NEW_OBSERVER.modes, FINAL, e, 0);
  }

  lemma FinalObserved(b: Bar, marks: Marks)
    requires b.observer.partial == HALF_SWITCH && !b.observer.modes.altScreen
    ensures ObserveBarOf(b, FINAL, marks, 0).bar.hidden
  {
    WholeSwitchFacts();
    ApplyOne(b.observer.modes, [], WHOLE_SWITCH, 0);
    assert [] + [WHOLE_SWITCH] == [WHOLE_SWITCH];
  }

  /** The start of a control sequence with `n` parameter bytes. */
  function LongStart(n: nat): seq<byte> {
    [ESC, '[' as byte] + seq(n, _ => '0' as byte)
  }

  lemma LongStartFacts(n: nat)
    ensures var p, s := LongStart(n), LongStart(n) + ['r' as byte];
            && FramesOf(p) == Frames([], p) && Incomplete(p) && FramesOf(s) == Frames([s], [])
            && (n > 0 ==> IsSetScrollRegion(s)) && ParseAltScreen(s).None? && ParseOriginMode(s).None? && !Cut(s)
  {
    var p, s := LongStart(n), LongStart(n) + ['r' as byte];
    StartOnly(p);
    SequenceShape(seq(n, _ => '0' as byte), 'r');
    assert s == Sequence(seq(n, _ => '0' as byte), 'r');
    WholeAlone(s);
  }

  /** From Start: the guest writes the start of a region change longer than the observer carries, and
      then its last byte. The terminal puts the guest's region in force; the bar is on, not hidden,
      and has not noticed. */
  lemma LongSequenceTakesRegion(t: Term, left: string, right: string, n: nat, e: Effect, marks: Marks)
    requires Starts(t, marks) && n + 2 > MAX_PARTIAL_ESCAPE
    ensures var s0, first, second := Started(t, left, right), GuestWrites(LongStart(n), []), Writes(['r' as byte], e);
            && Sized(s0, first) && Tidy(s0, first, 0) && !Undivided(s0, first, marks, 0)
            && var s1 := Step(s0, first, marks, 0);
            && Sized(s1, second)
            && Step(s1, second, marks, 0) == Sys(s0.bar, s0.term.(region := e.region, cursor := OnScreen(s0.term, e.cursor)))
            && s0.bar.active && !s0.bar.hidden
  {
    var s0, p := Started(t, left, right), LongStart(n);
    StartState(t, left, right, marks);
    LongStartFacts(n);
    assert [] + p == p;
    ReadersAgree([], p);
    LongSequenceEnds(Sys(s0.bar, s0.term.(pending := p)), n, e, marks);
  }

  lemma LongSequenceEnds(s: Sys, n: nat, e: Effect, marks: Marks)
    requires s.term.pending == LongStart(n) && s.bar.observer.partial == [] && n > 0
    ensures var second := Writes(['r' as byte], e);
            Sized(s, second)
            && Step(s, second, marks, 0)
               == Sys(s.bar, s.term.(region := e.region, cursor := OnScreen(s.term, e.cursor), pending := []))
  {
    var item, r := LongStart(n) + ['r' as byte], ['r' as byte];
    LongStartFacts(n);
    ReadersAgree(LongStart(n), r);
    OneItem(s.term, s.bar.observer.modes, item, e, 0);
    PlainFrames(r);
    assert [] + r == r;
    PlainApply(s.bar.observer.modes, FramesOf(r).items, 0);
  }

  // ----- A control inside a sequence -----

  /** A sequence cancelled by the save that follows it. */
  const CANCELLED_SAVE: seq<byte> := [ESC, '[' as byte, '1' as byte] + SAVE

  lemma CancelledSaveFrames()
    ensures Parse([], CANCELLED_SAVE) == Frames([SAVE], [])
    ensures FramesOf(CANCELLED_SAVE) == Frames([[ESC, '[' as byte, '1' as byte, ESC], ['7' as byte]], [])
    ensures Cut([ESC, '[' as byte, '1' as byte, ESC])
  {
    var p := CANCELLED_SAVE;
    var cut := [ESC, '[' as byte, '1' as byte, ESC];
    assert p == cut + ['7' as byte];
    WholeFirst(cut, ['7' as byte]);
    assert ['7' as byte][1..] == [] && [['7' as byte]] + [] == [['7' as byte]];
    assert FramesOf(['7' as byte]) == Frames([['7' as byte]], []);
    assert p[1..][1..][1..] == SAVE;
    CancelledParse(p);
  }

  lemma CancelledParse(p: seq<byte>)
    requires p == [ESC, '[' as byte, '1' as byte, ESC, '7' as byte]
    ensures Parse([], p) == Frames([SAVE], [])
  {
    var q := [ESC, '7' as byte];
    assert p[1..] == ['[' as byte, '1' as byte] + q && p[1..][1..] == ['1' as byte] + q;
    assert p[1..][1..][1..] == q && q[1..] == ['7' as byte];
    assert Parse([], p) == Parse([ESC], p[1..]);
    StartOnly([ESC, '[' as byte]);
    assert [ESC] + ['[' as byte] == [ESC, '[' as byte];
    assert Parse([ESC], p[1..]) == Parse([ESC, '[' as byte], p[1..][1..]);
    StartOnly([ESC, '[' as byte, '1' as byte]);
    assert [ESC, '[' as byte] + ['1' as byte] == [ESC, '[' as byte, '1' as byte];
    assert Parse([ESC, '[' as byte], p[1..][1..]) == Parse([ESC, '[' as byte, '1' as byte], q);
    assert Parse([ESC, '[' as byte, '1' as byte], q) == Parse([ESC], ['7' as byte]);
    assert [ESC] + ['7' as byte] == SAVE && EscapeLength(SAVE) == Some(2);
    assert ['7' as byte][1..] == [] && Parse([], []) == Frames([], []);
    assert Parse([ESC], ['7' as byte]) == Front(SAVE, Frames([], []));
    assert [SAVE] + [] == [SAVE];
  }

  /** The guest moves, the bar repaints, and the guest restores. */
  function MovedRepaintedRestored(e: Effect): seq<Timed> {
    [Timed(Writes(LETTER, e), 0)] + [Timed(Tick, 0)] + [Timed(Writes(RESTORE, e), 0)]
  }

  /** From Start: the guest's save cancels a sequence it had begun, so the observer misses it; the
      guest moves, the bar repaints through the slot, and the guest's restore lands where it had
      moved and not on the position it saved. */
  lemma CancelledSaveMisses(t: Term, left: string, right: string, e: Effect, marks: Marks)
    requires Starts(t, marks)
    ensures var s0, first := Started(t, left, right), GuestWrites(CANCELLED_SAVE, [e]);
            && Sized(s0, first) && !Tidy(s0, first, 0) && Undivided(s0, first, marks, 0)
            && NextHistory(NOTHING_SAVED, s0, first, marks, 0).main == Saved(true, HOME, 0, true, None)
            && var s1 := Step(s0, first, marks, 0);
            && Possible(s1, MovedRepaintedRestored(e), marks) && Admissible(s1, MovedRepaintedRestored(e), marks)
            && Run(s1, MovedRepaintedRestored(e), marks).term.cursor == OnScreen(t, e.cursor)
  {
    var s0, first := Started(t, left, right), GuestWrites(CANCELLED_SAVE, [e]);
    StartState(t, left, right, marks);
    CancelledSaveStep(s0, e, marks);
    var s4 := MovedRepaintedRestoredRun(Step(s0, first, marks, 0), e, marks);
  }

  lemma CancelledSaveStep(s: Sys, e: Effect, marks: Marks)
    requires Ready(s)
    ensures var first := GuestWrites(CANCELLED_SAVE, [e]);
            && Sized(s, first) && !Tidy(s, first, 0) && Undivided(s, first, marks, 0)
            && NextHistory(NOTHING_SAVED, s, first, marks, 0).main
               == (if s.term.alt then NO_SAVE else Saved(true, s.term.cursor, 0, true, None))
            && Step(s, first, marks, 0) == Sys(s.bar, Save(s.term))
  {
    CancelledSaveHeard(s.term, e);
    CancelledSaveUnseen(s.bar.observer, 0);
  }

  lemma CancelledSaveHeard(t: Term, e: Effect)
    requires t.pending == []
    ensures GuestFrames(t, CANCELLED_SAVE) == Frames([SAVE], []) && GuestOutput(t, CANCELLED_SAVE, [e]) == Save(t)
    ensures RememberRun(NOTHING_SAVED, t, [SAVE], [e], 0) == Remember(NOTHING_SAVED, t, SAVE, 0)
  {
    CancelledSaveFrames();
    OneItem(t, NEW_OBSERVER.modes, SAVE, e, 0);
    assert [SAVE][..0] == [] && [e][..0] == [];
  }

  lemma CancelledSaveUnseen(o: Observer, now: int)
    requires o.partial == []
    ensures ObserveOf(o, CANCELLED_SAVE, now) == Observation(o, false) && !NoneCut(ItemsOf(o, CANCELLED_SAVE))
  {
    var cut, seven := [ESC, '[' as byte, '1' as byte, ESC], ['7' as byte];
    CancelledSaveFrames();
    assert [] + CANCELLED_SAVE == CANCELLED_SAVE;
    assert Cut(ItemsOf(o, CANCELLED_SAVE)[0]);
    CutUnseen(o.modes, now);
    UnseenTwo(o.modes, cut, seven, now);
  }

  lemma UnseenTwo(m: Modes, a: seq<byte>, b: seq<byte>, now: int)
    requires Apply(m, a, now) == Applied(m, false) && |b| == 1
    ensures ApplyAll(m, [a, b], now) == Applied(m, false)
  {
    ApplyOne(m, [], a, now);
    ApplyOne(m, [a], b, now);
    assert [] + [a] == [a] && [a] + [b] == [a, b];
  }

  lemma CutUnseen(m: Modes, now: int)
    ensures Apply(m, [ESC, '[' as byte, '1' as byte, ESC], now) == Applied(m, false)
  {
    var cut := [ESC, '[' as byte, '1' as byte, ESC];
    assert cut[|cut| - 1] == ESC && ParseAltScreen(cut).None? && ParseOriginMode(cut).None?;
  }

  lemma MovedRepaintedRestoredRun(s: Sys, e: Effect, marks: Marks) returns (s': Sys)
    requires Ready(s) && Calm(s.bar.observer.modes) && s.bar.lastBar == "" && !marks(' ')
    ensures Reaches(s, MovedRepaintedRestored(e), marks, s') && s'.term.cursor == OnScreen(s.term, e.cursor)
  {
    TypeStep(s, e, marks, 0);
    ReachNext(s, [], marks, s, Timed(Writes(LETTER, e), 0));
    var s1 := Step(s, Writes(LETTER, e), marks, 0);
    TextIsWide(s1.bar, marks);
    TickStep(s1, marks, 0);
    ReachNext(s, [Timed(Writes(LETTER, e), 0)], marks, s1, Timed(Tick, 0));
    var s2 := Step(s1, Tick, marks, 0);
    QuietRestoreStep(s2, e, marks, 0);
    ReachNext(s, [Timed(Writes(LETTER, e), 0)] + [Timed(Tick, 0)], marks, s2, Timed(Writes(RESTORE, e), 0));
    s' := Step(s2, Writes(RESTORE, e), marks, 0);
  }

  // ----- Origin mode and an alternate screen in one mode list -----

  const ENTER_BOTH: seq<byte> := Sequence(Bytes("?6;47"), 'h')
  const LEAVE: seq<byte> := Sequence(Bytes("?47"), 'l')

  lemma EnterBothFacts()
    ensures Whole(ENTER_BOTH) && !Cut(ENTER_BOTH)
    ensures ParseAltScreen(ENTER_BOTH) == Some(true) && ParseOriginMode(ENTER_BOTH) == Some(true)
  {
    var params := Bytes("?6;47");
    SequenceShape(params, 'h');
    assert params == Bytes("?6") + [';' as byte] + Bytes("47");
    SplitLast(Bytes("?6"), Bytes("47"));
    SplitOne(Bytes("?6"));
    var parts := [Bytes("?6")] + [Bytes("47")];
    assert Split(params) == parts;
    assert parts[0][1..] == Bytes("6") && parts[1..] == [Bytes("47")];
    assert Bytes("47")[0] != '?' as byte;
    assert HasPrivate([Bytes("47")], true, ALT_SCREEN_MODES);
  }

  lemma LeaveFacts()
    ensures Whole(LEAVE) && !Cut(LEAVE)
    ensures ParseAltScreen(LEAVE) == Some(false) && ParseOriginMode(LEAVE).None? && !SavesOnSwitch(LEAVE)
  {
    SequenceShape(Bytes("?47"), 'l');
    assert |Bytes("1049")| == 4;
    SplitOne(Bytes("?47"));
    assert Bytes("?47")[1..] == Bytes("47") && Bytes("47") != Bytes("6");
    assert [Bytes("?47")][1..] == [];
  }

  lemma {:induction false} OriginMisplaces(t: Term, out: seq<Out>, k: nat)
    requires k < |out| && out[k].Text? && t.origin
    ensures !PaintsOutside(t, out)
    decreases k
  {
    if k > 0 {
      OriginMisplaces(React(t, out[0]), out[1..], k - 1);
    }
  }

  /** The bar on a switch to the alternate screen, from a calm state. */
  lemma BarHides(b: Bar, p: seq<byte>, seen: Observation, marks: Marks, now: int)
    requires b.active && seen == ObserveOf(b.observer, p, now) && seen.redraw
    requires seen.observer.modes.altScreen && Calm(seen.observer.modes.(altScreen := false))
    ensures ObserveBarOf(b, p, marks, now)
            == Did(b.(lastBar := "", hidden := true, observer := seen.observer), [SaveCursor, ResetRegion, RestoreCursor])
  {
    var b1 := b.(observer := seen.observer);
    assert Released(seen.observer.modes, now) == seen.observer.modes;
    assert RegionAfter(b1, now) == Did(b1.(lastBar := "", hidden := true), [SaveCursor, ResetRegion, RestoreCursor]);
    assert [SaveCursor, ResetRegion, RestoreCursor] + [] == [SaveCursor, ResetRegion, RestoreCursor];
  }

  /** And on the way back. */
  lemma BarReturns(b: Bar, p: seq<byte>, seen: Observation, marks: Marks, now: int)
    requires b.active && b.rows >= MIN_BAR_ROWS && b.cols >= 1 && !marks(' ')
    requires seen == ObserveOf(b.observer, p, now) && seen.redraw
    requires seen.observer.modes.leftAltScreen && Calm(seen.observer.modes.(leftAltScreen := false))
    ensures ObserveBarOf(b, p, marks, now).out
            == [SaveCursor, SetRegion(b.rows - 1), RestoreCursor] + Painting(b.rows, BarText(b.left, b.right, b.cols, marks))
  {
    TextIsWide(b, marks);
    var b1 := b.(observer := seen.observer);
    var m := seen.observer.modes.(leftAltScreen := false);
    assert Released(m, now) == m;
    assert RegionAfter(b1, now) == Did(WithModes(b1, m).(lastBar := "", hidden := false),
                                       [SaveCursor, SetRegion(b.rows - 1), RestoreCursor]);
  }

  /** From Start: one mode list sets origin mode and enters the alternate screen, another leaves it.
      The bar then paints with origin mode on, inside the guest's rows. */
  lemma MixedModesMisplaceBar(t: Term, left: string, right: string, e: Effect, marks: Marks)
    requires Starts(t, marks)
    ensures var s0, first, second := Started(t, left, right), Writes(ENTER_BOTH, e), Writes(LEAVE, e);
            && Sized(s0, first) && !Tidy(s0, first, 0) && Undivided(s0, first, marks, 0)
            && var s1 := Step(s0, first, marks, 0);
            && Sized(s1, second) && Tidy(s1, second, 0)
            && !PaintsOutside(Heard(s1, second, marks, 0), Answer(s1, second, marks, 0).out)
  {
    var s0 := Started(t, left, right);
    StartState(t, left, right, marks);
    EnterBothStep(s0, e, marks);
    LeaveStep(Step(s0, Writes(ENTER_BOTH, e), marks, 0), e, marks);
  }

  lemma EnterBothStep(s: Sys, e: Effect, marks: Marks)
    requires Ready(s) && Calm(s.bar.observer.modes)
    ensures var first := Writes(ENTER_BOTH, e);
            && Sized(s, first) && !Tidy(s, first, 0) && Undivided(s, first, marks, 0)
            && var s' := Step(s, first, marks, 0);
            && s'.term.origin && s'.term.pending == []
            && s'.bar == s.bar.(lastBar := "", hidden := true,
                                observer := Observer(s.bar.observer.modes.(altScreen := true), []))
  {
    var first := Writes(ENTER_BOTH, e);
    EnterBothFacts();
    WholeAlone(ENTER_BOTH);
    OneWrite(s.term, s.bar.observer, ENTER_BOTH, ENTER_BOTH, [], e, 0);
    TidyOne(s.bar.observer.modes, ENTER_BOTH, 0);
    BarHides(s.bar, ENTER_BOTH, ObserveOf(s.bar.observer, ENTER_BOTH, 0), marks, 0);
    ReactFrame(Heard(s, first, marks, 0), Answer(s, first, marks, 0).out);
  }

  lemma LeaveStep(s: Sys, e: Effect, marks: Marks)
    requires s.term.origin && s.term.pending == s.bar.observer.partial == [] && !marks(' ')
    requires s.bar.active && s.bar.rows >= MIN_BAR_ROWS && s.bar.cols >= 1
    requires s.bar.observer.modes.altScreen && Calm(s.bar.observer.modes.(altScreen := false))
    ensures var second := Writes(LEAVE, e);
            && Sized(s, second) && Tidy(s, second, 0)
            && !PaintsOutside(Heard(s, second, marks, 0), Answer(s, second, marks, 0).out)
  {
    var second := Writes(LEAVE, e);
    LeaveFacts();
    WholeAlone(LEAVE);
    OneWrite(s.term, s.bar.observer, LEAVE, LEAVE, [], e, 0);
    TidyOne(s.bar.observer.modes, LEAVE, 0);
    BarReturns(s.bar, LEAVE, ObserveOf(s.bar.observer, LEAVE, 0), marks, 0);
    OriginMisplaces(Heard(s, second, marks, 0), Answer(s, second, marks, 0).out, 6);
  }
}
