/** The guest's cursor under the bar: what the bar's writes leave alone over a whole run. */
module BarCursor {
  import opened Wrappers
  import opened ModeFilter
  import opened Terminal
  import opened BarLayout
  import opened StatusBar
  import opened BarRuns

  /** The modes as the bar has them when it answers. */
  function SeenModes(s: Sys, e: Event, now: int): Modes {
    if e.GuestWrites? then ApplyAll(s.bar.observer.modes, ItemsOf(s.bar.observer, e.p), now).modes
    else s.bar.observer.modes
  }

  /** What the bar's writes may do to the terminal: region and bottom row aside, they move the cursor
      only while the guest holds it, and use the save slot only while the guest does not. */
  predicate Spares(t: Term, t': Term, held: bool) {
    && t'.rows == t.rows && t'.cols == t.cols && t'.alt == t.alt && t'.origin == t.origin && t'.pending == t.pending
    && (!held ==> t'.cursor == t.cursor)
    && (held ==> t'.mainSlot == t.mainSlot && t'.altSlot == t.altSlot)
    && (t.alt ==> t'.mainSlot == t.mainSlot)
  }

  /** Every write the bar makes between Start and Stop spares the guest's cursor: if the guest holds
      no saved cursor the cursor stays where it was, and if it does its saved position is not touched. */
  lemma AnswerSpares(s: Sys, e: Event, marks: Marks, now: int)
    requires Coherent(s) && Sized(s, e) && Tidy(s, e, now)
    ensures Spares(Heard(s, e, marks, now), Step(s, e, marks, now).term, CursorSavedOf(SeenModes(s, e, now), now))
  {
    var t := Heard(s, e, marks, now);
    match e
    case GuestWrites(p, effects) =>
      var seen := ObserveOf(s.bar.observer, p, now);
      GuestTracked(s, e, now);
      if seen.redraw {
        var b := s.bar.(observer := seen.observer);
        var region := RegionAfter(b, now);
        RegionReact(s.bar, s.term, t, seen, now);
        RegionSpares(b, t, now);
        DrawReact(region.bar, ReactAll(t, region.out), marks, now);
        ReactAppend(t, region.out, DrawOf(region.bar, marks, now).out);
      }
    case Resizes(cols, rows, bottom) =>
      var b := s.bar.(cols := cols, rows := rows, lastBar := "");
      KeptReact(b, t, ResetRegion, now);
      KeptReact(b, t, SetRegion(GuestRows(b)), now);
    case SetsText(_, _) =>
    case Tick => DrawReact(s.bar, t, marks, now);
  }

  lemma RegionSpares(b: Bar, t: Term, now: int)
    requires t.cursor == OnScreen(t, t.cursor)
    ensures var did := RegionAfter(b, now);
            && Spares(t, ReactAll(t, did.out), Held(b, now))
            && CursorSavedOf(did.bar.observer.modes, now) == Held(b, now)
  {
    var taken := TakeRegionGone(b.observer.modes);
    var b1 := WithModes(b, taken.modes).(lastBar := "", hidden := b.observer.modes.altScreen);
    assert Held(b1, now) == Held(b, now);
    KeptSpares(b1, t, ResetRegion, now);
    KeptSpares(b1, t, SetRegion(GuestRows(b1)), now);
  }

  lemma KeptSpares(b: Bar, t: Term, region: Out, now: int)
    requires t.cursor == OnScreen(t, t.cursor) && (region.SetRegion? || region.ResetRegion?)
    ensures var did := CursorKept(b, region, now);
            Spares(t, ReactAll(t, did.out), Held(b, now)) && CursorSavedOf(did.bar.observer.modes, now) == Held(b, now)
  {
    KeptReact(b, t, region, now);
  }

  // ----- What the bar's writes do to the save slots -----

  /** The terminal's cursor is on the screen. */
  predicate InView(t: Term) {
    t.cursor == OnScreen(t, t.cursor)
  }

  lemma ItemInView(t: Term, item: seq<byte>, e: Effect)
    requires InView(t)
    ensures InView(GuestItem(t, item, e))
  {
  }

  lemma {:induction false} RunInView(t: Term, items: seq<seq<byte>>, es: seq<Effect>)
    requires |items| == |es| && InView(t)
    ensures InView(GuestRun(t, items, es))
    decreases |items|
  {
    if items != [] {
      var k := |items| - 1;
      RunInView(t, items[..k], es[..k]);
      ItemInView(GuestRun(t, items[..k], es[..k]), items[k], es[k]);
    }
  }

  /** Output that leaves the cursor and the screen alone and goes through the slot when it saves at all. */
  predicate ThroughSlot(t: Term, out: seq<Out>) {
    var t' := ReactAll(t, out);
    var u := if SaveCursor in out then Save(t) else t;
    && t'.mainSlot == u.mainSlot && t'.altSlot == u.altSlot
    && t'.alt == t.alt && t'.rows == t.rows && t'.cols == t.cols && InView(t')
    && (SaveCursor in out ==> t'.cursor == t.cursor)
  }

  lemma ThroughBoth(t: Term, a: seq<Out>, b: seq<Out>)
    requires InView(t) && ThroughSlot(t, a) && ThroughSlot(ReactAll(t, a), b)
    requires a == [] || b == [] || (SaveCursor in a && SaveCursor in b)
    ensures ThroughSlot(t, a + b)
  {
    ReactAppend(t, a, b);
    assert [] + b == b && a + [] == a;
    assert SaveCursor in a + b <==> SaveCursor in a || SaveCursor in b;
  }

  lemma KeptThroughSlot(b: Bar, t: Term, region: Out, now: int)
    requires InView(t) && (region.SetRegion? || region.ResetRegion?)
    ensures ThroughSlot(t, CursorKept(b, region, now).out)
  {
    KeptReact(b, t, region, now);
  }

  lemma PaintThroughSlot(t: Term, row: int, text: string)
    requires InView(t)
    ensures ThroughSlot(t, Painting(row, text))
  {
    var first, second := [SaveCursor, MoveTo(row, 1), Attributes], [Text(text), Attributes, RestoreCursor];
    assert Painting(row, text) == first + second && SaveCursor in first;
    ReactAppend(t, first, second);
    ReactThree(t, SaveCursor, MoveTo(row, 1), Attributes);
    ReactThree(ReactAll(t, first), Text(text), Attributes, RestoreCursor);
  }

  lemma DrawThroughSlot(b: Bar, t: Term, marks: Marks, now: int)
    requires InView(t)
    ensures ThroughSlot(t, DrawOf(b, marks, now).out)
  {
    if DrawOf(b, marks, now).out != [] {
      PaintThroughSlot(t, b.rows, BarText(b.left, b.right, b.cols, marks));
    }
  }

  /** While the guest holds the cursor the bar does not go through the slot. */
  lemma HeldKeepsOut(b: Bar, marks: Marks, now: int)
    ensures Held(b, now) ==> SaveCursor !in RegionAfter(b, now).out && DrawOf(RegionAfter(b, now).bar, marks, now).out == []
    ensures !Held(b, now) ==> RegionAfter(b, now).out == [] || SaveCursor in RegionAfter(b, now).out
    ensures Held(b, now) ==> DrawOf(b, marks, now).out == []
  {
    var taken := TakeRegionGone(b.observer.modes);
    var b1 := WithModes(b, taken.modes).(lastBar := "", hidden := b.observer.modes.altScreen);
    assert Held(b1, now) == Held(b, now);
    assert Held(RegionAfter(b, now).bar, now) == Held(b, now);
  }

  lemma PaintSaves(b: Bar, marks: Marks, now: int)
    ensures var out := DrawOf(b, marks, now).out;
            out == [] || SaveCursor in out
  {
    assert Painting(b.rows, "")[0] == SaveCursor;
  }

  lemma RegionThroughSlot(b: Bar, t: Term, now: int)
    requires InView(t)
    ensures ThroughSlot(t, RegionAfter(b, now).out)
  {
    var taken := TakeRegionGone(b.observer.modes);
    var b1 := WithModes(b, taken.modes).(lastBar := "", hidden := b.observer.modes.altScreen);
    KeptThroughSlot(b1, t, ResetRegion, now);
    KeptThroughSlot(b1, t, SetRegion(GuestRows(b1)), now);
  }

  lemma RedrawnThroughSlot(b: Bar, t: Term, marks: Marks, now: int)
    requires InView(t)
    ensures ThroughSlot(t, Redrawn(b, marks, now).out)
  {
    var region := RegionAfter(b, now);
    RegionThroughSlot(b, t, now);
    HeldKeepsOut(b, marks, now);
    DrawThroughSlot(region.bar, ReactAll(t, region.out), marks, now);
    PaintSaves(region.bar, marks, now);
    ThroughBoth(t, region.out, DrawOf(region.bar, marks, now).out);
  }

  /** The slots after any event at all: what they were when the bar answered, except that a write of the
      bar that saves the cursor leaves the cursor's position in the slot of the buffer in use. */
  lemma SlotStep(s: Sys, e: Event, marks: Marks, now: int)
    requires Sized(s, e) && InView(s.term)
    ensures InView(Heard(s, e, marks, now))
    ensures ThroughSlot(Heard(s, e, marks, now), Answer(s, e, marks, now).out)
  {
    var t := Heard(s, e, marks, now);
    match e
    case GuestWrites(p, effects) =>
      RunInView(s.term, GuestFrames(s.term, p).items, effects);
      var b := s.bar.(observer := ObserveOf(s.bar.observer, p, now).observer);
      RedrawnThroughSlot(b, t, marks, now);
    case Resizes(cols, rows, _) =>
      var b := s.bar.(cols := cols, rows := rows, lastBar := "");
      KeptThroughSlot(b, t, ResetRegion, now);
      KeptThroughSlot(b, t, SetRegion(GuestRows(b)), now);
    case SetsText(_, _) =>
    case Tick => DrawThroughSlot(s.bar, t, marks, now);
  }

  lemma HoldKeepsOut(s: Sys, e: Event, marks: Marks, now: int)
    ensures CursorSavedOf(SeenModes(s, e, now), now) ==> SaveCursor !in Answer(s, e, marks, now).out
  {
    match e
    case GuestWrites(p, _) => HeldKeepsOut(s.bar.(observer := ObserveOf(s.bar.observer, p, now).observer), marks, now);
    case Tick => HeldKeepsOut(s.bar, marks, now);
    case _ =>
  }

  // ----- What the guest has saved -----

  /** The guest's last save in one buffer: whether there is one, where and when; whether the guest has
      neither restored a cursor, in either buffer, nor reset the terminal since; and where the cursor
      stood when the bar last went through the buffer's slot since then. */
  datatype Saved = Saved(made: bool, pos: Pos, at: int, held: bool, taken: Option<Pos>)

  /** The saves of the two buffers, and the position an alternate-screen switch saved. */
  datatype History = History(main: Saved, alt: Saved, entry: Option<Pos>)

  const NO_SAVE := Saved(false, HOME, 0, false, None)
  const NOTHING_SAVED := History(NO_SAVE, NO_SAVE, None)

  function SavedIn(h: History, alt: bool): Saved {
    if alt then h.alt else h.main
  }

  /** What the slot has. */
  function Content(u: Saved): Pos {
    u.taken.GetOr(u.pos)
  }

  /** A switch that saves is a save in the main buffer, as the terminal has one slot there. */
  function Remember(h: History, t: Term, item: seq<byte>, now: int): History {
    var alt := ParseAltScreen(item);
    if alt.Some? then
      if alt.value == t.alt then h
      else if alt.value && SavesOnSwitch(item) then
        h.(main := Saved(true, t.cursor, h.main.at, h.main.held, None), entry := Some(t.cursor))
      else h.(entry := None)
    else if SetsMargins(item) then h
    else if ResetsAll(item) then NOTHING_SAVED
    else if SavesCursor(item) then
      var u := Saved(true, t.cursor, now, true, None);
      if t.alt then h.(alt := u) else h.(main := u)
    else if RestoresCursor(item) then h.(main := h.main.(held := false), alt := h.alt.(held := false))
    else h
  }

  function RememberRun(h: History, t: Term, items: seq<seq<byte>>, es: seq<Effect>, now: int): History
    requires |items| == |es|
  {
    if items == [] then h
    else
      var k := |items| - 1;
      Remember(RememberRun(h, t, items[..k], es[..k], now), GuestRun(t, items[..k], es[..k]), items[k], now)
  }

  /** The bar's answer goes through the slot of the buffer in use when it saves the cursor. */
  function Taken(h: History, t: Term, out: seq<Out>): History {
    if SaveCursor !in out then h
    else if t.alt then h.(alt := h.alt.(taken := Some(t.cursor)))
    else h.(main := h.main.(taken := Some(t.cursor)))
  }

  function NextHistory(h: History, s: Sys, e: Event, marks: Marks, now: int): History
    requires Sized(s, e)
  {
    var g := if e.GuestWrites? then RememberRun(h, s.term, GuestFrames(s.term, e.p).items, e.effects, now) else h;
    Taken(g, Heard(s, e, marks, now), Answer(s, e, marks, now).out)
  }

  function RunHistory(h: History, s: Sys, log: seq<Timed>, marks: Marks): History
    requires Possible(s, log, marks)
    decreases |log|
  {
    if log == [] then h
    else
      var x := log[0];
      RunHistory(NextHistory(h, s, x.event, marks, x.now), Step(s, x.event, marks, x.now), log[1..], marks)
  }

  // ----- Where restores land, in every run -----

  /** The history has the slots right. */
  predicate Traced(h: History, t: Term) {
    && (h.main.made ==> t.mainSlot == Content(h.main))
    && (h.alt.made ==> t.altSlot == Content(h.alt))
    && (h.entry.Some? ==> t.alt && h.main.made && Content(h.main) == h.entry.value)
  }

  /** The bar has not gone through the slot, or the last time it did the cursor stood where the guest
      had saved, as far as the screen reaches. */
  predicate Undisturbed(u: Saved, t: Term) {
    u.taken.None? || OnScreen(t, u.taken.value) == OnScreen(t, u.pos)
  }

  /** A restore lands on the guest's last save in that buffer exactly when the slot is undisturbed, and
      leaving a screen that was entered with a save lands where it was entered. */
  predicate LandsExactly(h: History, t: Term, item: seq<byte>, e: Effect) {
    var t', u := GuestItem(t, item, e), SavedIn(h, t.alt);
    && (RestoresCursor(item) && u.made ==> (t'.cursor == OnScreen(t, u.pos) <==> Undisturbed(u, t)))
    && (ParseAltScreen(item) == Some(false) && t.alt && SavesOnSwitch(item) && h.entry.Some? ==>
          t'.cursor == OnScreen(t, h.entry.value))
  }

  lemma SwitchTraced(h: History, t: Term, item: seq<byte>, e: Effect, now: int)
    requires Traced(h, t) && ParseAltScreen(item).Some?
    ensures Traced(Remember(h, t, item, now), GuestItem(t, item, e)) && LandsExactly(h, t, item, e)
  {
    assert !IsCursorRestore(item);
  }

  lemma OtherTraced(h: History, t: Term, item: seq<byte>, e: Effect, now: int)
    requires Traced(h, t) && ParseAltScreen(item).None?
    ensures Traced(Remember(h, t, item, now), GuestItem(t, item, e)) && LandsExactly(h, t, item, e)
  {
    assert IsCursorRestore(item) ==> !IsSetScrollRegion(item) && !IsFullReset(item) && !IsCursorSave(item);
  }

  lemma ItemTraced(h: History, t: Term, item: seq<byte>, e: Effect, now: int)
    requires Traced(h, t)
    ensures Traced(Remember(h, t, item, now), GuestItem(t, item, e)) && LandsExactly(h, t, item, e)
  {
    if ParseAltScreen(item).Some? {
      SwitchTraced(h, t, item, e, now);
    } else {
      OtherTraced(h, t, item, e, now);
    }
  }

  lemma {:induction false} ChunkTraced(h: History, t: Term, items: seq<seq<byte>>, es: seq<Effect>, now: int)
    requires |items| == |es| && Traced(h, t)
    ensures Traced(RememberRun(h, t, items, es, now), GuestRun(t, items, es))
    decreases |items|
  {
    if items != [] {
      var n := |items| - 1;
      ChunkTraced(h, t, items[..n], es[..n], now);
      ItemTraced(RememberRun(h, t, items[..n], es[..n], now), GuestRun(t, items[..n], es[..n]), items[n], es[n], now);
    }
  }

  /** Item `k` of the chunk lands exactly. */
  predicate LandsExactlyAt(h: History, t: Term, items: seq<seq<byte>>, es: seq<Effect>, k: nat, now: int)
    requires k < |items| == |es|
  {
    LandsExactly(RememberRun(h, t, items[..k], es[..k], now), GuestRun(t, items[..k], es[..k]), items[k], es[k])
  }

  lemma TakenTraced(h: History, t: Term, out: seq<Out>)
    requires Traced(h, t) && ThroughSlot(t, out)
    ensures Traced(Taken(h, t, out), ReactAll(t, out))
  {
  }

  lemma StepTraced(h: History, s: Sys, e: Event, marks: Marks, now: int)
    requires Sized(s, e) && InView(s.term) && Traced(h, s.term)
    ensures Traced(NextHistory(h, s, e, marks, now), Step(s, e, marks, now).term) && InView(Step(s, e, marks, now).term)
  {
    SlotStep(s, e, marks, now);
    var g := if e.GuestWrites? then RememberRun(h, s.term, GuestFrames(s.term, e.p).items, e.effects, now) else h;
    if e.GuestWrites? {
      ChunkTraced(h, s.term, GuestFrames(s.term, e.p).items, e.effects, now);
    }
    TakenTraced(g, Heard(s, e, marks, now), Answer(s, e, marks, now).out);
  }

  lemma {:induction false} RunTraced(h: History, s: Sys, log: seq<Timed>, marks: Marks)
    requires Possible(s, log, marks) && InView(s.term) && Traced(h, s.term)
    ensures Traced(RunHistory(h, s, log, marks), Run(s, log, marks).term) && InView(Run(s, log, marks).term)
    decreases |log|
  {
    if log != [] {
      var e, now := log[0].event, log[0].now;
      StepTraced(h, s, e, marks, now);
      RunTraced(NextHistory(h, s, e, marks, now), Step(s, e, marks, now), log[1..], marks);
    }
  }

  lemma StartInView(t: Term, left: string, right: string)
    requires InView(t)
    ensures InView(Started(t, left, right).term)
  {
    if t.rows >= MIN_BAR_ROWS {
      ReactThree(t.(pending := []), EraseScreen, SetRegion(t.rows - 1), MoveTo(1, 1));
    }
  }

  /** In every run after Start, whatever bytes the guest writes, however they are divided, and whatever
      the clock does: each restore of the next write lands on the guest's last save in that buffer
      exactly when the bar has not gone through the slot since, or the cursor then stood there; and a
      full-screen program that entered with a save comes back to where it was entered. */
  lemma RestoresExactly(t: Term, left: string, right: string, log: seq<Timed>, e: Event, now: int, marks: Marks)
    requires InView(t) && Possible(Started(t, left, right), log, marks)
    requires e.GuestWrites? && Sized(Run(Started(t, left, right), log, marks), e)
    ensures var s0 := Started(t, left, right);
            var s, items := Run(s0, log, marks), GuestFrames(Run(s0, log, marks).term, e.p).items;
            forall k | 0 <= k < |items| ::
              LandsExactlyAt(RunHistory(NOTHING_SAVED, s0, log, marks), s.term, items, e.effects, k, now)
  {
    var s0 := Started(t, left, right);
    var s, h, es := Run(s0, log, marks), RunHistory(NOTHING_SAVED, s0, log, marks), e.effects;
    var items := GuestFrames(s.term, e.p).items;
    StartInView(t, left, right);
    RunTraced(NOTHING_SAVED, s0, log, marks);
    forall k | 0 <= k < |items|
      ensures LandsExactlyAt(h, s.term, items, es, k, now)
    {
      ChunkTraced(h, s.term, items[..k], es[..k], now);
      ItemTraced(RememberRun(h, s.term, items[..k], es[..k], now), GuestRun(s.term, items[..k], es[..k]), items[k], es[k],
        now);
    }
  }

  // ----- Within a second of the save -----

  /** A save that is held and young: the observer knows of it, and the bar has kept out of its slot. */
  predicate Guarded(u: Saved, m: Modes, now: int) {
    u.held ==>
      && u.made && u.at <= now
      && (now - u.at < MAX_CURSOR_HOLD ==> u.taken.None? && m.cursorSaved && u.at <= m.cursorSavedAt)
  }

  predicate BothGuarded(h: History, m: Modes, now: int) {
    Guarded(h.main, m, now) && Guarded(h.alt, m, now)
  }

  lemma ItemGuarded(h: History, t: Term, m: Modes, item: seq<byte>, now: int)
    requires BothGuarded(h, m, now)
    ensures BothGuarded(Remember(h, t, item, now), Apply(m, item, now).modes, now)
  {
    if ParseAltScreen(item).Some? {
      SwitchGuarded(h, t, m, item, now);
    } else {
      OtherGuarded(h, t, m, item, now);
    }
  }

  lemma SwitchGuarded(h: History, t: Term, m: Modes, item: seq<byte>, now: int)
    requires BothGuarded(h, m, now) && ParseAltScreen(item).Some?
    ensures BothGuarded(Remember(h, t, item, now), Apply(m, item, now).modes, now)
  {
  }

  /** The observer takes the same items for margins, resets, saves and restores as the terminal. */
  lemma ReadAlike(item: seq<byte>)
    ensures SetsMargins(item) == IsSetScrollRegion(item) && ResetsAll(item) == IsFullReset(item)
    ensures SavesCursor(item) == IsCursorSave(item) && RestoresCursor(item) == IsCursorRestore(item)
  {
  }

  lemma SaveGuarded(h: History, t: Term, m: Modes, item: seq<byte>, now: int)
    requires BothGuarded(h, m, now) && ParseAltScreen(item).None? && SavesCursor(item)
    ensures BothGuarded(Remember(h, t, item, now), Apply(m, item, now).modes, now)
  {
    assert !IsSetScrollRegion(item) && !IsFullReset(item) && IsCursorSave(item);
  }

  lemma RestoreGuarded(h: History, t: Term, m: Modes, item: seq<byte>, now: int)
    requires BothGuarded(h, m, now) && ParseAltScreen(item).None? && (RestoresCursor(item) || ResetsAll(item))
    ensures BothGuarded(Remember(h, t, item, now), Apply(m, item, now).modes, now)
  {
    var k := Remember(h, t, item, now);
    assert !k.main.held && !k.alt.held;
  }

  lemma OtherGuarded(h: History, t: Term, m: Modes, item: seq<byte>, now: int)
    requires BothGuarded(h, m, now) && ParseAltScreen(item).None?
    ensures BothGuarded(Remember(h, t, item, now), Apply(m, item, now).modes, now)
  {
    if SavesCursor(item) {
      SaveGuarded(h, t, m, item, now);
    } else if RestoresCursor(item) || ResetsAll(item) {
      RestoreGuarded(h, t, m, item, now);
    } else {
      ReadAlike(item);
      var m' := Apply(m, item, now).modes;
      assert m'.cursorSaved == m.cursorSaved && m'.cursorSavedAt == m.cursorSavedAt && Remember(h, t, item, now) == h;
    }
  }

  lemma {:induction false} ChunkGuarded(h: History, t: Term, m: Modes, items: seq<seq<byte>>, es: seq<Effect>, now: int)
    requires |items| == |es| && BothGuarded(h, m, now)
    ensures BothGuarded(RememberRun(h, t, items, es, now), ApplyAll(m, items, now).modes, now)
    decreases |items|
  {
    if items != [] {
      var n := |items| - 1;
      ChunkGuarded(h, t, m, items[..n], es[..n], now);
      ItemGuarded(RememberRun(h, t, items[..n], es[..n], now), GuestRun(t, items[..n], es[..n]),
        ApplyAll(m, items[..n], now).modes, items[n], now);
    }
  }

  /** A save is forgotten only when it is too old, and the screen not at all. */
  predicate ForgetsOnlyOld(m: Modes, m': Modes, now: int) {
    && m'.altScreen == m.altScreen && m'.cursorSavedAt == m.cursorSavedAt
    && m'.cursorSaved in {m.cursorSaved, CursorSavedOf(m, now)}
  }

  lemma RegionForgets(b: Bar, now: int)
    ensures ForgetsOnlyOld(b.observer.modes, RegionAfter(b, now).bar.observer.modes, now)
  {
    var taken := TakeRegionGone(b.observer.modes);
    assert ForgetsOnlyOld(b.observer.modes, taken.modes, now);
  }

  lemma DrawForgets(b: Bar, marks: Marks, now: int)
    ensures ForgetsOnlyOld(b.observer.modes, DrawOf(b, marks, now).bar.observer.modes, now)
  {
  }

  lemma AnswerModes(s: Sys, e: Event, marks: Marks, now: int)
    ensures ForgetsOnlyOld(SeenModes(s, e, now), Answer(s, e, marks, now).bar.observer.modes, now)
  {
    match e
    case GuestWrites(p, _) =>
      var b := s.bar.(observer := ObserveOf(s.bar.observer, p, now).observer);
      RegionForgets(b, now);
      DrawForgets(RegionAfter(b, now).bar, marks, now);
    case Tick => DrawForgets(s.bar, marks, now);
    case _ =>
  }

  lemma TakenGuarded(h: History, t: Term, out: seq<Out>, m: Modes, m': Modes, now: int)
    requires BothGuarded(h, m, now) && ForgetsOnlyOld(m, m', now)
    requires CursorSavedOf(m, now) ==> SaveCursor !in out
    ensures BothGuarded(Taken(h, t, out), m', now)
  {
  }

  lemma StepGuarded(h: History, s: Sys, e: Event, marks: Marks, now: int)
    requires Coherent(s) && Sized(s, e) && Tidy(s, e, now) && BothGuarded(h, s.bar.observer.modes, now)
    ensures BothGuarded(NextHistory(h, s, e, marks, now), Step(s, e, marks, now).bar.observer.modes, now)
  {
    var g := if e.GuestWrites? then RememberRun(h, s.term, GuestFrames(s.term, e.p).items, e.effects, now) else h;
    if e.GuestWrites? {
      GuestTracked(s, e, now);
      ChunkGuarded(h, s.term, s.bar.observer.modes, ItemsOf(s.bar.observer, e.p), e.effects, now);
    }
    HoldKeepsOut(s, e, marks, now);
    AnswerModes(s, e, marks, now);
    TakenGuarded(g, Heard(s, e, marks, now), Answer(s, e, marks, now).out, SeenModes(s, e, now),
      Answer(s, e, marks, now).bar.observer.modes, now);
  }

  /** The clock does not run backwards. */
  predicate Forward(log: seq<Timed>, from: int) {
    log == [] || (from <= log[0].now && Forward(log[1..], log[0].now))
  }

  function LastTime(log: seq<Timed>, from: int): int {
    if log == [] then from else log[|log| - 1].now
  }

  lemma LastTimeNext(log: seq<Timed>, from: int)
    requires log != []
    ensures LastTime(log, from) == LastTime(log[1..], log[0].now)
  {
    assert log[1..] != [] ==> log[1..][|log[1..]| - 1] == log[|log| - 1];
  }

  lemma GuardedLater(h: History, m: Modes, from: int, now: int)
    requires BothGuarded(h, m, from) && from <= now
    ensures BothGuarded(h, m, now)
  {
  }

  lemma {:induction false} RunGuarded(h: History, s: Sys, log: seq<Timed>, marks: Marks, from: int)
    requires Coherent(s) && Possible(s, log, marks) && Admissible(s, log, marks) && Forward(log, from)
    requires BothGuarded(h, s.bar.observer.modes, from)
    ensures BothGuarded(RunHistory(h, s, log, marks), Run(s, log, marks).bar.observer.modes, LastTime(log, from))
    decreases |log|
  {
    if log != [] {
      var e, now := log[0].event, log[0].now;
      GuardedLater(h, s.bar.observer.modes, from, now);
      StepGuarded(h, s, e, marks, now);
      StepCoherent(s, e, marks, now);
      LastTimeNext(log, from);
      RunGuarded(NextHistory(h, s, e, marks, now), Step(s, e, marks, now), log[1..], marks, now);
    }
  }

  /** A restore within a second of the last save in its buffer lands on it, if the guest has restored
      nothing since, in either buffer. */
  predicate LandsInTime(h: History, t: Term, item: seq<byte>, e: Effect, now: int) {
    var u := SavedIn(h, t.alt);
    RestoresCursor(item) && u.held && now - u.at < MAX_CURSOR_HOLD ==> GuestItem(t, item, e).cursor == OnScreen(t, u.pos)
  }

  predicate LandsInTimeAt(h: History, t: Term, items: seq<seq<byte>>, es: seq<Effect>, k: nat, now: int)
    requires k < |items| == |es|
  {
    LandsInTime(RememberRun(h, t, items[..k], es[..k], now), GuestRun(t, items[..k], es[..k]), items[k], es[k], now)
  }

  /** Over every run after Start, and in whatever the guest writes next: a guest that restores its
      cursor within a second of saving it in the same buffer, and has restored nothing in between,
      lands on the position it saved, whatever draws, resizes and region changes came between. */
  lemma GuestCursorSafety(t: Term, left: string, right: string, log: seq<Timed>, e: Event, now: int, marks: Marks)
    requires Fresh(t) && Possible(Started(t, left, right), log, marks) && Admissible(Started(t, left, right), log, marks)
    requires Forward(log, 0) && LastTime(log, 0) <= now
    requires var s := Run(Started(t, left, right), log, marks);
             e.GuestWrites? && Sized(s, e) && Tidy(s, e, now)
    ensures var s0 := Started(t, left, right);
            var s, items := Run(s0, log, marks), GuestFrames(Run(s0, log, marks).term, e.p).items;
            forall k | 0 <= k < |items| ::
              LandsInTimeAt(RunHistory(NOTHING_SAVED, s0, log, marks), s.term, items, e.effects, k, now)
  {
    var s0 := Started(t, left, right);
    var s, h, es := Run(s0, log, marks), RunHistory(NOTHING_SAVED, s0, log, marks), e.effects;
    var items := GuestFrames(s.term, e.p).items;
    StartCoherent(t, left, right);
    RunCoherent(s0, log, marks);
    RunGuarded(NOTHING_SAVED, s0, log, marks, 0);
    GuardedLater(h, s.bar.observer.modes, LastTime(log, 0), now);
    GuestTracked(s, e, now);
    RestoresExactly(t, left, right, log, e, now, marks);
    forall k | 0 <= k < |items|
      ensures LandsInTimeAt(h, s.term, items, es, k, now)
    {
      ChunkGuarded(h, s.term, s.bar.observer.modes, items[..k], es[..k], now);
      assert LandsExactlyAt(h, s.term, items, es, k, now);
    }
  }

  // ----- One answer of the bar between two restores -----

  const RESTORE: seq<byte> := [ESC, '8' as byte]

  /** Whatever happens between the first restore of a save and the second, a repaint, a resize or a
      reported guest write: if the slot still has the save when the bar answers, the second restore
      lands on it exactly when the bar does not go through the slot or the cursor stands there. */
  lemma SecondRestore(s: Sys, e: Event, x: Effect, marks: Marks, now: int)
    requires Sized(s, e) && InView(s.term)
    ensures var t := Heard(s, e, marks, now);
            GuestItem(Step(s, e, marks, now).term, RESTORE, x).cursor == OnScreen(t, Slot(t))
            <==> SaveCursor !in Answer(s, e, marks, now).out || t.cursor == OnScreen(t, Slot(t))
  {
    SlotStep(s, e, marks, now);
    assert ParseAltScreen(RESTORE).None? && ParseOriginMode(RESTORE).None?;
  }
}
