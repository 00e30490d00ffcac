/** The status bar (internal/console/statusbar.go). */
module StatusBar {
  import opened Wrappers
  import opened ModeFilter
  import opened Terminal
  import opened BarLayout

  const MIN_BAR_ROWS := 4

  /** The bar as a value. */
  datatype Bar = Bar(
    rows: int, cols: int, left: string, right: string, lastBar: string,
    active: bool, hidden: bool, observer: Observer)

  /** A new bar with what it has written. */
  datatype Did = Did(bar: Bar, out: seq<Out>)

  function NewBar(cols: int, rows: int): Bar {
    Bar(rows, cols, "", "", "", false, false, NEW_OBSERVER)
  }

  function GuestRows(b: Bar): int {
    if b.rows < MIN_BAR_ROWS then b.rows else b.rows - 1
  }

  function WithModes(b: Bar, m: Modes): Bar {
    b.(observer := b.observer.(modes := m))
  }

  /** Asking whether the guest holds its cursor releases a hold that is too old. */
  function Asked(b: Bar, now: int): Bar {
    WithModes(b, Released(b.observer.modes, now))
  }

  predicate Held(b: Bar, now: int) {
    CursorSavedOf(b.observer.modes, now)
  }

  /** withCursorKept: a region change bracketed by save and restore, unless the guest holds the slot. */
  function CursorKept(b: Bar, region: Out, now: int): Did {
    Did(Asked(b, now), if Held(b, now) then [region] else [SaveCursor, region, RestoreCursor])
  }

  function StartOf(b: Bar): Did {
    if b.rows < MIN_BAR_ROWS then Did(b, [])
    else Did(b.(active := true), [EraseScreen, SetRegion(GuestRows(b)), MoveTo(1, 1)])
  }

  function StopOf(b: Bar): Did {
    if !b.active then Did(b, []) else Did(b.(active := false), [ResetRegion, MoveTo(b.rows, 1), EraseLine])
  }

  function ResizeOf(b: Bar, cols: int, rows: int, now: int): Did {
    var b := b.(cols := cols, rows := rows, lastBar := "");
    if !b.active then Did(b, [])
    else if rows < MIN_BAR_ROWS then CursorKept(b, ResetRegion, now)
    else if b.hidden then Did(b, [])
    else CursorKept(b, SetRegion(GuestRows(b)), now)
  }

  /** The latches are consumed left to right until one is set. */
  datatype Taken = Taken(gone: bool, modes: Modes)

  function TakeRegionGone(m: Modes): Taken {
    if m.reset then Taken(true, m.(reset := false))
    else if m.regionLost then Taken(true, m.(regionLost := false))
    else Taken(m.leftAltScreen, m.(leftAltScreen := false))
  }

  predicate MayDraw(b: Bar, now: int) {
    b.active && !b.hidden && b.cols >= 1 && b.rows >= MIN_BAR_ROWS && !b.observer.modes.originMode && !Held(b, now)
  }

  function Painting(row: int, text: string): seq<Out> {
    [SaveCursor, MoveTo(row, 1), Attributes, Text(text), Attributes, RestoreCursor]
  }

  function DrawOf(b: Bar, marks: Marks, now: int): Did {
    if !b.active || b.hidden || b.cols < 1 || b.rows < MIN_BAR_ROWS || b.observer.modes.originMode then Did(b, [])
    else if Held(b, now) then Did(b, [])
    else
      var text := BarText(b.left, b.right, b.cols, marks);
      if text == b.lastBar then Did(Asked(b, now), [])
      else Did(Asked(b, now).(lastBar := text), Painting(b.rows, text))
  }

  /** The part of Observe between the scan and the repaint. */
  function RegionAfter(b: Bar, now: int): Did {
    var taken := TakeRegionGone(b.observer.modes);
    var b := WithModes(b, taken.modes).(lastBar := "", hidden := b.observer.modes.altScreen);
    if b.hidden && b.active then CursorKept(b, ResetRegion, now)
    else if b.active && taken.gone then CursorKept(b, SetRegion(GuestRows(b)), now)
    else Did(b, [])
  }

  function Then(first: Did, second: Did): Did {
    Did(second.bar, first.out + second.out)
  }

  function ObserveBarOf(b: Bar, p: seq<byte>, marks: Marks, now: int): Did {
    var seen := ObserveOf(b.observer, p, now);
    var b := b.(observer := seen.observer);
    if !seen.redraw then Did(b, [])
    else Redrawn(b, marks, now)
  }

  /** The reaction to a change: the region is adjusted, and the bar repaints if it may. */
  function Redrawn(b: Bar, marks: Marks, now: int): Did {
    var region := RegionAfter(b, now);
    Then(region, DrawOf(region.bar, marks, now))
  }

  // ----- The bar as the program has it -----

  class StatusBar {
    var rows: int
    var cols: int
    var left: string
    var right: string
    var lastBar: string
    var active: bool
    var hidden: bool
    const modes: Filter
    const marks: Marks
    /** Everything written to the terminal so far. */
    var written: seq<Out>

    function State(): Bar
      reads this, modes
    {
      Bar(rows, cols, left, right, lastBar, active, hidden, modes.State())
    }

    constructor (cols: int, rows: int, marks: Marks)
      ensures State() == NewBar(cols, rows) && written == [] && this.marks == marks && fresh(modes)
    {
      this.cols, this.rows, this.marks := cols, rows, marks;
      left, right, lastBar, active, hidden, written := "", "", "", false, false, [];
      modes := new Filter();
    }

    method Write(out: seq<Out>)
      modifies this`written
      ensures written == old(written) + out
    {
      written := written + out;
    }

    method SetText(left: string, right: string)
      modifies this`left, this`right
      ensures State() == old(State()).(left := left, right := right)
    {
      this.left, this.right := left, right;
    }

    function GuestRowsLocked(): int
      reads this
    {
      if rows < MIN_BAR_ROWS then rows else rows - 1
    }

    method WithCursorKept(region: Out, now: int) returns (out: seq<Out>)
      modifies modes
      ensures State() == CursorKept(old(State()), region, now).bar
      ensures out == CursorKept(old(State()), region, now).out
    {
      var held := modes.CursorSaved(now);
      if held {
        return [region];
      }
      return [SaveCursor, region, RestoreCursor];
    }

    method Start()
      modifies this
      ensures State() == StartOf(old(State())).bar
      ensures written == old(written) + StartOf(old(State())).out
    {
      if rows < MIN_BAR_ROWS {
        return;
      }
      active := true;
      Write([EraseScreen, SetRegion(GuestRowsLocked()), MoveTo(1, 1)]);
    }

    method Stop()
      modifies this
      ensures State() == StopOf(old(State())).bar
      ensures written == old(written) + StopOf(old(State())).out
    {
      var wasActive := active;
      active := false;
      if !wasActive {
        return;
      }
      Write([ResetRegion, MoveTo(rows, 1), EraseLine]);
    }

    method Resize(cols: int, rows: int, now: int) returns (guest: int)
      modifies this, modes
      ensures State() == ResizeOf(old(State()), cols, rows, now).bar
      ensures written == old(written) + ResizeOf(old(State()), cols, rows, now).out
      ensures guest == GuestRows(State())
    {
      this.cols, this.rows := cols, rows;
      lastBar := "";
      guest := GuestRowsLocked();
      if !active {
      } else if rows < MIN_BAR_ROWS {
        var out := WithCursorKept(ResetRegion, now);
        Write(out);
      } else if hidden {
      } else {
        var out := WithCursorKept(SetRegion(guest), now);
        Write(out);
      }
    }

    method Draw(now: int)
      modifies this, modes
      ensures State() == DrawOf(old(State()), marks, now).bar
      ensures written == old(written) + DrawOf(old(State()), marks, now).out
    {
      if !active || hidden || cols < 1 {
        return;
      }
      if rows < MIN_BAR_ROWS {
        return;
      }
      if modes.originMode {
        return;
      }
      var held := modes.CursorSaved(now);
      if held {
        return;
      }
      var text := LayOut(left, right, cols, marks);
      if text == lastBar {
        return;
      }
      lastBar := text;
      Write(Painting(rows, text));
    }

    /** The three latches, consumed left to right until one is set. */
    method RegionGone() returns (gone: bool)
      modifies modes
      ensures gone == TakeRegionGone(old(modes.ModesNow())).gone
      ensures modes.ModesNow() == TakeRegionGone(old(modes.ModesNow())).modes
      ensures modes.partial == old(modes.partial)
    {
      gone := modes.TakeReset();
      if !gone {
        gone := modes.TakeRegionLost();
      }
      if !gone {
        gone := modes.TakeLeftAltScreen();
      }
    }

    /** The reaction to a change the observer reports. */
    method AdjustRegion(now: int)
      modifies this, modes
      ensures State() == RegionAfter(old(State()), now).bar
      ensures written == old(written) + RegionAfter(old(State()), now).out
    {
      lastBar := "";
      var regionGone := RegionGone();
      var alt := modes.altScreen;
      hidden := alt;
      if alt && active {
        var out := WithCursorKept(ResetRegion, now);
        Write(out);
      } else if active && regionGone {
        var out := WithCursorKept(SetRegion(GuestRowsLocked()), now);
        Write(out);
      }
    }

    /** The whole reaction: the region first, then a repaint. */
    method Redraw(now: int)
      modifies this, modes
      ensures State() == Redrawn(old(State()), marks, now).bar
      ensures written == old(written) + Redrawn(old(State()), marks, now).out
    {
      ghost var region := RegionAfter(State(), now);
      AdjustRegion(now);
      ghost var drawn := DrawOf(region.bar, marks, now);
      Draw(now);
      Associate(old(written), region.out, drawn.out);
    }

    method Observe(p: seq<byte>, now: int)
      modifies this, modes
      ensures State() == ObserveBarOf(old(State()), p, marks, now).bar
      ensures written == old(written) + ObserveBarOf(old(State()), p, marks, now).out
    {
      var changed := modes.Observe(p, now);
      if !changed {
        return;
      }
      Redraw(now);
    }
  }

  lemma Associate(a: seq<Out>, b: seq<Out>, c: seq<Out>)
    ensures a + (b + c) == a + b + c
  {
  }
}
