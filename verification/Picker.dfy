/** The interactive picker: one keystroke at a time (internal/session/interactive.go). */
module Picker {
  import opened StableSort
  import opened PickerRows
  import opened PickerFilter

  const RESERVED_ROWS := 6
  const MIN_LIST_ROWS := 3

  datatype Key =
    | CtrlC | Enter | Esc | Up | Down | PageUp | PageDown | Home | End
    | Backspace | CtrlU | Tab | ShiftTab | Other | Rune(c: char)

  datatype Action = NoAction | Quit | Select(row: Row)

  datatype State = State(all: seq<Row>, shown: seq<Row>, filter: string, cursor: int, offset: int,
                         height: int, mode: Mode)

  datatype Applied = Applied(state: State, action: Action)

  function ListRows(height: int): (n: nat)
    ensures n >= MIN_LIST_ROWS
  {
    if height - RESERVED_ROWS < MIN_LIST_ROWS then MIN_LIST_ROWS else height - RESERVED_ROWS
  }

  /** The viewport moved no further than it takes to show the cursor and not run past the end. */
  function Scrolled(s: State): State {
    var rows := ListRows(s.height);
    var up := if s.cursor < s.offset then s.cursor else s.offset;
    var down := if s.cursor >= up + rows then s.cursor - rows + 1 else up;
    var back := if down > |s.shown| - rows then |s.shown| - rows else down;
    s.(offset := if back < 0 then 0 else back)
  }

  function Moved(s: State, delta: int): State {
    if s.shown == [] then s.(cursor := 0, offset := 0)
    else
      var c := if s.cursor + delta < 0 then 0 else s.cursor + delta;
      Scrolled(s.(cursor := if c > |s.shown| - 1 then |s.shown| - 1 else c))
  }

  /** The first row with the key, or the number of rows. */
  function PlaceOf(rows: seq<Row>, key: string): (i: nat)
    ensures i <= |rows|
    ensures i < |rows| ==> rows[i].Key() == key
    ensures forall k | 0 <= k < i :: rows[k].Key() != key
  {
    if rows == [] || rows[0].Key() == key then 0 else 1 + PlaceOf(rows[1..], key)
  }

  function Restored(s: State, key: string): State {
    var i := PlaceOf(s.shown, key);
    if key == "" || i == |s.shown| then s.(cursor := 0, offset := 0) else Scrolled(s.(cursor := i))
  }

  /** Re-runs the filter. Clearing it sorts the whole list, which the shown list then is. */
  function Refiltered(s: State, f: string): State {
    if f == "" then
      var sorted := Sorted(Column(s.mode), s.all);
      s.(filter := "", all := sorted, shown := sorted, cursor := 0, offset := 0)
    else
      s.(filter := f, shown := Filtered(s.all, f), cursor := 0, offset := 0)
  }

  /** The next or previous sort column, applied at once unless a filter is active. */
  function Cycled(s: State, forward: bool): State {
    var mode := if forward then Next(s.mode) else Prev(s.mode);
    if s.filter != "" then s.(mode := mode)
    else
      var key := if 0 <= s.cursor < |s.shown| then s.shown[s.cursor].Key() else "";
      var sorted := Sorted(Column(mode), s.shown);
      Restored(s.(mode := mode, all := sorted, shown := sorted), key)
  }

  function ApplyOf(s: State, k: Key): Applied {
    match k
    case CtrlC => Applied(s, Quit)
    case Enter =>
      if 0 <= s.cursor < |s.shown| && s.shown[s.cursor].running then Applied(s, Select(s.shown[s.cursor]))
      else Applied(s, NoAction)
    case Esc => if s.filter != "" then Applied(Refiltered(s, ""), NoAction) else Applied(s, Quit)
    case Up => Applied(Moved(s, -1), NoAction)
    case Down => Applied(Moved(s, 1), NoAction)
    case PageUp => Applied(Moved(s, 0 - ListRows(s.height)), NoAction)
    case PageDown => Applied(Moved(s, ListRows(s.height)), NoAction)
    case Home => Applied(Moved(s, -|s.shown|), NoAction)
    case End => Applied(Moved(s, |s.shown|), NoAction)
    case Backspace =>
      if s.filter == "" then Applied(s, NoAction)
      else Applied(Refiltered(s, s.filter[..|s.filter| - 1]), NoAction)
    case CtrlU => Applied(Refiltered(s, ""), NoAction)
    case Tab => Applied(Cycled(s, true), NoAction)
    case ShiftTab => Applied(Cycled(s, false), NoAction)
    case Other => Applied(s, NoAction)
    case Rune(c) =>
      if c == 'q' && s.filter == "" then Applied(s, Quit)
      else Applied(Refiltered(s, s.filter + [c]), NoAction)
  }

  // ----- The picker as the program has it -----

  class Screen {
    var all: array<Row>
    var shown: array<Row>
    var filter: string
    var cursor: int
    var offset: int
    var height: int
    var mode: Mode

    ghost function Now(): State
      reads this, all, shown
    {
      State(all[..], shown[..], filter, cursor, offset, height, mode)
    }

    /** With a blank filter the shown list is the whole list, the same memory and not a copy. */
    ghost predicate Valid()
      reads this, all, shown
    {
      && (Trim(filter) == "" ==> shown == all)
      && (Trim(filter) != "" ==> shown != all)
      && InRange(Now())
    }

    constructor (rows: array<Row>, height: int)
      ensures Valid() && all == rows
      ensures Now() == Opened(rows[..], height)
    {
      all, shown, filter, cursor, offset, mode := rows, rows, "", 0, 0, Unset;
      this.height := if height <= 0 then 24 else height;
    }

    method ScrollToCursor()
      modifies this`offset
      ensures Now() == Scrolled(old(Now()))
    {
      var rows := ListRows(height);
      if cursor < offset {
        offset := cursor;
      }
      if cursor >= offset + rows {
        offset := cursor - rows + 1;
      }
      if offset > shown.Length - rows {
        offset := shown.Length - rows;
      }
      if offset < 0 {
        offset := 0;
      }
    }

    method Move(delta: int)
      requires Valid()
      modifies this`cursor, this`offset
      ensures Valid() && Now() == Moved(old(Now()), delta)
    {
      if shown.Length == 0 {
        cursor, offset := 0, 0;
        return;
      }
      cursor := cursor + delta;
      if cursor < 0 {
        cursor := 0;
      }
      if cursor > shown.Length - 1 {
        cursor := shown.Length - 1;
      }
      ScrollToCursor();
    }

    method RestoreCursor(key: string)
      requires Trim(filter) == "" && shown == all
      modifies this`cursor, this`offset
      ensures Valid() && Now() == Restored(old(Now()), key)
    {
      if key == "" {
        cursor, offset := 0, 0;
        return;
      }
      for i := 0 to shown.Length
        invariant cursor == old(cursor) && offset == old(offset)
        invariant PlaceOf(shown[..], key) == i + PlaceOf(shown[i..], key)
      {
        if shown[i].Key() == key {
          cursor := i;
          ScrollToCursor();
          return;
        }
        assert shown[i..][1..] == shown[i + 1..];
      }
      cursor, offset := 0, 0;
    }

    method SetFilter(f: string)
      requires Valid()
      modifies this, all
      ensures Valid() && all == old(all) && (shown == all || fresh(shown))
      ensures Now() == Refiltered(old(Now()), f)
    {
      filter := f;
      shown := FilterRows(all, f);
      if f == "" {
        Sort(shown, Column(mode));
      }
      cursor, offset := 0, 0;
    }

    method CycleSort(forward: bool)
      requires Valid()
      modifies this, all
      ensures Valid() && all == old(all) && shown == old(shown)
      ensures Now() == Cycled(old(Now()), forward)
    {
      mode := if forward then Next(mode) else Prev(mode);
      if filter != "" {
        return;
      }
      var selected := "";
      if cursor < shown.Length {
        selected := shown[cursor].Key();
      }
      Sort(shown, Column(mode));
      RestoreCursor(selected);
    }

    method Apply(k: Key) returns (action: Action)
      requires Valid()
      modifies this, all
      ensures Valid() && all == old(all) && (shown == old(shown) || shown == all || fresh(shown))
      ensures Applied(Now(), action) == ApplyOf(old(Now()), k)
    {
      action := NoAction;
      match k {
        case CtrlC =>
          action := Quit;
        case Enter =>
          if shown.Length == 0 {
            return;
          }
          var row := shown[cursor];
          if row.running {
            action := Select(row);
          }
        case Esc =>
          if filter != "" {
            SetFilter("");
          } else {
            action := Quit;
          }
        case Up =>
          Move(-1);
        case Down =>
          Move(1);
        case PageUp =>
          Move(0 - ListRows(height));
        case PageDown =>
          Move(ListRows(height));
        case Home =>
          Move(-shown.Length);
        case End =>
          Move(shown.Length);
        case Backspace =>
          if filter != "" {
            SetFilter(filter[..|filter| - 1]);
          }
        case CtrlU =>
          SetFilter("");
        case Tab =>
          CycleSort(true);
        case ShiftTab =>
          CycleSort(false);
        case Other =>
        case Rune(c) =>
          if c == 'q' && filter == "" {
            action := Quit;
          } else {
            SetFilter(filter + [c]);
          }
      }
    }
  }

  /** A picker just opened on its rows. */
  function Opened(rows: seq<Row>, height: int): State {
    State(rows, rows, "", 0, 0, if height <= 0 then 24 else height, Unset)
  }

  /** The highlighted row exists whenever any row is shown. */
  predicate InRange(s: State) {
    if s.shown == [] then s.cursor == 0 else 0 <= s.cursor < |s.shown|
  }
}
