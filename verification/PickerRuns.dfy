/** What every run of keystrokes and resizes keeps (internal/session/interactive.go). */
module PickerRuns {
  import opened StableSort
  import opened PickerRows
  import opened PickerOrder
  import opened PickerFilter
  import opened Picker

  datatype Event = Press(key: Key) | Resize(height: int)

  function Step(s: State, e: Event): State {
    match e
    case Press(k) => ApplyOf(s, k).state
    case Resize(h) => s.(height := h)
  }

  function Run(s: State, es: seq<Event>): State {
    if es == [] then s else Step(Run(s, es[..|es| - 1]), es[|es| - 1])
  }

  /** A picker starts on rows sorted by name, as newPickerRows leaves them. */
  predicate Start(rows: seq<Row>) {
    Ordered(Column(Unset), rows) && KeysIdentify(rows)
  }

  /** Rows are rearranged, never lost; the list shown is what the filter makes of them; without a filter
      it is in the current column's order; and the cursor is on a row whenever there is one. */
  ghost predicate Coherent(s: State, rows: seq<Row>) {
    Listed(s, rows) && InRange(s) && s.offset >= 0
  }

  ghost predicate Listed(s: State, rows: seq<Row>) {
    && multiset(s.all) == multiset(rows)
    && s.shown == Filtered(s.all, s.filter)
    && (s.filter == "" ==> Ordered(Column(s.mode), s.all))
    && (exists m: Mode :: Ordered(Column(m), s.all))
  }

  /** The highlighted row is in the viewport, and the viewport does not run past the end. */
  predicate Visible(s: State) {
    && (s.shown != [] ==> 0 <= s.offset <= s.cursor < s.offset + ListRows(s.height))
    && s.offset <= Max(0, |s.shown| - ListRows(s.height))
  }

  function Max(a: int, b: int): int {
    if a < b then b else a
  }

  lemma SortedColumn(m: Mode, s: seq<Row>)
    ensures Ordered(Column(m), Sorted(Column(m), s)) && multiset(Sorted(Column(m), s)) == multiset(s)
  {
    ColumnCompares(m);
    SortedOrders(Column(m), s);
    SortedKeeps(Column(m), s);
  }

  lemma ScrolledShows(s: State)
    requires s.shown != [] && 0 <= s.cursor < |s.shown|
    ensures Visible(Scrolled(s)) && Scrolled(s).offset >= 0
    ensures Scrolled(s) == s.(offset := Scrolled(s).offset)
  {
  }

  lemma RefilteredCoherent(s: State, rows: seq<Row>, f: string)
    requires Coherent(s, rows)
    ensures Coherent(Refiltered(s, f), rows) && Visible(Refiltered(s, f))
  {
    var t := Refiltered(s, f);
    if f == "" {
      SortedColumn(s.mode, s.all);
      assert Ordered(Column(s.mode), t.all);
    } else {
      assert t.all == s.all && t.shown == Filtered(s.all, f);
    }
    AtTop(t);
  }

  lemma AtTop(t: State)
    requires t.cursor == 0 && t.offset == 0
    ensures Visible(t)
  {
  }

  lemma CycledCoherent(s: State, rows: seq<Row>, forward: bool)
    requires Coherent(s, rows)
    ensures Coherent(Cycled(s, forward), rows)
    ensures s.filter == "" ==> Visible(Cycled(s, forward))
  {
    if s.filter == "" {
      var mode := if forward then Next(s.mode) else Prev(s.mode);
      SortedColumn(mode, s.shown);
      var sorted := Sorted(Column(mode), s.shown);
      var key := if 0 <= s.cursor < |s.shown| then s.shown[s.cursor].Key() else "";
      var t := s.(mode := mode, all := sorted, shown := sorted);
      assert Listed(t, rows);
      RestoredCoherent(t, rows, key);
    }
  }

  lemma RestoredCoherent(t: State, rows: seq<Row>, key: string)
    requires Listed(t, rows)
    ensures Coherent(Restored(t, key), rows) && Visible(Restored(t, key))
  {
    var i := PlaceOf(t.shown, key);
    if key != "" && i < |t.shown| {
      ScrolledShows(t.(cursor := i));
    }
    var u := Restored(t, key);
    assert u == t.(cursor := u.cursor, offset := u.offset);
  }

  lemma MovedCoherent(s: State, rows: seq<Row>, delta: int)
    requires Coherent(s, rows)
    ensures Coherent(Moved(s, delta), rows) && Visible(Moved(s, delta))
  {
    if s.shown != [] {
      var c := if s.cursor + delta < 0 then 0 else s.cursor + delta;
      ScrolledShows(s.(cursor := if c > |s.shown| - 1 then |s.shown| - 1 else c));
    }
  }

  lemma StepCoherent(s: State, rows: seq<Row>, e: Event)
    requires Coherent(s, rows)
    ensures Coherent(Step(s, e), rows)
    ensures Visible(s) && e.Press? ==> Visible(Step(s, e))
  {
    match e {
      case Resize(_) =>
      case Press(k) =>
        match k {
          case CtrlC =>
          case Enter =>
          case Esc => RefilteredCoherent(s, rows, "");
          case Up => MovedCoherent(s, rows, -1);
          case Down => MovedCoherent(s, rows, 1);
          case PageUp => MovedCoherent(s, rows, 0 - ListRows(s.height));
          case PageDown => MovedCoherent(s, rows, ListRows(s.height));
          case Home => MovedCoherent(s, rows, -|s.shown|);
          case End => MovedCoherent(s, rows, |s.shown|);
          case Backspace =>
            if s.filter != "" {
              RefilteredCoherent(s, rows, s.filter[..|s.filter| - 1]);
            }
          case CtrlU => RefilteredCoherent(s, rows, "");
          case Tab => CycledCoherent(s, rows, true);
          case ShiftTab => CycledCoherent(s, rows, false);
          case Other =>
          case Rune(c) => RefilteredCoherent(s, rows, s.filter + [c]);
        }
    }
  }

  /** Over every run: coherent throughout, and, while the window keeps its size, always with the
      highlighted row in view. */
  lemma {:induction false} RunCoherent(rows: seq<Row>, height: int, es: seq<Event>)
    requires Start(rows)
    ensures Coherent(Run(Opened(rows, height), es), rows)
    ensures (forall i | 0 <= i < |es| :: es[i].Press?) ==> Visible(Run(Opened(rows, height), es))
    decreases |es|
  {
    if es == [] {
      assert Ordered(Column(Unset), rows);
    } else {
      RunCoherent(rows, height, es[..|es| - 1]);
      StepCoherent(Run(Opened(rows, height), es[..|es| - 1]), rows, es[|es| - 1]);
    }
  }

  /** Ids identify guests and instances, as primary keys do. */
  predicate IdsIdentify(guests: seq<GuestInfo>, nodes: seq<NodeInfo>) {
    && (forall i, j | 0 <= i < |guests| && 0 <= j < |guests| :: guests[i].id == guests[j].id ==> guests[i] == guests[j])
    && (forall i, j | 0 <= i < |nodes| && 0 <= j < |nodes| :: nodes[i].id == nodes[j].id ==> nodes[i] == nodes[j])
  }

  /** The picker as the program opens it, on the rows it builds: they are where runs start. */
  method OpenPicker(guests: seq<GuestInfo>, nodes: seq<NodeInfo>, height: int) returns (screen: Screen)
    requires IdsIdentify(guests, nodes)
    ensures fresh(screen) && screen.Valid()
    ensures Start(screen.all[..]) && multiset(screen.all[..]) == multiset(RowsOf(guests, nodes))
    ensures screen.Now() == Opened(screen.all[..], height)
  {
    var rows := NewPickerRows(guests, nodes);
    RowsIdentify(guests, nodes);
    screen := new Screen(rows, height);
  }

  /** Over every run of the picker on any guests and instances: the rows are those of the guests and
      instances, and without a filter they are shown in the column's order whatever came before. */
  lemma BuiltRuns(guests: seq<GuestInfo>, nodes: seq<NodeInfo>, height: int, es: seq<Event>)
    requires IdsIdentify(guests, nodes)
    ensures var rows := Sorted(Column(ByName), RowsOf(guests, nodes));
            var s := Run(Opened(rows, height), es);
            && Start(rows) && Coherent(s, rows)
            && multiset(s.all) == multiset(RowsOf(guests, nodes))
            && (s.filter == "" ==> s.shown == Sorted(Column(s.mode), RowsOf(guests, nodes)))
  {
    var rows := Sorted(Column(ByName), RowsOf(guests, nodes));
    RowsIdentify(guests, nodes);
    RunCoherent(rows, height, es);
    HistoryForgotten(rows, height, es);
    SortForgetsHistory(Run(Opened(rows, height), es).mode, rows, RowsOf(guests, nodes));
  }

  predicate Moves(k: Key) {
    k == Up || k == Down || k == PageUp || k == PageDown || k == Home || k == End
  }

  /** How far the key moves the cursor, before it is clamped. */
  function Delta(s: State, k: Key): int
    requires Moves(k)
  {
    match k
    case Up => -1
    case Down => 1
    case PageUp => 0 - ListRows(s.height)
    case PageDown => ListRows(s.height)
    case Home => -|s.shown|
    case End => |s.shown|
  }

  lemma RunOneMore(s: State, es: seq<Event>, e: Event)
    ensures Run(s, es + [e]) == Step(Run(s, es), e)
  {
    assert (es + [e])[..|es|] == es;
  }

  /** After a resize too, the next movement brings the highlighted row back into view. */
  lemma MoveShows(rows: seq<Row>, height: int, es: seq<Event>, k: Key)
    requires Start(rows) && Moves(k)
    ensures Visible(Run(Opened(rows, height), es + [Press(k)]))
  {
    var s := Run(Opened(rows, height), es);
    RunCoherent(rows, height, es);
    RunOneMore(Opened(rows, height), es, Press(k));
    MovedCoherent(s, rows, Delta(s, k));
  }

  function Clamp(c: int, last: int): int {
    if c > last then last else if c < 0 then 0 else c
  }

  /** Up and Down one row, PageUp and PageDown as many as the list has room for, all stopping at the ends;
      Home to the first row and End to the last; in an empty list always 0. */
  function CursorAfter(k: Key, cursor: int, rows: nat, height: int): int
    requires Moves(k)
  {
    var last, page := rows - 1, if height - 6 < 3 then 3 else height - 6;
    if rows == 0 then 0
    else match k
      case Up => if cursor > 0 then cursor - 1 else 0
      case Down => if cursor < last then cursor + 1 else last
      case PageUp => Clamp(cursor - page, last)
      case PageDown => Clamp(cursor + page, last)
      case Home => 0
      case End => last
  }

  lemma MovedWhere(s: State, delta: int)
    ensures Moved(s, delta) == s.(cursor := Moved(s, delta).cursor, offset := Moved(s, delta).offset)
    ensures Moved(s, delta).cursor == if s.shown == [] then 0 else Clamp(s.cursor + delta, |s.shown| - 1)
  {
  }

  lemma KeyMoves(s: State, k: Key)
    requires Moves(k)
    ensures ApplyOf(s, k).state == Moved(s, Delta(s, k))
  {
  }

  /** A movement key, after any history, leaves the cursor where it says and the rows as they are. */
  lemma MovementKeys(rows: seq<Row>, height: int, es: seq<Event>, k: Key)
    requires Start(rows) && Moves(k)
    ensures var s, t := Run(Opened(rows, height), es), Run(Opened(rows, height), es + [Press(k)]);
            && t == s.(cursor := t.cursor, offset := t.offset)
            && t.cursor == CursorAfter(k, s.cursor, |s.shown|, s.height)
  {
    var s := Run(Opened(rows, height), es);
    RunInRange(rows, height, es);
    RunOneMore(Opened(rows, height), es, Press(k));
    KeyMoves(s, k);
    MovedWhere(s, Delta(s, k));
  }

  lemma RunInRange(rows: seq<Row>, height: int, es: seq<Event>)
    requires Start(rows)
    ensures InRange(Run(Opened(rows, height), es))
  {
    RunCoherent(rows, height, es);
  }

  /** Which keys leave the picker, and what is in the filter after a key. */
  lemma OtherKeys(s: State, k: Key)
    ensures ApplyOf(s, k).action == Quit <==> k == CtrlC || (s.filter == "" && (k == Esc || k == Rune('q')))
    ensures ApplyOf(s, k).state.filter
         == if k.Rune? && ApplyOf(s, k).action != Quit then s.filter + [k.c]
            else if k == Backspace && s.filter != "" then s.filter[..|s.filter| - 1]
            else if k == CtrlU || k == Esc then ""
            else s.filter
  {
  }

  /** With an empty filter the list shown depends on the rows and the current column alone, whatever was
      typed, sorted, filtered and undone before. */
  lemma HistoryForgotten(rows: seq<Row>, height: int, es: seq<Event>)
    requires Start(rows)
    ensures var s := Run(Opened(rows, height), es);
            s.filter == "" ==> s.shown == Sorted(Column(s.mode), rows)
  {
    var s := Run(Opened(rows, height), es);
    RunCoherent(rows, height, es);
    if s.filter == "" {
      SameRowsIdentify(rows, s.all);
      SortForgetsHistory(s.mode, s.all, rows);
    }
  }

  /** So with an empty filter no row ever stands before one that its column puts first. */
  lemma ShownFollows(rows: seq<Row>, height: int, es: seq<Event>, i: nat, j: nat)
    requires Start(rows)
    requires i < j < |Run(Opened(rows, height), es).shown| && Run(Opened(rows, height), es).filter == ""
    ensures var s := Run(Opened(rows, height), es); Follows(s.mode, s.shown[i], s.shown[j])
  {
    HistoryForgotten(rows, height, es);
    RowsFollow(Run(Opened(rows, height), es).mode, rows, i, j);
  }

  /** Tab and Shift+Tab reorder the list under the highlighted row: it stays highlighted, and in view. */
  lemma TabKeepsSelection(s: State, rows: seq<Row>, forward: bool)
    requires Coherent(s, rows) && KeysIdentify(rows) && s.filter == "" && s.shown != []
    ensures var t := Cycled(s, forward);
            && t.mode == (if forward then Next(s.mode) else Prev(s.mode))
            && t.shown == Sorted(Column(t.mode), rows)
            && InRange(t) && t.shown[t.cursor] == s.shown[s.cursor] && Visible(t)
  {
    var t := Cycled(s, forward);
    CycledCoherent(s, rows, forward);
    SameRowsIdentify(rows, s.all);
    SortForgetsHistory(t.mode, s.all, rows);
    var here := s.shown[s.cursor];
    SortedKeeps(Column(t.mode), s.shown);
    var sorted := Sorted(Column(t.mode), s.shown);
    assert here in multiset(sorted);
    SortedKeeps(Column(t.mode), rows);
    SameRowsIdentify(rows, sorted);
    var j :| 0 <= j < |sorted| && sorted[j] == here;
    var i := PlaceOf(sorted, here.Key());
    assert i <= j;
    KeyIdentifies(sorted[i], here);
    assert here.Key() != "";
  }

  /** Shift+Tab after Tab gives the list back, with the same row highlighted. */
  lemma ShiftTabUndoesTab(s: State, rows: seq<Row>)
    requires Coherent(s, rows) && KeysIdentify(rows) && s.filter == "" && s.shown != [] && s.mode != Unset
    ensures var t := Cycled(Cycled(s, true), false);
            && t.mode == s.mode && t.shown == s.shown
            && InRange(t) && t.shown[t.cursor] == s.shown[s.cursor]
  {
    var one := Cycled(s, true);
    TabKeepsSelection(s, rows, true);
    CycledCoherent(s, rows, true);
    TabKeepsSelection(one, rows, false);
    CycleLaws(s.mode);
    SameRowsIdentify(rows, s.all);
    SortForgetsHistory(s.mode, s.all, rows);
  }

  /** Applying the filter a list is already under only moves the cursor to the top. */
  lemma FilteredAgain(s: State, rows: seq<Row>)
    requires Coherent(s, rows) && KeysIdentify(rows)
    ensures Refiltered(s, s.filter) == s.(cursor := 0, offset := 0)
  {
    if s.filter == "" {
      SameRowsIdentify(rows, s.all);
      SortForgetsHistory(s.mode, s.all, s.all);
    }
  }

  lemma RefilteredTwice(s: State, f: string, g: string)
    requires f != ""
    ensures Refiltered(Refiltered(s, f), g) == Refiltered(s, g)
  {
  }

  lemma TypedKeys(s: State, c: char)
    requires !(c == 'q' && s.filter == "")
    ensures ApplyOf(s, Rune(c)).state == Refiltered(s, s.filter + [c])
    ensures s.filter != "" ==> ApplyOf(s, Backspace).state == Refiltered(s, s.filter[..|s.filter| - 1])
  {
  }

  lemma RefilteredFilter(s: State, f: string)
    ensures Refiltered(s, f).filter == f
  {
  }

  /** Backspace undoes the last character typed: the same filter, the same list. */
  lemma BackspaceUndoesTyping(s: State, rows: seq<Row>, c: char)
    requires Coherent(s, rows) && KeysIdentify(rows) && !(c == 'q' && s.filter == "")
    ensures var t := ApplyOf(ApplyOf(s, Rune(c)).state, Backspace).state;
            t == s.(cursor := 0, offset := 0)
  {
    var f := s.filter + [c];
    assert f[..|f| - 1] == s.filter && f != "";
    var typed := Refiltered(s, f);
    RefilteredFilter(s, f);
    TypedKeys(s, c);
    TypedKeys(typed, c);
    RefilteredTwice(s, f, s.filter);
    FilteredAgain(s, rows);
  }

  /** What Enter selects is the highlighted row, and it can be entered. */
  lemma EnterSelects(s: State, rows: seq<Row>)
    requires Coherent(s, rows)
    ensures match ApplyOf(s, Enter).action
            case Select(row) => row.running && exists r | r in rows :: row == r.(score := row.score)
            case Quit => false
            case NoAction => s.shown == [] || !s.shown[s.cursor].running
  {
    if s.shown != [] && s.shown[s.cursor].running {
      var row := s.shown[s.cursor];
      SameMembers(s.all, rows);
      if Trim(s.filter) != "" {
        FilterMeaning(s.all, s.filter);
      } else {
        assert row in s.all && row == row.(score := row.score);
      }
    }
  }
}
