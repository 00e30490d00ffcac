/** The terminal the bar and the guest share: cursor, one save slot per buffer, scroll region,
    origin mode, alternate screen, what the bottom row of the main screen shows, and the escape
    sequence it has read a part of. */
module Terminal {
  import opened Wrappers
  import opened ModeFilter

  datatype Pos = Pos(row: int, col: int)
  datatype Region = Region(top: int, bottom: int)

  const HOME := Pos(1, 1)

  datatype Term = Term(
    rows: int, cols: int, cursor: Pos, mainSlot: Pos, altSlot: Pos,
    region: Region, origin: bool, alt: bool, bottom: string, pending: seq<byte>)

  function Between(v: int, hi: int): int {
    if v < 1 || hi < 1 then 1 else if v > hi then hi else v
  }

  /** The position on the screen nearest to `p`. */
  function OnScreen(t: Term, p: Pos): Pos {
    Pos(Between(p.row, t.rows), Between(p.col, t.cols))
  }

  function Full(t: Term): Region {
    Region(1, t.rows)
  }

  /** The save slot of the buffer in use. */
  function Slot(t: Term): Pos {
    if t.alt then t.altSlot else t.mainSlot
  }

  function Save(t: Term): Term {
    if t.alt then t.(altSlot := t.cursor) else t.(mainSlot := t.cursor)
  }

  function Restore(t: Term): Term {
    t.(cursor := OnScreen(t, Slot(t)))
  }

  // ----- What the bar writes -----

  datatype Out =
    | SaveCursor                   // DECSC
    | RestoreCursor                // DECRC
    | SetRegion(bottom: int)       // DECSTBM, top margin 1
    | ResetRegion                  // DECSTBM without parameters
    | MoveTo(row: int, col: int)   // CUP
    | EraseScreen                  // ED 2
    | EraseLine                    // EL 2
    | Attributes                   // SGR
    | Text(text: string)

  /** DECSTBM homes the cursor; with origin mode set a move counts from the top margin and is
      confined to the region. */
  function React(t: Term, o: Out): Term {
    match o
    case SaveCursor => Save(t)
    case RestoreCursor => Restore(t)
    case SetRegion(n) => t.(region := Region(1, n), cursor := HOME)
    case ResetRegion => t.(region := Full(t), cursor := HOME)
    case MoveTo(r, c) =>
      if t.origin then
        t.(cursor := OnScreen(t, Pos(if t.region.top + r - 1 > t.region.bottom then t.region.bottom else t.region.top + r - 1, c)))
      else t.(cursor := OnScreen(t, Pos(r, c)))
    case EraseScreen => if t.alt then t else t.(bottom := "")
    case EraseLine => if t.alt || t.cursor.row != t.rows then t else t.(bottom := "")
    case Attributes => t
    case Text(s) =>
      var t' := t.(cursor := OnScreen(t, Pos(t.cursor.row, t.cursor.col + |s|)));
      if t.alt || t.cursor.row != t.rows then t' else t'.(bottom := s)
  }

  function ReactAll(t: Term, out: seq<Out>): Term
    decreases |out|
  {
    if out == [] then t else ReactAll(React(t, out[0]), out[1..])
  }

  lemma {:induction false} ReactAppend(t: Term, a: seq<Out>, b: seq<Out>)
    ensures ReactAll(t, a + b) == ReactAll(ReactAll(t, a), b)
    decreases |a|
  {
    if a == [] {
      assert a + b == b;
    } else {
      assert (a + b)[0] == a[0] && (a + b)[1..] == a[1..] + b;
      ReactAppend(React(t, a[0]), a[1..], b);
    }
  }

  lemma ReactThree(t: Term, a: Out, b: Out, c: Out)
    ensures ReactAll(t, [a, b, c]) == React(React(React(t, a), b), c)
  {
    var out := [a, b, c];
    assert out[1..] == [b, c] && [b, c][1..] == [c] && [c][1..] == [];
    assert ReactAll(React(t, a), [b, c]) == ReactAll(React(React(t, a), b), [c]);
    assert ReactAll(React(React(t, a), b), [c]) == ReactAll(React(React(React(t, a), b), c), []);
  }

  /** Everything the bar writes starts with ESC, and ESC cancels a sequence that is not finished. */
  function Interrupted(t: Term, out: seq<Out>): Term {
    if out == [] then t else t.(pending := [])
  }

  /** The terminal reads what the bar writes. */
  function Receive(t: Term, out: seq<Out>): Term {
    ReactAll(Interrupted(t, out), out)
  }

  // ----- How the terminal reads what the guest writes -----

  const CAN: byte := 0x18
  const SUB: byte := 0x1a

  predicate Control(c: byte) {
    c < 0x20 || c == 0x7f
  }

  /** The terminal's own parser, byte by byte from the sequence it has read a part of (section 5 of
      ECMA-48): ESC starts a sequence anew, any other control acts at once in the middle of one, and
      CAN and SUB cancel it. */
  function Parse(pending: seq<byte>, p: seq<byte>): Frames
    decreases |p|
  {
    if p == [] then Frames([], pending)
    else if p[0] == ESC then Parse([ESC], p[1..])
    else if pending == [] then Front([p[0]], Parse([], p[1..]))
    else if Control(p[0]) then Front([p[0]], Parse(if p[0] in {CAN, SUB} then [] else pending, p[1..]))
    else
      var s := pending + [p[0]];
      if EscapeLength(s).Some? then Front(s, Parse([], p[1..])) else Parse(s, p[1..])
  }

  /** What the observer takes for a sequence though it ends in a control. */
  predicate Cut(item: seq<byte>) {
    |item| >= 2 && Control(item[|item| - 1])
  }

  predicate NoneCut(items: seq<seq<byte>>) {
    forall i | 0 <= i < |items| :: !Cut(items[i])
  }

  lemma NoneCutSplit(xs: seq<seq<byte>>, ys: seq<seq<byte>>)
    requires NoneCut(xs + ys)
    ensures NoneCut(xs) && NoneCut(ys)
  {
    assert forall i | 0 <= i < |xs| :: xs[i] == (xs + ys)[i];
    assert forall i | 0 <= i < |ys| :: ys[i] == (xs + ys)[|xs| + i];
  }

  /** One more byte on an incomplete sequence completes it or leaves it incomplete; a control completes it. */
  lemma OneMore(pending: seq<byte>, c: byte)
    requires Incomplete(pending) && pending != []
    ensures var s := pending + [c];
            && (EscapeLength(s).Some? ==> FramesOf(s) == Frames([s], []))
            && (EscapeLength(s).None? ==> FramesOf(s) == Frames([], s) && Incomplete(s) && !Control(c))
  {
    var s := pending + [c];
    assert s[0] == ESC && s[|pending|] == c;
    if |pending| >= 2 {
      IncompleteShape(pending);
      assert s[1] == '[' as byte;
      assert forall i | 2 <= i < |pending| :: s[i] == pending[i];
      if Continues(c) {
        assert forall i | 2 <= i < |s| :: Continues(s[i]);
        assert FinalAt(s, 2) == |s|;
      } else {
        FinalAtEnd(pending, c, 2);
      }
    }
    if EscapeLength(s).Some? {
      assert EscapeLength(s) == Some(|s|);
      WholeSequence(s);
    }
  }

  lemma {:induction false} ParseUncut(pending: seq<byte>, p: seq<byte>)
    requires Incomplete(pending) && NoneCut(FramesOf(pending + p).items)
    ensures Parse(pending, p) == FramesOf(pending + p)
    decreases |p|, 0
  {
    if p == [] {
      assert pending + p == pending;
    } else {
      var c, q := p[0], p[1..];
      var s := pending + [c];
      assert pending + p == s + q;
      FramesSplit(s, q);
      NoneCutSplit(FramesOf(s).items, FramesOf(FramesOf(s).tail + q).items);
      ParseByte(pending, c, q);
    }
  }

  lemma {:induction false} ParseByte(pending: seq<byte>, c: byte, q: seq<byte>)
    requires Incomplete(pending)
    requires var f := FramesOf(pending + [c]);
             NoneCut(f.items) && NoneCut(FramesOf(f.tail + q).items)
    ensures var f := FramesOf(pending + [c]);
            Parse(pending, [c] + q) == Glue(f, FramesOf(f.tail + q))
    decreases |q|, 1
  {
    var s, f := pending + [c], FramesOf(pending + [c]);
    assert ([c] + q)[1..] == q;
    if pending != [] {
      OneMore(pending, c);
    } else {
      assert s == [c] && [c][1..] == [];
    }
    assert f.items == [s] ==> !Cut(f.items[0]);
    assert Incomplete(f.tail);
    ParseUncut(f.tail, q);
    assert [] + FramesOf(f.tail + q).items == FramesOf(f.tail + q).items;
  }

  /** No sequence the terminal recognises ends in a control. */
  lemma {:induction false} ParsedUncut(pending: seq<byte>, p: seq<byte>)
    ensures NoneCut(Parse(pending, p).items)
    decreases |p|
  {
    if p != [] {
      var c, q := p[0], p[1..];
      ParsedUncut([ESC], q);
      ParsedUncut([], q);
      ParsedUncut(pending, q);
      ParsedUncut(pending + [c], q);
    }
  }

  /** The terminal and the observer read the same items, and wait for the rest of the same sequence,
      exactly when no control interrupts an escape sequence. */
  lemma ReadersAgree(pending: seq<byte>, p: seq<byte>)
    requires Incomplete(pending)
    ensures Parse(pending, p) == FramesOf(pending + p) <==> NoneCut(FramesOf(pending + p).items)
  {
    ParsedUncut(pending, p);
    if NoneCut(FramesOf(pending + p).items) {
      ParseUncut(pending, p);
    }
  }

  // ----- What the guest writes -----

  /** What an item does that the observer does not track: where it leaves the cursor, which region a
      guest's own DECSTBM or a switch of screens puts in force, what the bottom row then shows. */
  datatype Effect = Effect(cursor: Pos, region: Region, bottom: string)

  // What the terminal makes of an item (section 8.3 of ECMA-48, and DEC's private sequences). Which
  // modes a mode list names is read as ScreenModes and OriginModes say.

  /** DECSTBM: CSI, no private marker, a final r. */
  predicate SetsMargins(s: seq<byte>) {
    |s| >= 3 && s[1] == '[' as byte && s[2] != '?' as byte && s[|s| - 1] == 'r' as byte
  }

  /** RIS. */
  predicate ResetsAll(s: seq<byte>) {
    |s| == 2 && s[0] == ESC && s[1] == 'c' as byte
  }

  /** DECSC, or SCP. */
  predicate SavesCursor(s: seq<byte>) {
    || (|s| == 2 && s[0] == ESC && s[1] == '7' as byte)
    || (|s| == 3 && s[1] == '[' as byte && s[2] == 's' as byte)
  }

  /** DECRC, or RCP. */
  predicate RestoresCursor(s: seq<byte>) {
    || (|s| == 2 && s[0] == ESC && s[1] == '8' as byte)
    || (|s| == 3 && s[1] == '[' as byte && s[2] == 'u' as byte)
  }

  /** ED without a parameter or with 0: from the cursor to the end of the screen. */
  predicate ErasesBelow(s: seq<byte>) {
    s == [ESC, '[' as byte, 'J' as byte] || s == [ESC, '[' as byte, '0' as byte, 'J' as byte]
  }

  /** ED with 2 or 3: the whole screen. */
  predicate ErasesAll(s: seq<byte>) {
    s == [ESC, '[' as byte, '2' as byte, 'J' as byte] || s == [ESC, '[' as byte, '3' as byte, 'J' as byte]
  }

  /** The bottom row goes blank. */
  predicate ClearsBottom(t: Term, item: seq<byte>) {
    ErasesAll(item) || (ErasesBelow(item) && t.cursor.row < t.rows)
  }

  predicate SavesOnSwitch(item: seq<byte>) {
    PrivateMode(item, SAVING_ALT_SCREEN_MODES).Some?
  }

  function SwitchScreen(t: Term, on: bool, saves: bool, e: Effect): Term {
    if on == t.alt then t.(cursor := OnScreen(t, e.cursor))
    else if on then
      t.(alt := true, mainSlot := if saves then t.cursor else t.mainSlot,
         cursor := OnScreen(t, e.cursor), region := e.region)
    else
      t.(alt := false, cursor := OnScreen(t, if saves then t.mainSlot else e.cursor),
         region := e.region, bottom := e.bottom)
  }

  /** The terminal reacts to one item of guest output. */
  function GuestItem(t: Term, item: seq<byte>, e: Effect): Term {
    var origin := ParseOriginMode(item);
    var t := t.(origin := origin.GetOr(t.origin));
    var alt := ParseAltScreen(item);
    if alt.Some? then SwitchScreen(t, alt.value, SavesOnSwitch(item), e)
    else if SetsMargins(item) then t.(region := e.region, cursor := OnScreen(t, e.cursor))
    else if ResetsAll(item) then
      t.(cursor := HOME, mainSlot := HOME, altSlot := HOME, region := Full(t), origin := false, alt := false, bottom := "")
    else if SavesCursor(item) then Save(t)
    else if RestoresCursor(item) then Restore(t)
    else
      t.(cursor := OnScreen(t, e.cursor),
         bottom := if t.alt then t.bottom else if ClearsBottom(t, item) then "" else e.bottom)
  }

  /** A run of items, first to last, with their effects. */
  function GuestRun(t: Term, items: seq<seq<byte>>, es: seq<Effect>): Term
    requires |items| == |es|
  {
    if items == [] then t
    else
      var k := |items| - 1;
      GuestItem(GuestRun(t, items[..k], es[..k]), items[k], es[k])
  }

  function GuestFrames(t: Term, p: seq<byte>): Frames {
    Parse(t.pending, p)
  }

  /** The terminal reads what the guest writes; `es` has an effect for each item it recognises. */
  function GuestOutput(t: Term, p: seq<byte>, es: seq<Effect>): Term
    requires |es| == |GuestFrames(t, p).items|
  {
    GuestRun(t, GuestFrames(t, p).items, es).(pending := GuestFrames(t, p).tail)
  }

  /** A change of size: the margins and origin mode are reset, the cursor is clamped. */
  function Resized(t: Term, cols: int, rows: int, bottom: string): Term {
    var t := t.(rows := rows, cols := cols, origin := false, bottom := bottom);
    t.(region := Full(t), cursor := OnScreen(t, t.cursor))
  }
}
