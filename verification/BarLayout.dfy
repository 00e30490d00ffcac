/** Laying out the bar's text in terminal cells (internal/console/statusbar.go). */
module BarLayout {

  predicate IsWideRune(r: char) {
    || '\U{1100}' <= r <= '\U{115F}' || '\U{2E80}' <= r <= '\U{A4CF}' || '\U{AC00}' <= r <= '\U{D7A3}'
    || '\U{F900}' <= r <= '\U{FAFF}' || '\U{FE30}' <= r <= '\U{FE6F}' || '\U{FF00}' <= r <= '\U{FF60}'
    || '\U{FFE0}' <= r <= '\U{FFE6}' || '\U{1F300}' <= r <= '\U{1F64F}' || '\U{1F900}' <= r <= '\U{1F9FF}'
    || '\U{20000}' <= r <= '\U{3FFFD}'
  }

  /** The Unicode classes Mn, Me and Cf, which are not written out here. */
  type Marks = char -> bool

  function RuneCells(r: char, marks: Marks): nat {
    if r == '\0' || marks(r) || r < ' ' || r == '\U{7F}' then 0
    else if IsWideRune(r) then 2
    else 1
  }

  function Cells(s: string, marks: Marks): nat {
    if s == "" then 0 else RuneCells(s[0], marks) + Cells(s[1..], marks)
  }

  method CellWidth(s: string, marks: Marks) returns (n: nat)
    ensures n == Cells(s, marks)
  {
    n := 0;
    assert s[0..] == s;
    for i := 0 to |s|
      invariant Cells(s, marks) == n + Cells(s[i..], marks)
    {
      assert s[i..][0] == s[i] && s[i..][1..] == s[i + 1..];
      n := n + RuneCells(s[i], marks);
    }
  }

  lemma {:induction false} CellsAppend(a: string, b: string, marks: Marks)
    ensures Cells(a + b, marks) == Cells(a, marks) + Cells(b, marks)
    decreases |a|
  {
    if a == "" {
      assert a + b == b;
    } else {
      assert (a + b)[0] == a[0] && (a + b)[1..] == a[1..] + b;
      CellsAppend(a[1..], b, marks);
    }
  }

  /** The longest prefix that fits in `cols` cells after `w` are taken. */
  function Fitting(s: string, w: int, cols: int, marks: Marks): string {
    if s == "" || w + RuneCells(s[0], marks) > cols then ""
    else [s[0]] + Fitting(s[1..], w + RuneCells(s[0], marks), cols, marks)
  }

  function Truncated(s: string, cols: int, marks: Marks): string {
    if cols <= 0 then "" else Fitting(s, 0, cols, marks)
  }

  method TruncateCells(s: string, cols: int, marks: Marks) returns (r: string)
    ensures r == Truncated(s, cols, marks)
  {
    if cols <= 0 {
      return "";
    }
    var w := 0;
    assert s[0..] == s && s[..0] == "";
    for i := 0 to |s|
      invariant Fitting(s, 0, cols, marks) == s[..i] + Fitting(s[i..], w, cols, marks)
    {
      assert s[i..][0] == s[i] && s[i..][1..] == s[i + 1..] && s[..i + 1] == s[..i] + [s[i]];
      var cw := RuneCells(s[i], marks);
      if w + cw > cols {
        assert s[..i] + "" == s[..i];
        return s[..i];
      }
      w := w + cw;
    }
    assert s[..|s|] + "" == s;
    return s;
  }

  lemma {:induction false} FittingFits(s: string, w: int, cols: int, marks: Marks)
    requires w <= cols
    ensures w + Cells(Fitting(s, w, cols, marks), marks) <= cols
    ensures Fitting(s, w, cols, marks) <= s
    decreases |s|
  {
    if s != "" && w + RuneCells(s[0], marks) <= cols {
      FittingFits(s[1..], w + RuneCells(s[0], marks), cols, marks);
      var f := Fitting(s[1..], w + RuneCells(s[0], marks), cols, marks);
      assert ([s[0]] + f)[0] == s[0] && ([s[0]] + f)[1..] == f;
    }
  }

  lemma {:induction false} FittingLongest(s: string, w: int, cols: int, marks: Marks, n: nat)
    requires w <= cols && n <= |s|
    ensures w + Cells(s[..n], marks) <= cols <==> n <= |Fitting(s, w, cols, marks)|
    decreases |s|
  {
    if n > 0 {
      assert s[..n][0] == s[0] && s[..n][1..] == s[1..][..n - 1];
      if w + RuneCells(s[0], marks) <= cols {
        FittingLongest(s[1..], w + RuneCells(s[0], marks), cols, marks, n - 1);
      }
    }
  }

  /** In a positive number of columns the cut text is the longest prefix that fits: the prefixes that
      fit are exactly those no longer. With no columns nothing is left, not even what takes no cell. */
  lemma TruncatedIsLongest(s: string, cols: int, marks: Marks)
    ensures Truncated(s, cols, marks) <= s
    ensures cols > 0 ==> forall n | 0 <= n <= |s| :: Cells(s[..n], marks) <= cols <==> n <= |Truncated(s, cols, marks)|
    ensures cols <= 0 ==> Truncated(s, cols, marks) == ""
  {
    if cols > 0 {
      FittingFits(s, 0, cols, marks);
      forall n | 0 <= n <= |s|
        ensures Cells(s[..n], marks) <= cols <==> n <= |Truncated(s, cols, marks)|
      {
        FittingLongest(s, 0, cols, marks, n);
      }
    }
  }

  function Spaces(n: nat): (s: string)
    ensures |s| == n
  {
    seq(n, _ => ' ')
  }

  lemma {:induction false} SpacesCells(n: nat, marks: Marks)
    requires !marks(' ')
    ensures Cells(Spaces(n), marks) == n
    decreases n
  {
    if n > 0 {
      assert Spaces(n)[1..] == Spaces(n - 1);
      SpacesCells(n - 1, marks);
    }
  }

  /** barText: left content, padding, right content; the right goes before the left is cut. */
  function BarText(left: string, right: string, cols: int, marks: Marks): string {
    var r := if Cells(left, marks) + Cells(right, marks) + 1 > cols then "" else right;
    var l := if Cells(left, marks) + Cells(r, marks) + 1 > cols then Truncated(left, cols, marks) else left;
    var pad := cols - Cells(l, marks) - Cells(r, marks);
    l + Spaces(if pad < 0 then 0 else pad) + r
  }

  method LayOut(left: string, right: string, cols: int, marks: Marks) returns (text: string)
    ensures text == BarText(left, right, cols, marks)
  {
    var l, r := left, right;
    var lw := CellWidth(l, marks);
    var rw := CellWidth(r, marks);
    if lw + rw + 1 > cols {
      r, rw := "", 0;
    }
    if lw + rw + 1 > cols {
      l := TruncateCells(l, cols, marks);
      lw := CellWidth(l, marks);
    }
    var pad := cols - lw - rw;
    if pad < 0 {
      pad := 0;
    }
    text := l + Spaces(pad) + r;
  }

  /** The bar is exactly as wide as the terminal, whatever its texts. */
  lemma BarTextWidth(left: string, right: string, cols: int, marks: Marks)
    requires cols >= 0 && !marks(' ')
    ensures Cells(BarText(left, right, cols, marks), marks) == cols
  {
    var r := if Cells(left, marks) + Cells(right, marks) + 1 > cols then "" else right;
    var l := if Cells(left, marks) + Cells(r, marks) + 1 > cols then Truncated(left, cols, marks) else left;
    FittingFits(left, 0, cols, marks);
    var pad := cols - Cells(l, marks) - Cells(r, marks);
    assert pad >= 0;
    SpacesCells(pad, marks);
    CellsAppend(l, Spaces(pad), marks);
    CellsAppend(l + Spaces(pad), r, marks);
  }

  lemma WholeFits(s: string, cols: int, marks: Marks)
    requires Cells(s, marks) <= cols && cols > 0
    ensures Truncated(s, cols, marks) == s
  {
    TruncatedIsLongest(s, cols, marks);
    assert s[..|s|] == s;
  }

  /** What the bar shows: where both texts fit with a space between them, the left one at the left edge
      and the right one at the right edge, with nothing but spaces between; otherwise as much of the left
      text as fits and spaces, the whole of it if it fits. */
  lemma BarTextReads(left: string, right: string, cols: int, marks: Marks) returns (n: nat, gap: nat)
    requires cols > 0
    ensures n <= |left|
    ensures if Cells(left, marks) + 1 + Cells(right, marks) <= cols then
              n == |left| && gap > 0 && BarText(left, right, cols, marks) == left + Spaces(gap) + right
            else BarText(left, right, cols, marks) == left[..n] + Spaces(gap)
    ensures Cells(left, marks) <= cols ==> n == |left|
    ensures Cells(left[..n], marks) <= cols && forall k | n < k <= |left| :: Cells(left[..k], marks) > cols
    ensures forall i | 0 <= i < gap :: Spaces(gap)[i] == ' '
  {
    TruncatedIsLongest(left, cols, marks);
    var both := Cells(left, marks) + 1 + Cells(right, marks) <= cols;
    var r := if both then right else "";
    var l := if Cells(left, marks) + Cells(r, marks) + 1 > cols then Truncated(left, cols, marks) else left;
    n := |l|;
    assert left[..|left|] == left && l == left[..n];
    gap := cols - Cells(l, marks) - Cells(r, marks);
    if Cells(left, marks) <= cols {
      WholeFits(left, cols, marks);
    }
    assert l + Spaces(gap) + "" == l + Spaces(gap);
  }
}
