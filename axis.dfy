/** The integers draw_plot hands to the axes for one channel: the x range
    follows the last 500 positions, the y range brackets the values with a
    margin of 100. */
module Axis {
  import opened Stats

  const WindowWidth: nat := 500
  const Margin: nat := 100

  datatype Bounds = Bounds(xmin: int, xmax: int, ymin: int, ymax: int)

  /** The values on display: the last 500 of the history, or all of it. */
  function Window(history: seq<int>): (w: seq<int>)
    ensures |w| == (if |history| < WindowWidth then |history| else WindowWidth)
    ensures |history| <= WindowWidth ==> w == history
  {
    history[|history| - (if |history| < WindowWidth then |history| else WindowWidth)..]
  }

  /** The axis bounds of one channel, with the lower y bound taken over the
      values on display and the upper one over the whole history. The x
      range is 500 wide and ends at the history's length, or at 500 while
      the history is shorter. */
  function AxisBounds(history: seq<int>): (b: Bounds)
    ensures b.xmax == b.xmin + WindowWidth && b.xmin == |history| - |Window(history)|
    ensures |history| <= b.xmax
  {
    var xmax := if |history| > WindowWidth then |history| else WindowWidth;
    var w := Window(history);
    Bounds(xmax - WindowWidth, xmax,
           if w == [] then 0 else Min(w) - Margin,
           if history == [] then Margin else Max(history) + Margin)
  }

  /** The y range leaves a margin of 100 below the smallest displayed value
      (the positions from xmin on) and above the largest value held, and
      each bound is attained; an empty history gives the range [0, 100]. */
  lemma BoundsBracketValues(history: seq<int>)
    ensures var b := AxisBounds(history);
      && (history == [] ==> b.ymin == 0 && b.ymax == Margin)
      && (history != [] ==>
        && (forall i :: b.xmin <= i < |history| ==> b.ymin + Margin <= history[i])
        && (exists i :: b.xmin <= i < |history| && history[i] == b.ymin + Margin)
        && (forall i :: 0 <= i < |history| ==> history[i] <= b.ymax - Margin)
        && (exists i :: 0 <= i < |history| && history[i] == b.ymax - Margin))
  {
    var w := Window(history);
    assert forall i :: 0 <= i < |w| ==> w[i] == history[|history| - |w| + i];
    if history != [] {
      MinIsSmallest(w);
      MaxIsLargest(history);
      var j :| 0 <= j < |w| && w[j] == Min(w);
      assert history[|history| - |w| + j] == Min(w);
    }
  }

  // The lower bound as the source writes it: min(data[len - 500:]) - 100.
  // When len < 500 the start is negative and Python counts it from the end.

  /** Where Python's s[i:] starts in a list of length n. */
  function PyStart(n: nat, i: int): (r: nat)
    ensures r <= n
  {
    if i < 0 then (if n + i < 0 then 0 else n + i) else if i > n then n else i
  }

  /** The lower y bound draw_plot computes: the minimum of the slice Python
      takes, less the margin, or 0 when that slice is empty. */
  function YLowerAsWritten(history: seq<int>): (y: int)
    ensures history == [] ==> y == 0
    ensures history != [] ==>
      var from := PyStart(|history|, |history| - WindowWidth);
      && (forall i :: from <= i < |history| ==> y + Margin <= history[i])
      && (exists i :: from <= i < |history| && history[i] == y + Margin)
  {
    var w := history[PyStart(|history|, |history| - WindowWidth)..];
    if w == [] then 0
    else
      MinIsSmallest(w);
      assert forall i :: 0 <= i < |w| ==> w[i] == history[|history| - |w| + i];
      Min(w) - Margin
  }

  /** The bound as written and the corrected one agree except when
      250 < len < 500: there the slice start is negative and lands inside
      the window. */
  lemma AsWrittenAgreesOutsideGap(history: seq<int>)
    ensures |history| <= WindowWidth / 2 || WindowWidth <= |history| <==>
              history[PyStart(|history|, |history| - WindowWidth)..] == Window(history)
    ensures |history| <= WindowWidth / 2 || WindowWidth <= |history| ==>
              YLowerAsWritten(history) == AxisBounds(history).ymin
  {
    var n := |history|;
    var from := PyStart(n, n - WindowWidth);
    if n <= WindowWidth / 2 {
      assert from == 0;
    } else if n < WindowWidth {
      assert 0 < from;
      assert |history[from..]| != |Window(history)|;
    } else {
      assert from == n - WindowWidth;
    }
  }

  /** For 250 < len < 500 the lower bound as written ignores the first
      2 * len - 500 values, which are on display. */
  lemma AsWrittenSkipsPrefix(history: seq<int>)
    requires WindowWidth / 2 < |history| < WindowWidth
    ensures YLowerAsWritten(history) == Min(history[2 * |history| - WindowWidth..]) - Margin
    ensures Window(history) == history
  {
  }

  /** A history of 251 values whose smallest value comes first: the bound
      as written is 900, above the displayed value 0, while the window's
      true minimum gives -100. */
  lemma AsWrittenMissesMinimum()
    ensures var history := [0, 0] + seq(249, _ => 1000);
      YLowerAsWritten(history) == 900 && AxisBounds(history).ymin == -100
  {
    var history := [0, 0] + seq(249, _ => 1000);
    var tail := history[2..];
    assert forall i :: 0 <= i < |tail| ==> tail[i] == 1000;
    assert PyStart(|history|, |history| - WindowWidth) == 2;
    MinIsSmallest(tail);
    assert Min(tail) == 1000;
    assert forall i :: 0 <= i < |history| ==> 0 <= history[i];
    MinIsSmallest(history);
    assert Min(history) == 0;
  }
}
