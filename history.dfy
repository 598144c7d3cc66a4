/** What the redraw timer does to one channel's history (self.data[0] for
    temperature, self.data[1] for pressure) on each tick, and the block
    average it publishes. */
module History {
  import opened Optional
  import opened Stats

  /** A history longer than this is cleared at the start of a tick. */
  const HistoryLimit: nat := 5000
  /** Averages are taken over blocks of this many values. */
  const BlockLength: nat := 72

  /** Python's s[lo:hi] for 0 <= lo <= hi: both ends are clamped to the
      length, so the slice may be short or empty. */
  function Slice(s: seq<int>, lo: nat, hi: nat): seq<int>
    requires lo <= hi
  {
    if hi <= |s| then s[lo..hi] else if lo <= |s| then s[lo..] else []
  }

  /** The history after a tick: cleared if it held more than 5000 values
      before the tick, then the drained values appended. */
  function Tick(history: seq<int>, drained: seq<int>): (h: seq<int>)
    ensures |drained| <= |h| && h[|h| - |drained|..] == drained
  {
    (if |history| > HistoryLimit then [] else history) + drained
  }

  /** The average a tick publishes, if any. With L the length before the
      tick: when L is a positive multiple of 72, the sum of entries
      [L - 72, L) of the new history, floor-divided by 72. */
  function TickAverage(history: seq<int>, drained: seq<int>): (a: Option<int>)
    ensures a.Some? <==> |history| > 0 && |history| % BlockLength == 0
  {
    var L := |history|;
    if L % BlockLength == 0 && L > 0 then
      Some(Sum(Slice(Tick(history, drained), L - BlockLength, L)) / BlockLength)
    else None
  }

  /** The history never grows past 5000 plus one tick's worth; the drained
      values always end it, in arrival order, and an uncleared history is
      kept as its prefix. At exactly 5000 nothing is cleared, so one more
      value gives 5001. */
  lemma TickKeepsOrder(history: seq<int>, drained: seq<int>)
    ensures var h := Tick(history, drained);
      && |h| <= HistoryLimit + |drained|
      && h[|h| - |drained|..] == drained
      && (|history| <= HistoryLimit ==> h[..|history|] == history && |h| == |history| + |drained|)
      && (|history| > HistoryLimit ==> h == drained)
  {
  }

  /** Without a clear, the published average is the floor of the mean of the
      last 72 values held before the tick, and so lies between their
      minimum and maximum. At length 144 that is entries [72, 144). */
  lemma AverageOfLastBlock(history: seq<int>, drained: seq<int>)
    requires 0 < |history| <= HistoryLimit && |history| % BlockLength == 0
    ensures var block := history[|history| - BlockLength..];
      && TickAverage(history, drained) == Some(Sum(block) / BlockLength)
      && Min(block) <= TickAverage(history, drained).value <= Max(block)
  {
    var L := |history|;
    var h := Tick(history, drained);
    assert h[L - BlockLength..L] == history[L - BlockLength..];
    MeanOf72Between(history[L - BlockLength..]);
  }

  /** When the history is cleared on a tick whose pre-tick length L is a
      multiple of 72, the slice [L - 72, L) is taken from the drained values
      alone; if there are no more than L - 72 of them it is empty and 0 is
      published. */
  lemma AverageAfterClear(history: seq<int>, drained: seq<int>)
    requires |history| > HistoryLimit && |history| % BlockLength == 0
    requires |drained| <= |history| - BlockLength
    ensures TickAverage(history, drained) == Some(0)
  {
  }
}
