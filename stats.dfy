/** Python's sum, min and max over a list of integers. */
module Stats {

  /** sum(s); readings are never negative, and neither is their sum. */
  function Sum(s: seq<int>): (r: int)
    ensures (forall i :: 0 <= i < |s| ==> 0 <= s[i]) ==> 0 <= r
    decreases |s|
  {
    if s == [] then 0 else Sum(s[..|s| - 1]) + s[|s| - 1]
  }

  /** min(s); Python raises on an empty list. */
  function Min(s: seq<int>): (r: int)
    requires |s| > 0
    ensures r in s
    decreases |s|
  {
    if |s| == 1 then s[0]
    else
      var m := Min(s[1..]);
      if s[0] <= m then s[0] else m
  }

  /** max(s); Python raises on an empty list. */
  function Max(s: seq<int>): (r: int)
    requires |s| > 0
    ensures r in s
    decreases |s|
  {
    if |s| == 1 then s[0]
    else
      var m := Max(s[1..]);
      if m <= s[0] then s[0] else m
  }

  /** min(s) is an element of s and no element is smaller. */
  lemma {:induction false} MinIsSmallest(s: seq<int>)
    requires |s| > 0
    ensures exists i :: 0 <= i < |s| && s[i] == Min(s)
    ensures forall i :: 0 <= i < |s| ==> Min(s) <= s[i]
    decreases |s|
  {
    if |s| > 1 {
      var tail := s[1..];
      MinIsSmallest(tail);
      assert forall i :: 1 <= i < |s| ==> s[i] == tail[i - 1];
      var j :| 0 <= j < |tail| && tail[j] == Min(tail);
      if s[0] <= Min(tail) {
        assert s[0] == Min(s);
      } else {
        assert s[j + 1] == Min(s);
      }
    } else {
      assert s[0] == Min(s);
    }
  }

  /** max(s) is an element of s and no element is larger. */
  lemma {:induction false} MaxIsLargest(s: seq<int>)
    requires |s| > 0
    ensures exists i :: 0 <= i < |s| && s[i] == Max(s)
    ensures forall i :: 0 <= i < |s| ==> s[i] <= Max(s)
    decreases |s|
  {
    if |s| > 1 {
      var tail := s[1..];
      MaxIsLargest(tail);
      assert forall i :: 1 <= i < |s| ==> s[i] == tail[i - 1];
      var j :| 0 <= j < |tail| && tail[j] == Max(tail);
      if Max(tail) <= s[0] {
        assert s[0] == Max(s);
      } else {
        assert s[j + 1] == Max(s);
      }
    } else {
      assert s[0] == Max(s);
    }
  }

  /** A sum of values all within [lo, hi] lies within the count times those bounds. */
  lemma {:induction false} SumBetween(s: seq<int>, lo: int, hi: int)
    requires forall i :: 0 <= i < |s| ==> lo <= s[i] <= hi
    ensures |s| * lo <= Sum(s) <= |s| * hi
    decreases |s|
  {
    if s != [] {
      var init := s[..|s| - 1];
      assert forall i :: 0 <= i < |init| ==> init[i] == s[i];
      SumBetween(init, lo, hi);
      assert |s| * lo == |init| * lo + lo;
      assert |s| * hi == |init| * hi + hi;
    }
  }

  /** The floor of the mean of 72 values lies between their minimum and
      maximum. */
  lemma MeanOf72Between(s: seq<int>)
    requires |s| == 72
    ensures Min(s) <= Sum(s) / 72 <= Max(s)
  {
    MinIsSmallest(s);
    MaxIsLargest(s);
    SumBetween(s, Min(s), Max(s));
  }
}
