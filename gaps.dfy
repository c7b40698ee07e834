/**
 * The revisit gaps of one pixel in one window: the walk over the window's
 * time-step range, which records the distance from the running left
 * boundary to every later valid observation, followed by the trailing gap
 * to the window's end.
 */
module Gaps {
  import opened Calendar

  /** `ce_left` after the walk over steps `lo .. hi-1`, starting from `start`. */
  function LeftAfter(acq: seq<Date>, col: seq<bool>, lo: nat, hi: int, start: int): int
    requires |col| == |acq| && hi <= |acq|
    decreases hi - lo
  {
    if hi <= lo then start
    else
      var l := LeftAfter(acq, col, lo, hi - 1, start);
      if col[hi - 1] && acq[hi - 1].ce > l then acq[hi - 1].ce else l
  }

  /** The gaps the walk over steps `lo .. hi-1` appends, in order. */
  function StepGaps(acq: seq<Date>, col: seq<bool>, lo: nat, hi: int, start: int): seq<int>
    requires |col| == |acq| && hi <= |acq|
    decreases hi - lo
  {
    if hi <= lo then []
    else
      var l := LeftAfter(acq, col, lo, hi - 1, start);
      StepGaps(acq, col, lo, hi - 1, start) +
        (if col[hi - 1] && acq[hi - 1].ce > l then [acq[hi - 1].ce - l] else [])
  }

  /** Number of valid (unmasked) steps among `lo .. hi-1`: the counter `n`. */
  function CountValid(col: seq<bool>, lo: nat, hi: int): nat
    requires hi <= |col|
    decreases hi - lo
  {
    if hi <= lo then 0 else CountValid(col, lo, hi - 1) + (if col[hi - 1] then 1 else 0)
  }

  /** The trailing gap from the last left boundary to the window end, when positive. */
  function Trailing(end: int, left: int): seq<int>
  {
    if end - left > 0 then [end - left] else []
  }

  /** All gaps of a window whose range is `t0 .. t1`: the walk's gaps, then the trailing gap. */
  function WindowGaps(acq: seq<Date>, col: seq<bool>, t0: nat, t1: int, start: int, end: int): seq<int>
    requires |col| == |acq| && t1 < |acq|
  {
    StepGaps(acq, col, t0, t1 + 1, start) + Trailing(end, LeftAfter(acq, col, t0, t1 + 1, start))
  }

  function Sum(s: seq<int>): int
  {
    if s == [] then 0 else Sum(s[..|s| - 1]) + s[|s| - 1]
  }

  /** Every gap the walk appends is at least one day. */
  lemma {:induction false} StepGapsPositive(acq: seq<Date>, col: seq<bool>, lo: nat, hi: int, start: int)
    requires |col| == |acq| && hi <= |acq|
    ensures forall i :: 0 <= i < |StepGaps(acq, col, lo, hi, start)| ==> StepGaps(acq, col, lo, hi, start)[i] >= 1
    decreases hi - lo
  {
    if hi > lo {
      StepGapsPositive(acq, col, lo, hi - 1, start);
    }
  }

  /** The walk's gaps telescope to the distance the left boundary moved. */
  lemma {:induction false} StepGapsTelescope(acq: seq<Date>, col: seq<bool>, lo: nat, hi: int, start: int)
    requires |col| == |acq| && hi <= |acq|
    ensures LeftAfter(acq, col, lo, hi, start) == start + Sum(StepGaps(acq, col, lo, hi, start))
    decreases hi - lo
  {
    if hi > lo {
      StepGapsTelescope(acq, col, lo, hi - 1, start);
      var l := LeftAfter(acq, col, lo, hi - 1, start);
      var g := StepGaps(acq, col, lo, hi - 1, start);
      if col[hi - 1] && acq[hi - 1].ce > l {
        var x := [acq[hi - 1].ce - l];
        assert StepGaps(acq, col, lo, hi, start) == g + x;
        assert (g + x)[..|g + x| - 1] == g;
      } else {
        assert StepGaps(acq, col, lo, hi, start) == g + [];
        assert g + [] == g;
      }
    }
  }

  /** No more gaps than valid steps, and no more valid steps than steps. */
  lemma {:induction false} StepGapsCount(acq: seq<Date>, col: seq<bool>, lo: nat, hi: int, start: int)
    requires |col| == |acq| && hi <= |acq|
    ensures |StepGaps(acq, col, lo, hi, start)| <= CountValid(col, lo, hi)
    ensures CountValid(col, lo, hi) <= (if hi <= lo then 0 else hi - lo)
    decreases hi - lo
  {
    if hi > lo {
      StepGapsCount(acq, col, lo, hi - 1, start);
    }
  }

  /** The left boundary never passes a bound that the start and every step's date stay below. */
  lemma {:induction false} LeftBelow(acq: seq<Date>, col: seq<bool>, lo: nat, hi: int, start: int, end: int)
    requires |col| == |acq| && hi <= |acq|
    requires start < end
    requires forall t :: lo <= t < hi ==> acq[t].ce < end
    ensures start <= LeftAfter(acq, col, lo, hi, start) < end
    decreases hi - lo
  {
    if hi > lo {
      LeftBelow(acq, col, lo, hi - 1, start, end);
    }
  }

  /**
   * The gaps of a window with a non-empty range: there is at least one,
   * the last (trailing) one is positive, all are at least one day, they sum
   * to the window length, there are at most `t1 - t0 + 2` of them (the
   * capacity the gap buffer needs), and the valid-step counter is at least
   * their number minus one.
   */
  lemma WindowGapsFacts(acq: seq<Date>, col: seq<bool>, t0: nat, t1: int, start: int, end: int)
    requires |col| == |acq| && t0 <= t1 < |acq|
    requires start < end
    requires forall t :: t0 <= t <= t1 ==> acq[t].ce < end
    ensures |WindowGaps(acq, col, t0, t1, start, end)| >= 1
    ensures WindowGaps(acq, col, t0, t1, start, end)[|WindowGaps(acq, col, t0, t1, start, end)| - 1] ==
            end - LeftAfter(acq, col, t0, t1 + 1, start) > 0
    ensures forall i :: 0 <= i < |WindowGaps(acq, col, t0, t1, start, end)| ==>
            WindowGaps(acq, col, t0, t1, start, end)[i] >= 1
    ensures Sum(WindowGaps(acq, col, t0, t1, start, end)) == end - start
    ensures |WindowGaps(acq, col, t0, t1, start, end)| <= t1 - t0 + 2
    ensures CountValid(col, t0, t1 + 1) >= |WindowGaps(acq, col, t0, t1, start, end)| - 1
  {
    var l := LeftAfter(acq, col, t0, t1 + 1, start);
    var sg := StepGaps(acq, col, t0, t1 + 1, start);
    StepGapsPositive(acq, col, t0, t1 + 1, start);
    StepGapsTelescope(acq, col, t0, t1 + 1, start);
    StepGapsCount(acq, col, t0, t1 + 1, start);
    LeftBelow(acq, col, t0, t1 + 1, start, end);
    var g := sg + [end - l];
    assert WindowGaps(acq, col, t0, t1, start, end) == g;
    assert g[..|g| - 1] == sg;
    assert Sum(g) == Sum(sg) + (end - l);
    forall i | 0 <= i < |g|
      ensures g[i] >= 1
    {
      if i < |sg| { assert g[i] == sg[i]; }
    }
  }

  /**
   * When the valid steps carry strictly increasing dates after `start`, every
   * valid step contributes a gap, and the left boundary is `start` or the
   * date of a valid step.
   */
  lemma {:induction false} StepGapsDistinct(acq: seq<Date>, col: seq<bool>, lo: nat, hi: int, start: int)
    requires |col| == |acq| && hi <= |acq|
    requires forall t :: lo <= t < hi && col[t] ==> acq[t].ce > start
    requires forall i, j :: lo <= i < j < hi && col[i] && col[j] ==> acq[i].ce < acq[j].ce
    ensures |StepGaps(acq, col, lo, hi, start)| == CountValid(col, lo, hi)
    ensures LeftAfter(acq, col, lo, hi, start) == start ||
            exists t :: lo <= t < hi && col[t] && LeftAfter(acq, col, lo, hi, start) == acq[t].ce
    decreases hi - lo
  {
    if hi > lo {
      StepGapsDistinct(acq, col, lo, hi - 1, start);
      var l := LeftAfter(acq, col, lo, hi - 1, start);
      if col[hi - 1] {
        assert acq[hi - 1].ce > l by {
          if l != start {
            var t :| lo <= t < hi - 1 && col[t] && l == acq[t].ce;
          }
        }
      } else if l != start {
        var t :| lo <= t < hi - 1 && col[t] && l == acq[t].ce;
        assert lo <= t < hi && col[t] && LeftAfter(acq, col, lo, hi, start) == acq[t].ce;
      }
    }
  }

  // ---------------------------------------------------------------------
  // Running minimum and maximum
  // ---------------------------------------------------------------------

  /** The running minimum over `s`, started at `init` (`SHRT_MAX` in the source). */
  function RunMin(init: int, s: seq<int>): int
  {
    if s == [] then init
    else
      var m := RunMin(init, s[..|s| - 1]);
      if s[|s| - 1] < m then s[|s| - 1] else m
  }

  /** The running maximum over `s`, started at `init` (`SHRT_MIN` in the source). */
  function RunMax(init: int, s: seq<int>): int
  {
    if s == [] then init
    else
      var m := RunMax(init, s[..|s| - 1]);
      if s[|s| - 1] > m then s[|s| - 1] else m
  }

  /** The running minimum is a lower bound of `init` and of every element, and is one of them. */
  lemma {:induction false} RunMinBounds(init: int, s: seq<int>)
    ensures RunMin(init, s) <= init && forall i :: 0 <= i < |s| ==> RunMin(init, s) <= s[i]
    ensures RunMin(init, s) == init || exists i :: 0 <= i < |s| && RunMin(init, s) == s[i]
  {
    if s != [] {
      var p := s[..|s| - 1];
      RunMinBounds(init, p);
      assert forall i :: 0 <= i < |p| ==> s[i] == p[i];
    }
  }

  /** The running maximum is an upper bound of `init` and of every element, and is one of them. */
  lemma {:induction false} RunMaxBounds(init: int, s: seq<int>)
    ensures RunMax(init, s) >= init && forall i :: 0 <= i < |s| ==> RunMax(init, s) >= s[i]
    ensures RunMax(init, s) == init || exists i :: 0 <= i < |s| && RunMax(init, s) == s[i]
  {
    if s != [] {
      var p := s[..|s| - 1];
      RunMaxBounds(init, p);
      assert forall i :: 0 <= i < |p| ==> s[i] == p[i];
    }
  }

  /** Over a non-empty sequence the running minimum is at most the running maximum. */
  lemma MinAtMostMax(lowInit: int, highInit: int, s: seq<int>)
    requires |s| > 0
    ensures RunMin(lowInit, s) <= RunMax(highInit, s)
  {
    RunMinBounds(lowInit, s);
    RunMaxBounds(highInit, s);
    assert RunMin(lowInit, s) <= s[0] <= RunMax(highInit, s);
  }
}
