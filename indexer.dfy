/**
 * Temporal indexer: for every window, the first and last time step whose
 * acquisition falls on an allowed day of the year inside the window. One
 * forward scan over the time steps, with a left index carried from window
 * to window.
 */
module Indexer {
  import opened Calendar

  /** Inclusive range of time-step indices; (-1, -1) when there is none. */
  datatype Range = Range(t0: int, t1: int)

  const NoRange := Range(-1, -1)

  /** Every acquisition's day-of-year indexes the day-of-year mask. */
  ghost predicate DoysOk(acq: seq<Date>, doys: seq<bool>)
  {
    forall t :: 0 <= t < |acq| ==> 0 <= acq[t].doy < |doys|
  }

  /** Time step `t` is on an allowed day of the year and inside [s, e). */
  predicate InWindow(acq: seq<Date>, doys: seq<bool>, s: int, e: int, t: int)
    requires DoysOk(acq, doys) && 0 <= t < |acq|
  {
    doys[acq[t].doy] && s <= acq[t].ce < e
  }

  /** `r` is empty, or an ordered pair of in-window indices below `bound`. */
  predicate Shaped(acq: seq<Date>, doys: seq<bool>, s: int, e: int, r: Range, bound: int)
    requires DoysOk(acq, doys) && bound <= |acq|
  {
    r == NoRange ||
    (0 <= r.t0 <= r.t1 < bound && InWindow(acq, doys, s, e, r.t0) && InWindow(acq, doys, s, e, r.t1))
  }

  /**
   * The inner scan for window [s, e) from step `t` with the range `r`
   * found so far: disallowed days are skipped, in-window steps extend the
   * range, and the scan stops at the first allowed step at or past `e`.
   */
  function Scan(acq: seq<Date>, doys: seq<bool>, s: int, e: int, t: nat, r: Range): (res: Range)
    requires DoysOk(acq, doys) && t <= |acq|
    requires Shaped(acq, doys, s, e, r, t)
    decreases |acq| - t
    ensures Shaped(acq, doys, s, e, res, |acq|)
    ensures r != NoRange ==> res.t0 == r.t0 && r.t1 <= res.t1
    ensures r == NoRange && res != NoRange ==> t <= res.t0
  {
    if t == |acq| then r
    else if !doys[acq[t].doy] then Scan(acq, doys, s, e, t + 1, r)
    else if s <= acq[t].ce < e then Scan(acq, doys, s, e, t + 1, Range(if r.t0 < 0 then t else r.t0, t))
    else if acq[t].ce >= e then r
    else Scan(acq, doys, s, e, t + 1, r)
  }

  /** The range of one window scanned from `tLeft`; an unused window gets none. */
  function WindowRange(acq: seq<Date>, doys: seq<bool>, s: Date, e: Date, used: bool, tLeft: nat): (r: Range)
    requires DoysOk(acq, doys) && tLeft <= |acq|
    ensures Shaped(acq, doys, s.ce, e.ce, r, |acq|)
  {
    if !used then NoRange else Scan(acq, doys, s.ce, e.ce, tLeft, NoRange)
  }

  /** The carried left index: the last index of the last window that had one. */
  function NextLeft(r: Range, tLeft: nat): nat
    requires r.t1 >= -1
  {
    if r.t1 >= 0 then r.t1 else tLeft
  }

  /** Ranges of windows `w..` when the scan of window `w` starts at `tLeft`. */
  function RangesFrom(acq: seq<Date>, doys: seq<bool>, ws: seq<Date>, we: seq<Date>, used: seq<bool>,
                      w: nat, tLeft: nat): (rs: seq<Range>)
    requires DoysOk(acq, doys) && |ws| == |we| == |used| && w <= |ws| && tLeft <= |acq|
    decreases |ws| - w
    ensures |rs| == |ws| - w
  {
    if w == |ws| then []
    else
      var r := WindowRange(acq, doys, ws[w], we[w], used[w], tLeft);
      [r] + RangesFrom(acq, doys, ws, we, used, w + 1, NextLeft(r, tLeft))
  }

  /** The ranges of all windows, as computed by clear_sky_observations. */
  function Ranges(acq: seq<Date>, doys: seq<bool>, ws: seq<Date>, we: seq<Date>, used: seq<bool>): (rs: seq<Range>)
    requires DoysOk(acq, doys) && |ws| == |we| == |used|
    ensures |rs| == |ws|
  {
    RangesFrom(acq, doys, ws, we, used, 0, 0)
  }

  /**
   * The indexer loop of clear_sky_observations: fills `t0` and `t1`, one
   * entry per window, scanning the time steps forward from the carried
   * left index `tLeft`.
   */
  method IndexWindows(acq: seq<Date>, doys: seq<bool>, ws: seq<Date>, we: seq<Date>, used: seq<bool>)
    returns (t0: array<int>, t1: array<int>)
    requires DoysOk(acq, doys) && |ws| == |we| == |used|
    ensures fresh(t0) && fresh(t1) && t0.Length == t1.Length == |ws|
    ensures forall w :: 0 <= w < |ws| ==> Range(t0[w], t1[w]) == Ranges(acq, doys, ws, we, used)[w]
  {
    var nw := |ws|;
    t0 := new int[nw];
    t1 := new int[nw];
    ghost var all := Ranges(acq, doys, ws, we, used);
    var tLeft: nat := 0;
    for w := 0 to nw
      invariant tLeft <= |acq|
      invariant |all| == nw
      invariant RangesFrom(acq, doys, ws, we, used, w, tLeft) == all[w..]
      invariant forall v :: 0 <= v < w ==> Range(t0[v], t1[v]) == all[v]
    {
      var first, last := -1, -1;
      if used[w] {
        first, last := ScanWindow(acq, doys, ws[w].ce, we[w].ce, tLeft);
      }
      ghost var r := WindowRange(acq, doys, ws[w], we[w], used[w], tLeft);
      ghost var rest := RangesFrom(acq, doys, ws, we, used, w + 1, NextLeft(r, tLeft));
      assert Range(first, last) == r;
      assert all[w..] == [r] + rest;
      assert all[w] == r && all[w + 1..] == rest by {
        assert all[w..][0] == r;
        assert all[w + 1..] == all[w..][1..];
      }
      t0[w], t1[w] := first, last;
      if last >= 0 { tLeft := last; }
    }
  }

  /**
   * The inner loop of the indexer for the window `[s, e)`: from `tLeft`,
   * skip steps on disallowed days, record the first and last step inside
   * the window, and stop at the first allowed step at or past `e`.
   */
  method ScanWindow(acq: seq<Date>, doys: seq<bool>, s: int, e: int, tLeft: nat) returns (first: int, last: int)
    requires DoysOk(acq, doys) && tLeft <= |acq|
    ensures Range(first, last) == Scan(acq, doys, s, e, tLeft, NoRange)
  {
    first, last := -1, -1;
    var t := tLeft;
    while t < |acq|
      invariant tLeft <= t <= |acq|
      invariant Shaped(acq, doys, s, e, Range(first, last), t)
      invariant Scan(acq, doys, s, e, t, Range(first, last)) == Scan(acq, doys, s, e, tLeft, NoRange)
    {
      var ce := acq[t].ce;
      var doy := acq[t].doy;
      if !doys[doy] {
        t := t + 1;
        continue;
      }
      if ce >= s && ce < e {
        if first < 0 { first := t; }
        last := t;
      } else if ce >= e {
        break;
      }
      t := t + 1;
    }
  }

  // ---------------------------------------------------------------------
  // What the ranges mean
  // ---------------------------------------------------------------------

  /** Each window's range is empty or a pair of in-window indices; an unused window's is empty. */
  lemma {:induction false} RangesFromShape(acq: seq<Date>, doys: seq<bool>, ws: seq<Date>, we: seq<Date>, used: seq<bool>,
                                           w: nat, tLeft: nat, i: nat)
    requires DoysOk(acq, doys) && |ws| == |we| == |used| && tLeft <= |acq|
    requires w <= i < |ws|
    ensures var r := RangesFrom(acq, doys, ws, we, used, w, tLeft)[i - w];
      (!used[i] ==> r == NoRange) && Shaped(acq, doys, ws[i].ce, we[i].ce, r, |acq|)
    decreases i - w
  {
    var r := WindowRange(acq, doys, ws[w], we[w], used[w], tLeft);
    if i > w {
      RangesFromShape(acq, doys, ws, we, used, w + 1, NextLeft(r, tLeft), i);
    }
  }

  /** Indexer result shape: `t0 == t1 == -1`, or `0 <= t0 <= t1 < nt` with both on allowed in-window steps. */
  lemma RangesShape(acq: seq<Date>, doys: seq<bool>, ws: seq<Date>, we: seq<Date>, used: seq<bool>, w: nat)
    requires DoysOk(acq, doys) && |ws| == |we| == |used| && w < |ws|
    ensures var r := Ranges(acq, doys, ws, we, used)[w];
      (!used[w] ==> r.t0 == -1 && r.t1 == -1) &&
      ((r.t0 == -1 && r.t1 == -1) ||
       (0 <= r.t0 <= r.t1 < |acq| &&
        InWindow(acq, doys, ws[w].ce, we[w].ce, r.t0) && InWindow(acq, doys, ws[w].ce, we[w].ce, r.t1)))
  {
    RangesFromShape(acq, doys, ws, we, used, 0, 0, w);
  }

  /** Acquisition dates are in chronological order. */
  ghost predicate Sorted(acq: seq<Date>)
  {
    forall i, j :: 0 <= i <= j < |acq| ==> acq[i].ce <= acq[j].ce
  }

  /** Every window ends no later than any later window starts. */
  ghost predicate Ordered(ws: seq<Date>, we: seq<Date>)
  {
    |ws| == |we| && forall v, w :: 0 <= v < w < |ws| ==> we[v].ce <= ws[w].ce
  }

  /** `r` covers every allowed in-window step, and is empty only if there is none. */
  ghost predicate Covers(acq: seq<Date>, doys: seq<bool>, s: int, e: int, r: Range)
    requires DoysOk(acq, doys)
  {
    forall u :: 0 <= u < |acq| && InWindow(acq, doys, s, e, u) ==> r != NoRange && r.t0 <= u <= r.t1
  }

  /** On sorted dates the scan misses no in-window step. */
  lemma {:induction false} ScanCovers(acq: seq<Date>, doys: seq<bool>, s: int, e: int, t: nat, r: Range)
    requires DoysOk(acq, doys) && Sorted(acq) && t <= |acq|
    requires Shaped(acq, doys, s, e, r, t)
    requires forall u :: 0 <= u < t && InWindow(acq, doys, s, e, u) ==> r != NoRange && r.t0 <= u <= r.t1
    ensures Covers(acq, doys, s, e, Scan(acq, doys, s, e, t, r))
    decreases |acq| - t
  {
    if t == |acq| {
    } else if !doys[acq[t].doy] {
      assert Scan(acq, doys, s, e, t, r) == Scan(acq, doys, s, e, t + 1, r);
      ScanCovers(acq, doys, s, e, t + 1, r);
    } else if s <= acq[t].ce < e {
      var r' := Range(if r.t0 < 0 then t else r.t0, t);
      assert Scan(acq, doys, s, e, t, r) == Scan(acq, doys, s, e, t + 1, r');
      ExtendCovers(acq, doys, s, e, t, r);
      ScanCovers(acq, doys, s, e, t + 1, r');
    } else if acq[t].ce >= e {
      assert Scan(acq, doys, s, e, t, r) == r;
      StopCovers(acq, doys, s, e, t, r);
    } else {
      assert Scan(acq, doys, s, e, t, r) == Scan(acq, doys, s, e, t + 1, r);
      ScanCovers(acq, doys, s, e, t + 1, r);
    }
  }

  /** Extending the range with an in-window step `t` keeps every earlier in-window step covered. */
  lemma ExtendCovers(acq: seq<Date>, doys: seq<bool>, s: int, e: int, t: nat, r: Range)
    requires DoysOk(acq, doys) && t < |acq| && InWindow(acq, doys, s, e, t)
    requires Shaped(acq, doys, s, e, r, t)
    requires forall u :: 0 <= u < t && InWindow(acq, doys, s, e, u) ==> r != NoRange && r.t0 <= u <= r.t1
    ensures forall u :: 0 <= u < t + 1 && InWindow(acq, doys, s, e, u) ==>
      (if r.t0 < 0 then t else r.t0) <= u <= t
  {
    forall u | 0 <= u < t + 1 && InWindow(acq, doys, s, e, u)
      ensures (if r.t0 < 0 then t else r.t0) <= u <= t
    {
      if u < t { assert r != NoRange && r.t0 <= u; }
    }
  }

  /** On sorted dates, an allowed step at or past the window end leaves no in-window step after it. */
  lemma StopCovers(acq: seq<Date>, doys: seq<bool>, s: int, e: int, t: nat, r: Range)
    requires DoysOk(acq, doys) && Sorted(acq) && t < |acq| && acq[t].ce >= e
    requires forall u :: 0 <= u < t && InWindow(acq, doys, s, e, u) ==> r != NoRange && r.t0 <= u <= r.t1
    ensures Covers(acq, doys, s, e, r)
  {
    forall u | 0 <= u < |acq| && InWindow(acq, doys, s, e, u)
      ensures r != NoRange && r.t0 <= u <= r.t1
    {
      if u >= t {
        assert false;
      }
    }
  }

  ghost predicate LeftOk(acq: seq<Date>, ws: seq<Date>, w: nat, tLeft: nat)
  {
    tLeft == 0 || (tLeft < |acq| && forall v :: w <= v < |ws| ==> acq[tLeft].ce < ws[v].ce)
  }

  lemma {:induction false} RangesFromCover(acq: seq<Date>, doys: seq<bool>, ws: seq<Date>, we: seq<Date>, used: seq<bool>,
                                           w: nat, tLeft: nat, i: nat)
    requires DoysOk(acq, doys) && |ws| == |we| == |used| && tLeft <= |acq|
    requires Sorted(acq) && Ordered(ws, we)
    requires LeftOk(acq, ws, w, tLeft)
    requires w <= i < |ws| && used[i]
    ensures Covers(acq, doys, ws[i].ce, we[i].ce, RangesFrom(acq, doys, ws, we, used, w, tLeft)[i - w])
    decreases i - w
  {
    var r := WindowRange(acq, doys, ws[w], we[w], used[w], tLeft);
    if i == w {
      forall u | 0 <= u < tLeft
        ensures !InWindow(acq, doys, ws[w].ce, we[w].ce, u)
      {
        assert acq[u].ce <= acq[tLeft].ce;
      }
      ScanCovers(acq, doys, ws[w].ce, we[w].ce, tLeft, NoRange);
    } else {
      var next := NextLeft(r, tLeft);
      if r.t1 >= 0 {
        forall v | w + 1 <= v < |ws|
          ensures acq[next].ce < ws[v].ce
        {
          assert we[w].ce <= ws[v].ce;
        }
      }
      RangesFromCover(acq, doys, ws, we, used, w + 1, next, i);
    }
  }

  /**
   * For chronologically sorted acquisitions and ordered windows the indexer
   * is exact: a used window's range is empty exactly when the window holds
   * no allowed step, and otherwise `t0` is the smallest and `t1` the largest
   * allowed in-window index.
   */
  lemma IndexerExact(acq: seq<Date>, doys: seq<bool>, ws: seq<Date>, we: seq<Date>, used: seq<bool>, w: nat)
    requires DoysOk(acq, doys) && |ws| == |we| == |used| && w < |ws|
    requires Sorted(acq) && Ordered(ws, we) && used[w]
    ensures Shaped(acq, doys, ws[w].ce, we[w].ce, Ranges(acq, doys, ws, we, used)[w], |acq|)
    ensures var r := Ranges(acq, doys, ws, we, used)[w];
      (r.t0 == -1 <==> forall u :: 0 <= u < |acq| ==> !InWindow(acq, doys, ws[w].ce, we[w].ce, u)) &&
      (r.t0 != -1 ==>
        InWindow(acq, doys, ws[w].ce, we[w].ce, r.t0) && InWindow(acq, doys, ws[w].ce, we[w].ce, r.t1) &&
        forall u :: 0 <= u < |acq| && InWindow(acq, doys, ws[w].ce, we[w].ce, u) ==> r.t0 <= u <= r.t1)
  {
    RangesShape(acq, doys, ws, we, used, w);
    RangesFromCover(acq, doys, ws, we, used, 0, 0, w);
  }
}
