/**
 * The whole clear-sky-observation run: count the windows, set up the
 * products and the window table, index the time steps per window, and
 * accumulate every pixel. Together with the lemmas that connect the stages:
 * the windows the compiler builds are in order, so the indexer's single
 * pass is exact, and every range it hands to the accumulator meets what the
 * gap statistics need.
 */
module Engine {
  import opened Calendar
  import opened Registry
  import W = Windows
  import I = Indexer
  import G = Gaps
  import A = Accumulator

  /** The adjusted windows, as the window table holds them after compilation. */
  ghost function PlannedStarts(cal: Cal, doys: seq<bool>, startYear: int, startMonth: int, step: int, nw: nat): (ws: seq<Date>)
    requires DoysCovered(cal, doys)
    ensures |ws| == nw
  {
    seq(nw, w => W.AdjustedWindow(cal, doys, startYear, startMonth, step, w).0)
  }

  ghost function PlannedEnds(cal: Cal, doys: seq<bool>, startYear: int, startMonth: int, step: int, nw: nat): (we: seq<Date>)
    requires DoysCovered(cal, doys)
    ensures |we| == nw
  {
    seq(nw, w => W.AdjustedWindow(cal, doys, startYear, startMonth, step, w).1)
  }

  ghost function PlannedUsed(cal: Cal, doys: seq<bool>, startYear: int, startMonth: int, step: int, nw: nat): (used: seq<bool>)
    requires DoysCovered(cal, doys)
    ensures |used| == nw
  {
    seq(nw, w => W.AdjustedWindow(cal, doys, startYear, startMonth, step, w).0.ce <
                 W.AdjustedWindow(cal, doys, startYear, startMonth, step, w).1.ce)
  }

  /** The scene the accumulator works on: the adjusted windows and the indexer's ranges. */
  ghost function PlannedScene(cal: Cal, doys: seq<bool>, startYear: int, startMonth: int, step: int, nw: nat,
                              acq: seq<Date>, msk: seq<seq<bool>>, mask: A.Option<seq<bool>>): A.Scene
    requires DoysCovered(cal, doys) && I.DoysOk(acq, doys)
  {
    var ws := PlannedStarts(cal, doys, startYear, startMonth, step, nw);
    var we := PlannedEnds(cal, doys, startYear, startMonth, step, nw);
    var used := PlannedUsed(cal, doys, startYear, startMonth, step, nw);
    var rs := I.Ranges(acq, doys, ws, we, used);
    A.Scene(acq, msk, mask, ws, we, used, Ends(rs, true), Ends(rs, false))
  }

  /** The first (`first`) or last steps of the ranges, window by window. */
  function Ends(rs: seq<I.Range>, first: bool): (t: seq<int>)
    ensures |t| == |rs| && forall w :: 0 <= w < |rs| ==> t[w] == if first then rs[w].t0 else rs[w].t1
  {
    seq(|rs|, w requires 0 <= w < |rs| => if first then rs[w].t0 else rs[w].t1)
  }

  /** The inputs fit `nc` pixels: one mask row per time step, one mask value per pixel. */
  ghost predicate Fits(acq: seq<Date>, msk: seq<seq<bool>>, mask: A.Option<seq<bool>>, nc: nat)
  {
    |msk| == |acq| && (forall t :: 0 <= t < |msk| ==> |msk[t]| == nc) &&
    (mask.Some? ==> |mask.value| == nc)
  }

  /**
   * The windows the compiler builds are ordered: each ends no later than any
   * later one starts. This is what the indexer's carried left index relies on.
   */
  lemma PlannedOrdered(cal: Cal, doys: seq<bool>, startYear: int, startMonth: int, step: int, nw: nat)
    requires Increasing(cal) && DoysCovered(cal, doys) && step >= 1
    ensures I.Ordered(PlannedStarts(cal, doys, startYear, startMonth, step, nw),
                      PlannedEnds(cal, doys, startYear, startMonth, step, nw))
  {
    var ws := PlannedStarts(cal, doys, startYear, startMonth, step, nw);
    var we := PlannedEnds(cal, doys, startYear, startMonth, step, nw);
    forall v, w | 0 <= v < w < nw
      ensures we[v].ce <= ws[w].ce
    {
      W.AdjustedOrdered(cal, doys, startYear, startMonth, step, v, w);
    }
  }

  /**
   * With chronologically sorted acquisitions, the range the run records for a
   * used window is exact: empty precisely when no allowed step falls within
   * the adjusted window, and otherwise from its first to its last such step.
   */
  lemma PlannedRangesExact(cal: Cal, doys: seq<bool>, startYear: int, startMonth: int, step: int, nw: nat,
                           acq: seq<Date>, msk: seq<seq<bool>>, mask: A.Option<seq<bool>>, w: nat)
    requires Increasing(cal) && DoysCovered(cal, doys) && step >= 1
    requires I.DoysOk(acq, doys) && I.Sorted(acq) && w < nw
    ensures var sc := PlannedScene(cal, doys, startYear, startMonth, step, nw, acq, msk, mask);
      sc.used[w] ==>
        (sc.t0[w] == -1 <==> forall u :: 0 <= u < |acq| ==> !I.InWindow(acq, doys, sc.ws[w].ce, sc.we[w].ce, u)) &&
        (sc.t0[w] != -1 ==>
          0 <= sc.t0[w] <= sc.t1[w] < |acq| &&
          I.InWindow(acq, doys, sc.ws[w].ce, sc.we[w].ce, sc.t0[w]) &&
          I.InWindow(acq, doys, sc.ws[w].ce, sc.we[w].ce, sc.t1[w]) &&
          forall u :: 0 <= u < |acq| && I.InWindow(acq, doys, sc.ws[w].ce, sc.we[w].ce, u) ==> sc.t0[w] <= u <= sc.t1[w])
  {
    var ws := PlannedStarts(cal, doys, startYear, startMonth, step, nw);
    var we := PlannedEnds(cal, doys, startYear, startMonth, step, nw);
    var used := PlannedUsed(cal, doys, startYear, startMonth, step, nw);
    PlannedOrdered(cal, doys, startYear, startMonth, step, nw);
    if used[w] {
      I.IndexerExact(acq, doys, ws, we, used, w);
      I.RangesShape(acq, doys, ws, we, used, w);
    }
  }

  /**
   * The indexer's range for window `w` is one the accumulator can summarise:
   * empty for an off-season window, and otherwise empty or a span of steps
   * dated before the window end. The window's gaps then number at least one
   * and at most the span plus two (the gap buffer holds `nt + 1`), are each
   * at least one day, sum to the window length, and bound a minimum no
   * larger than the maximum.
   */
  lemma IndexedSummary(num: A.Numerics, acq: seq<Date>, doys: seq<bool>, ws: seq<Date>, we: seq<Date>, used: seq<bool>,
                       col: seq<bool>, w: nat)
    requires I.DoysOk(acq, doys) && I.Sorted(acq) && |ws| == |we| == |used| && w < |ws| && |col| == |acq|
    ensures var r := I.Ranges(acq, doys, ws, we, used)[w];
      (r.t0 == -1 || 0 <= r.t0 <= r.t1 < |acq|) &&
      (!used[w] ==> r.t0 == -1) &&
      var s := A.Summarize(num, acq, col, r.t0, r.t1, ws[w].ce, we[w].ce);
      (r.t0 > -1 ==>
        1 <= |s.gaps| <= r.t1 - r.t0 + 2 <= |acq| + 1 && s.tally.n >= |s.gaps| - 1 &&
        (forall i :: 0 <= i < |s.gaps| ==> s.gaps[i] >= 1) &&
        G.Sum(s.gaps) == we[w].ce - ws[w].ce &&
        1 <= s.tally.minimum <= s.tally.maximum) &&
      (r.t0 == -1 ==> s.gaps == [] && s.tally.n == 0)
  {
    var r := I.Ranges(acq, doys, ws, we, used)[w];
    I.RangesShape(acq, doys, ws, we, used, w);
    if r.t0 > -1 {
      assert I.InWindow(acq, doys, ws[w].ce, we[w].ce, r.t0);
      assert I.InWindow(acq, doys, ws[w].ce, we[w].ce, r.t1);
      forall t | r.t0 <= t <= r.t1
        ensures acq[t].ce < we[w].ce
      {
        assert acq[t].ce <= acq[r.t1].ce;
      }
    }
    A.SummaryFacts(num, acq, col, r.t0, r.t1, ws[w].ce, we[w].ce);
  }

  /**
   * compile_cso: name the products, then set up each product's container
   * and (re)build the window table. It fails when a quantile name does not
   * fit or any container fails; the table is then of no further use. The
   * caller also gives up on zero products.
   */
  method CompileCso(c: Config, pct: real -> nat, brickOk: seq<bool>, cal: Cal, doys: seq<bool>,
                    startYear: int, startMonth: int, step: int, nw: nat)
    returns (ok: bool, names: seq<string>, ws: array<Date>, we: array<Date>, used: array<bool>)
    requires WellFormed(c) && |brickOk| == c.nmetrics
    requires 1 <= startMonth <= 12 && 1 <= step <= 12 && DoysCovered(cal, doys)
    ensures ok <==>
      (c.nmetrics > 0 && W.Failures(brickOk) == 0 &&
       forall i :: 0 <= i < |c.q| ==> |QuantileCode(pct(c.q[i]))| < NameCapacity)
    ensures ok ==>
      |names| == c.nmetrics &&
      (forall k :: 0 <= k < 9 && FixedSlots(c)[k] > -1 ==> names[FixedSlots(c)[k]] == FixedCodes[k]) &&
      (forall i :: 0 <= i < |c.qxx| ==> names[c.qxx[i]] == QuantileCode(pct(c.q[i])))
    ensures ok ==> ws.Length == nw && W.WindowTable(ws, we, used, cal, doys, startYear, startMonth, step)
  {
    var named;
    named, names := NameSlots(c, pct);
    ws := new Date[nw];
    we := new Date[nw];
    used := new bool[nw];
    if !named {
      return false, names, ws, we, used;
    }
    var errors := W.CompileWindows(ws, we, used, brickOk, cal, doys, startYear, startMonth, step);
    ok := errors == 0 && c.nmetrics > 0;
    if ok {
      assert brickOk[0];
    }
  }

  /**
   * The temporal indexing of clear_sky_observations on a compiled window
   * table, packaged with the inputs as the scene the accumulator reads.
   */
  method IndexScene(ws: array<Date>, we: array<Date>, used: array<bool>, cal: Cal, doys: seq<bool>,
                    startYear: int, startMonth: int, step: int,
                    acq: seq<Date>, msk: seq<seq<bool>>, mask: A.Option<seq<bool>>, nc: nat)
    returns (sc: A.Scene)
    requires DoysCovered(cal, doys) && I.DoysOk(acq, doys) && Fits(acq, msk, mask, nc)
    requires W.WindowTable(ws, we, used, cal, doys, startYear, startMonth, step)
    ensures sc == PlannedScene(cal, doys, startYear, startMonth, step, ws.Length, acq, msk, mask)
    ensures A.SceneOk(sc, ws.Length, nc)
  {
    ghost var nw := ws.Length;
    ghost var pws := PlannedStarts(cal, doys, startYear, startMonth, step, nw);
    ghost var pwe := PlannedEnds(cal, doys, startYear, startMonth, step, nw);
    ghost var pused := PlannedUsed(cal, doys, startYear, startMonth, step, nw);
    TableIsPlanned(ws, we, used, cal, doys, startYear, startMonth, step);
    var t0, t1 := I.IndexWindows(acq, doys, ws[..], we[..], used[..]);
    ghost var rs := I.Ranges(acq, doys, pws, pwe, pused);
    assert t0[..] == Ends(rs, true) && t1[..] == Ends(rs, false);
    sc := A.Scene(acq, msk, mask, ws[..], we[..], used[..], t0[..], t1[..]);
    forall w | 0 <= w < nw
      ensures sc.t0[w] == -1 || 0 <= sc.t0[w] <= sc.t1[w] < |acq|
    {
      I.RangesShape(acq, doys, pws, pwe, pused, w);
    }
  }

  /** The compiled window table, read as sequences, is the planned one. */
  lemma TableIsPlanned(ws: array<Date>, we: array<Date>, used: array<bool>, cal: Cal, doys: seq<bool>,
                       startYear: int, startMonth: int, step: int)
    requires DoysCovered(cal, doys)
    requires W.WindowTable(ws, we, used, cal, doys, startYear, startMonth, step)
    ensures ws[..] == PlannedStarts(cal, doys, startYear, startMonth, step, ws.Length)
    ensures we[..] == PlannedEnds(cal, doys, startYear, startMonth, step, ws.Length)
    ensures used[..] == PlannedUsed(cal, doys, startYear, startMonth, step, ws.Length)
  {
  }

  /**
   * clear_sky_observations: the number of windows from the date range and
   * step; the products (their names and the window table) as compile_cso
   * sets them up; the first and last step per window; and the per-pixel
   * statistics. `brickOk[o]` says whether product `o`'s container could be
   * set up. The run fails, with no products, when a quantile name does not
   * fit, when a container fails, or when there are no products; otherwise
   * every product is named and every determined cell holds its value for
   * the adjusted windows and the indexed ranges.
   */
  method ClearSkyObservations(cal: Cal, doys: seq<bool>, c: Config, num: A.Numerics, pct: real -> nat,
                              startYear: int, startMonth: int, endYear: int, endMonth: int, step: int,
                              acq: seq<Date>, msk: seq<seq<bool>>, mask: A.Option<seq<bool>>, nc: nat,
                              brickOk: seq<bool>)
    returns (nprod: nat, names: seq<string>, out: array3?<int>)
    requires WellFormed(c) && |brickOk| == c.nmetrics
    requires 1 <= startMonth <= 12 && 1 <= endMonth <= 12 && 1 <= step <= 12
    requires DoysCovered(cal, doys) && I.DoysOk(acq, doys) && Fits(acq, msk, mask, nc)
    ensures out == null <==>
      (c.nmetrics == 0 || W.Failures(brickOk) > 0 ||
       exists i :: 0 <= i < |c.q| && |QuantileCode(pct(c.q[i]))| >= NameCapacity)
    ensures out == null ==> nprod == 0
    ensures out != null ==>
      fresh(out) && nprod == c.nmetrics && |names| == nprod &&
      out.Length0 == nprod && out.Length2 == nc &&
      out.Length1 == W.NumWindows(MonthIndex(startYear, startMonth), MonthIndex(endYear, endMonth), step)
    ensures out != null ==>
      (forall k :: 0 <= k < 9 && FixedSlots(c)[k] > -1 ==> names[FixedSlots(c)[k]] == FixedCodes[k]) &&
      (forall i :: 0 <= i < |c.qxx| ==> names[c.qxx[i]] == QuantileCode(pct(c.q[i])))
    ensures out != null ==>
      var sc := PlannedScene(cal, doys, startYear, startMonth, step, out.Length1, acq, msk, mask);
      A.SceneOk(sc, out.Length1, nc) &&
      forall o, w, p ::
        0 <= o < out.Length0 && 0 <= w < out.Length1 && 0 <= p < nc && A.Expected(c, num, sc, nc, o, w, p).Some? ==>
          out[o, w, p] == A.Expected(c, num, sc, nc, o, w, p).value
  {
    nprod, out := 0, null;
    var nw := W.CountWindows(startYear, startMonth, endYear, endMonth, step);
    var ok, ws, we, used;
    ok, names, ws, we, used := CompileCso(c, pct, brickOk, cal, doys, startYear, startMonth, step, nw);
    if !ok {
      return;
    }
    var sc := IndexScene(ws, we, used, cal, doys, startYear, startMonth, step, acq, msk, mask, nc);

    // the per-pixel statistics
    nprod := c.nmetrics;
    out := new int[nprod, nw, nc];
    A.ClearSkyStats(out, c, num, sc);
  }
}
