/**
 * Window builder: how many windows the analysis period holds, the nominal
 * calendar windows of `step` months, and their narrowing to the allowed
 * days of the year.
 */
module Windows {
  import opened Calendar

  // ---------------------------------------------------------------------
  // Window count
  // ---------------------------------------------------------------------

  /** One step of the month counter: `step` months later, with a year carried past December. */
  function Advance(year: int, month: int, step: int): (ym: (int, int))
    requires 1 <= month <= 12 && 1 <= step <= 12
    ensures 1 <= ym.1 <= 12
    ensures MonthIndex(ym.0, ym.1) == MonthIndex(year, month) + step
  {
    if month + step > 12 then (year + 1, month + step - 12) else (year, month + step)
  }

  /**
   * Reference count of windows: the number of month indices `s`, `s + step`,
   * `s + 2 * step`, ... that lie before month index `e`.
   */
  function NumWindows(s: int, e: int, step: int): nat
    requires step >= 1
    decreases e - s
  {
    if e <= s then 0 else 1 + NumWindows(s + step, e, step)
  }

  lemma MulMonotone(a: int, b: int, c: int)
    requires a <= b && c >= 0
    ensures a * c <= b * c
  {
    assert b * c - a * c == (b - a) * c;
  }

  /** One more `step` in the numerator adds one to the quotient. */
  lemma DivStep(x: int, step: int)
    requires x >= 0 && step >= 1
    ensures (x + step) / step == x / step + 1
  {
    var q, r := x / step, x % step;
    var q', r' := (x + step) / step, (x + step) % step;
    assert x == q * step + r && 0 <= r < step;
    assert x + step == q' * step + r' && 0 <= r' < step;
    var k := q' - q - 1;
    assert k * step == q' * step - q * step - step;
    assert k * step == r - r';
    if k > 0 {
      MulMonotone(1, k, step);
    } else if k < 0 {
      MulMonotone(k, -1, step);
    }
  }

  /** The window count is the month span divided by the step, rounded up. */
  lemma {:induction false} NumWindowsCeiling(s: int, e: int, step: int)
    requires step >= 1
    ensures NumWindows(s, e, step) == if e <= s then 0 else (e - s + step - 1) / step
    decreases e - s
  {
    if e > s {
      NumWindowsCeiling(s + step, e, step);
      if e <= s + step {
        assert step <= e - s + step - 1 < 2 * step;
        DivStep(e - s - 1, step);
        assert (e - s - 1) / step == 0;
      } else {
        DivStep(e - s - 1, step);
      }
    }
  }

  /**
   * The loop of clear_sky_observations that counts the windows: step the
   * (year, month) counter from the start month until it is no longer
   * before the end month.
   */
  method CountWindows(startYear: int, startMonth: int, endYear: int, endMonth: int, step: int)
    returns (nw: nat)
    requires 1 <= startMonth <= 12 && 1 <= endMonth <= 12 && 1 <= step <= 12
    ensures nw == 0 <==> !LexBefore(startYear, startMonth, endYear, endMonth)
    ensures nw == NumWindows(MonthIndex(startYear, startMonth), MonthIndex(endYear, endMonth), step)
    ensures var span := MonthIndex(endYear, endMonth) - MonthIndex(startYear, startMonth);
      nw == if span <= 0 then 0 else (span + step - 1) / step
  {
    ghost var s, e := MonthIndex(startYear, startMonth), MonthIndex(endYear, endMonth);
    nw := 0;
    var year, month := startYear, startMonth;
    LexBeforeIndex(year, month, endYear, endMonth);
    while year < endYear || (year <= endYear && month < endMonth)
      invariant 1 <= month <= 12
      invariant nw + NumWindows(MonthIndex(year, month), e, step) == NumWindows(s, e, step)
      invariant nw > 0 ==> s < e
      invariant LexBefore(year, month, endYear, endMonth) <==> MonthIndex(year, month) < e
      decreases e - MonthIndex(year, month)
    {
      ghost var before := MonthIndex(year, month);
      nw := nw + 1;
      var next := Advance(year, month, step);
      year, month := next.0, next.1;
      LexBeforeIndex(year, month, endYear, endMonth);
    }
    NumWindowsCeiling(s, e, step);
  }

  // ---------------------------------------------------------------------
  // Nominal windows
  // ---------------------------------------------------------------------

  /** Nominal start of window `w`: the first of month `start + w * step`. */
  function NominalStart(cal: Cal, startYear: int, startMonth: int, step: int, w: int): Date
  {
    MonthStart(cal, MonthIndex(startYear, startMonth) + w * step)
  }

  /** Nominal end of window `w` (exclusive): the first of month `start + (w + 1) * step`. */
  function NominalEnd(cal: Cal, startYear: int, startMonth: int, step: int, w: int): Date
  {
    MonthStart(cal, MonthIndex(startYear, startMonth) + (w + 1) * step)
  }

  /**
   * The nominal-window loop of compile_cso: two carried (year, month)
   * counters, `step` months apart, each carried past December before the
   * first of its month is taken.
   */
  method FillNominal(ws: array<Date>, we: array<Date>, cal: Cal, startYear: int, startMonth: int, step: int)
    requires ws.Length == we.Length && ws != we
    requires 1 <= startMonth <= 12 && 1 <= step <= 12
    modifies ws, we
    ensures forall w :: 0 <= w < ws.Length ==>
      ws[w] == NominalStart(cal, startYear, startMonth, step, w) &&
      we[w] == NominalEnd(cal, startYear, startMonth, step, w)
  {
    ghost var s := MonthIndex(startYear, startMonth);
    var yearLo, yearHi := startYear, startYear;
    var monthLo, monthHi := startMonth, startMonth + step;
    var w := 0;
    while w < ws.Length
      invariant 0 <= w <= ws.Length
      invariant 1 <= monthLo <= 24 && 1 <= monthHi <= 24
      invariant MonthIndex(yearLo, monthLo) == s + w * step
      invariant MonthIndex(yearHi, monthHi) == s + (w + 1) * step
      invariant forall v :: 0 <= v < w ==>
        ws[v] == NominalStart(cal, startYear, startMonth, step, v) &&
        we[v] == NominalEnd(cal, startYear, startMonth, step, v)
    {
      if monthLo > 12 { yearLo := yearLo + 1; monthLo := monthLo - 12; }
      if monthHi > 12 { yearHi := yearHi + 1; monthHi := monthHi - 12; }
      IndexSplit(yearLo, monthLo);
      IndexSplit(yearHi, monthHi);
      ghost var lo, hi := NominalStart(cal, startYear, startMonth, step, w), NominalEnd(cal, startYear, startMonth, step, w);
      assert lo == SetDate(cal, yearLo, monthLo) && hi == SetDate(cal, yearHi, monthHi);
      ghost var prevS, prevE := ws[..], we[..];
      ws[w] := SetDate(cal, yearLo, monthLo);
      we[w] := SetDate(cal, yearHi, monthHi);
      forall v | 0 <= v < w + 1
        ensures ws[v] == NominalStart(cal, startYear, startMonth, step, v)
        ensures we[v] == NominalEnd(cal, startYear, startMonth, step, v)
      {
        if v < w {
          assert ws[v] == prevS[v] && we[v] == prevE[v];
        }
      }
      monthLo := monthLo + step;
      monthHi := monthHi + step;
      w := w + 1;
    }
  }

  /** Window `w` ends where window `w + 1` starts, and each spans exactly `step` months. */
  lemma NominalContiguous(cal: Cal, startYear: int, startMonth: int, step: int, w: int)
    ensures NominalEnd(cal, startYear, startMonth, step, w) == NominalStart(cal, startYear, startMonth, step, w + 1)
    ensures NominalEnd(cal, startYear, startMonth, step, w) ==
      MonthStart(cal, MonthIndex(startYear, startMonth) + w * step + step)
  {
    assert (w + 1) * step == w * step + step;
  }

  /** Under an increasing calendar, nominal windows are non-empty and in order. */
  lemma NominalOrdered(cal: Cal, startYear: int, startMonth: int, step: int, v: int, w: int)
    requires Increasing(cal) && step >= 1
    requires v < w
    ensures NominalStart(cal, startYear, startMonth, step, v).ce < NominalEnd(cal, startYear, startMonth, step, v).ce
    ensures NominalEnd(cal, startYear, startMonth, step, v).ce <= NominalStart(cal, startYear, startMonth, step, w).ce
  {
    var s := MonthIndex(startYear, startMonth);
    var a, b, c := s + v * step, s + (v + 1) * step, s + w * step;
    assert b == a + step;
    MulMonotone(v + 1, w, step);
    assert NominalStart(cal, startYear, startMonth, step, v) == MonthStart(cal, a);
    assert NominalEnd(cal, startYear, startMonth, step, v) == MonthStart(cal, b);
    assert NominalStart(cal, startYear, startMonth, step, w) == MonthStart(cal, c);
    MonthStartOrdered(cal, a, b);
    if b < c {
      MonthStartOrdered(cal, b, c);
    }
  }


  // ---------------------------------------------------------------------
  // Day-of-year adjustment
  // ---------------------------------------------------------------------

  /**
   * The DOY_RANGE adjustment of one window: while the window is non-empty
   * and a boundary falls on a disallowed day of the year, move the start
   * one day forward and/or the end one day back.
   */
  function Adjust(cal: Cal, doys: seq<bool>, s: Date, e: Date): (r: (Date, Date))
    requires DoysCovered(cal, doys)
    requires 0 <= s.doy < |doys| && 0 <= e.doy < |doys|
    requires Consistent(cal, s) && Consistent(cal, e)
    decreases e.ce - s.ce
    ensures Consistent(cal, r.0) && Consistent(cal, r.1)
    ensures 0 <= r.0.doy < |doys| && 0 <= r.1.doy < |doys|
  {
    if s.ce < e.ce && (!doys[s.doy] || !doys[e.doy]) then
      var s' := if !doys[s.doy] then SetDateCe(cal, s.ce + 1) else s;
      var e' := if !doys[e.doy] then SetDateCe(cal, e.ce - 1) else e;
      Adjust(cal, doys, s', e')
    else
      (s, e)
  }

  /** What the adjustment guarantees about the window it returns. */
  lemma {:induction false} AdjustFacts(cal: Cal, doys: seq<bool>, s: Date, e: Date)
    requires DoysCovered(cal, doys)
    requires 0 <= s.doy < |doys| && 0 <= e.doy < |doys|
    requires Consistent(cal, s) && Consistent(cal, e)
    decreases e.ce - s.ce
    ensures var r := Adjust(cal, doys, s, e);
      // the start never moves back, the end never moves forward
      s.ce <= r.0.ce && r.1.ce <= e.ce &&
      // a window that is already empty is left alone
      (s.ce >= e.ce ==> r == (s, e)) &&
      // the window collapses by at most one day past empty
      (s.ce <= e.ce + 1 ==> r.0.ce <= r.1.ce + 1) &&
      // afterwards the window is empty or both boundaries are allowed days
      (r.0.ce >= r.1.ce || (doys[r.0.doy] && doys[r.1.doy]))
    // only disallowed days were trimmed off each side
    ensures forall c :: s.ce <= c < Adjust(cal, doys, s, e).0.ce ==> !doys[cal.doyOf(c)]
    ensures forall c :: Adjust(cal, doys, s, e).1.ce < c <= e.ce ==> !doys[cal.doyOf(c)]
  {
    if s.ce < e.ce && (!doys[s.doy] || !doys[e.doy]) {
      var s' := if !doys[s.doy] then SetDateCe(cal, s.ce + 1) else s;
      var e' := if !doys[e.doy] then SetDateCe(cal, e.ce - 1) else e;
      assert s.ce <= s'.ce <= s.ce + 1 && e.ce - 1 <= e'.ce <= e.ce;
      AdjustFacts(cal, doys, s', e');
      var r := Adjust(cal, doys, s', e');
      assert Adjust(cal, doys, s, e) == r;
      forall c | s.ce <= c < r.0.ce
        ensures !doys[cal.doyOf(c)]
      {
        if c < s'.ce {
          assert c == s.ce && !doys[s.doy];
        }
      }
      forall c | r.1.ce < c <= e.ce
        ensures !doys[cal.doyOf(c)]
      {
        if c > e'.ce {
          assert c == e.ce && !doys[e.doy];
        }
      }
    }
  }

  /** A window, once adjusted, is not changed by adjusting it again. */
  lemma AdjustIdempotent(cal: Cal, doys: seq<bool>, s: Date, e: Date)
    requires DoysCovered(cal, doys)
    requires 0 <= s.doy < |doys| && 0 <= e.doy < |doys|
    requires Consistent(cal, s) && Consistent(cal, e)
    ensures var r := Adjust(cal, doys, s, e); Adjust(cal, doys, r.0, r.1) == r
  {
    AdjustFacts(cal, doys, s, e);
  }

  /** The table entries the adjustment loop may change: valid indices of the mask. */
  ghost predicate Adjustable(cal: Cal, doys: seq<bool>, ws: array<Date>, we: array<Date>)
    reads ws, we
  {
    DoysCovered(cal, doys) && ws.Length == we.Length &&
    forall w :: 0 <= w < ws.Length ==>
      0 <= ws[w].doy < |doys| && 0 <= we[w].doy < |doys| &&
      Consistent(cal, ws[w]) && Consistent(cal, we[w])
  }

  /** The adjustment `while` loop on window `w`; the narrowed boundaries are stored back into the table. */
  method NarrowWindow(ws: array<Date>, we: array<Date>, w: int, cal: Cal, doys: seq<bool>)
    requires Adjustable(cal, doys, ws, we) && ws != we && 0 <= w < ws.Length
    modifies ws, we
    ensures Adjustable(cal, doys, ws, we)
    ensures (ws[w], we[w]) == Adjust(cal, doys, old(ws[w]), old(we[w]))
    ensures forall v :: 0 <= v < ws.Length && v != w ==> ws[v] == old(ws[v]) && we[v] == old(we[v])
  {
    var s, e := ws[w], we[w];
    while s.ce < e.ce && (!doys[s.doy] || !doys[e.doy])
      invariant 0 <= s.doy < |doys| && 0 <= e.doy < |doys|
      invariant Consistent(cal, s) && Consistent(cal, e)
      invariant Adjust(cal, doys, s, e) == Adjust(cal, doys, old(ws[w]), old(we[w]))
      decreases e.ce - s.ce
    {
      if !doys[s.doy] { s := SetDateCe(cal, s.ce + 1); }
      if !doys[e.doy] { e := SetDateCe(cal, e.ce - 1); }
    }
    ws[w], we[w] := s, e;
  }

  /**
   * The adjustment loop of compile_cso over all windows: narrow each window
   * in place, then mark it used exactly when it is still non-empty.
   */
  method AdjustWindows(ws: array<Date>, we: array<Date>, used: array<bool>, cal: Cal, doys: seq<bool>)
    requires Adjustable(cal, doys, ws, we) && used.Length == ws.Length && ws != we
    modifies ws, we, used
    ensures forall w :: 0 <= w < ws.Length ==>
      (ws[w], we[w]) == Adjust(cal, doys, old(ws[w]), old(we[w])) &&
      used[w] == (ws[w].ce < we[w].ce)
  {
    for w := 0 to ws.Length
      invariant Adjustable(cal, doys, ws, we)
      invariant forall v :: 0 <= v < w ==>
        (ws[v], we[v]) == Adjust(cal, doys, old(ws[v]), old(we[v])) &&
        used[v] == (ws[v].ce < we[v].ce)
      invariant forall v :: w <= v < ws.Length ==> ws[v] == old(ws[v]) && we[v] == old(we[v])
    {
      NarrowWindow(ws, we, w, cal, doys);
      if ws[w].ce >= we[w].ce {
        used[w] := false;
      } else {
        used[w] := true;
      }
    }
  }

  // ---------------------------------------------------------------------
  // The window table built by compile_cso
  // ---------------------------------------------------------------------

  /** Window `w` after the day-of-year adjustment of its nominal boundaries. */
  function AdjustedWindow(cal: Cal, doys: seq<bool>, startYear: int, startMonth: int, step: int, w: int): (r: (Date, Date))
    requires DoysCovered(cal, doys)
  {
    Adjust(cal, doys, NominalStart(cal, startYear, startMonth, step, w), NominalEnd(cal, startYear, startMonth, step, w))
  }

  /** The window table holds the adjusted windows and their used flags. */
  ghost predicate WindowTable(ws: array<Date>, we: array<Date>, used: array<bool>, cal: Cal, doys: seq<bool>,
                              startYear: int, startMonth: int, step: int)
    requires DoysCovered(cal, doys)
    reads ws, we, used
  {
    ws.Length == we.Length == used.Length &&
    forall w :: 0 <= w < ws.Length ==>
      (ws[w], we[w]) == AdjustedWindow(cal, doys, startYear, startMonth, step, w) &&
      used[w] == (ws[w].ce < we[w].ce)
  }

  /** Number of products whose container could not be set up. */
  function Failures(brickOk: seq<bool>): (n: nat)
    ensures n <= |brickOk|
    ensures n == 0 <==> forall o :: 0 <= o < |brickOk| ==> brickOk[o]
  {
    if brickOk == [] then 0
    else Failures(brickOk[..|brickOk| - 1]) + (if brickOk[|brickOk| - 1] then 0 else 1)
  }

  /**
   * The product loop of compile_cso as far as the window table goes. For
   * every product whose container is set up (`brickOk[o]`) the nominal
   * windows are rebuilt and re-adjusted; for the others an error is
   * counted. The result is the number of errors.
   */
  method CompileWindows(ws: array<Date>, we: array<Date>, used: array<bool>, brickOk: seq<bool>,
                        cal: Cal, doys: seq<bool>, startYear: int, startMonth: int, step: int)
    returns (errors: nat)
    requires ws.Length == we.Length == used.Length && ws != we
    requires 1 <= startMonth <= 12 && 1 <= step <= 12 && DoysCovered(cal, doys)
    modifies ws, we, used
    ensures errors == Failures(brickOk)
    ensures (exists o :: 0 <= o < |brickOk| && brickOk[o]) ==>
      WindowTable(ws, we, used, cal, doys, startYear, startMonth, step)
    ensures (forall o :: 0 <= o < |brickOk| ==> !brickOk[o]) ==>
      ws[..] == old(ws[..]) && we[..] == old(we[..]) && used[..] == old(used[..])
  {
    errors := 0;
    ghost var built := false;
    for o := 0 to |brickOk|
      invariant errors == Failures(brickOk[..o])
      invariant built <==> exists i :: 0 <= i < o && brickOk[i]
      invariant built ==> WindowTable(ws, we, used, cal, doys, startYear, startMonth, step)
      invariant !built ==> ws[..] == old(ws[..]) && we[..] == old(we[..]) && used[..] == old(used[..])
    {
      assert brickOk[..o + 1][..o] == brickOk[..o];
      if !brickOk[o] {
        errors := errors + 1;
      } else {
        FillNominal(ws, we, cal, startYear, startMonth, step);
        AdjustWindows(ws, we, used, cal, doys);
        built := true;
      }
    }
    assert brickOk[..|brickOk|] == brickOk;
  }

  /**
   * Adjusted windows stay in order: a window ends no later than any later
   * window starts. The temporal indexer relies on this.
   */
  lemma AdjustedOrdered(cal: Cal, doys: seq<bool>, startYear: int, startMonth: int, step: int, v: int, w: int)
    requires Increasing(cal) && DoysCovered(cal, doys) && step >= 1
    requires v < w
    ensures AdjustedWindow(cal, doys, startYear, startMonth, step, v).1.ce <=
            AdjustedWindow(cal, doys, startYear, startMonth, step, w).0.ce
  {
    NominalOrdered(cal, startYear, startMonth, step, v, w);
    AdjustFacts(cal, doys, NominalStart(cal, startYear, startMonth, step, v), NominalEnd(cal, startYear, startMonth, step, v));
    AdjustFacts(cal, doys, NominalStart(cal, startYear, startMonth, step, w), NominalEnd(cal, startYear, startMonth, step, w));
  }

  /** An adjusted window is either empty (unused) or a non-empty span of allowed boundary days. */
  lemma AdjustedWindowShape(cal: Cal, doys: seq<bool>, startYear: int, startMonth: int, step: int, w: int)
    requires Increasing(cal) && DoysCovered(cal, doys) && step >= 1
    ensures var r := AdjustedWindow(cal, doys, startYear, startMonth, step, w);
      NominalStart(cal, startYear, startMonth, step, w).ce <= r.0.ce &&
      r.1.ce <= NominalEnd(cal, startYear, startMonth, step, w).ce &&
      r.0.ce <= r.1.ce + 1 &&
      (r.0.ce < r.1.ce ==> doys[r.0.doy] && doys[r.1.doy])
  {
    NominalOrdered(cal, startYear, startMonth, step, w, w + 1);
    AdjustFacts(cal, doys, NominalStart(cal, startYear, startMonth, step, w), NominalEnd(cal, startYear, startMonth, step, w));
  }
}
