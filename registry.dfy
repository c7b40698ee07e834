/**
 * Statistic registry: which statistics are enabled and the output slot
 * each one writes, and the product name given to every slot.
 */
module Registry {

  /**
   * The statistic configuration. Each fixed statistic holds its output slot,
   * or a negative value when it is disabled; `q` are the requested quantile
   * probabilities and `qxx` their slots; `nmetrics` is the number of output
   * products.
   */
  datatype Config = Config(num: int, min: int, max: int, rng: int, iqr: int,
                           avg: int, std: int, skw: int, krt: int,
                           quantiles: bool, q: seq<real>, qxx: seq<int>, nmetrics: nat)

  /** The fixed statistics' slots, in naming order. */
  function FixedSlots(c: Config): seq<int>
  {
    [c.num, c.min, c.max, c.rng, c.iqr, c.avg, c.std, c.skw, c.krt]
  }

  /**
   * What the configuration reader guarantees: one slot per quantile, every
   * quantile slot and every enabled fixed slot below `nmetrics`, and no two
   * enabled statistics sharing a slot.
   */
  ghost predicate WellFormed(c: Config)
  {
    |c.q| == |c.qxx| &&
    c.num < c.nmetrics && c.min < c.nmetrics && c.max < c.nmetrics && c.rng < c.nmetrics &&
    c.iqr < c.nmetrics && c.avg < c.nmetrics && c.std < c.nmetrics && c.skw < c.nmetrics &&
    c.krt < c.nmetrics &&
    (forall i :: 0 <= i < |c.qxx| ==> 0 <= c.qxx[i] < c.nmetrics) &&
    (forall k, l :: 0 <= k < l < 9 && FixedSlots(c)[k] > -1 ==> FixedSlots(c)[k] != FixedSlots(c)[l]) &&
    (forall k, i :: 0 <= k < 9 && 0 <= i < |c.qxx| && FixedSlots(c)[k] > -1 ==> FixedSlots(c)[k] != c.qxx[i]) &&
    (forall i, j :: 0 <= i < j < |c.qxx| ==> c.qxx[i] != c.qxx[j])
  }

  /** The enabled fixed statistics' slots are below `nmetrics`, apart from each other and from every quantile slot. */
  lemma FixedSlotsApart(c: Config)
    requires WellFormed(c)
    ensures c.num > -1 ==> c.num < c.nmetrics && c.num != c.min && c.num != c.max && c.num != c.rng && c.num != c.iqr && c.num != c.avg && c.num != c.std && c.num != c.skw && c.num != c.krt && c.num !in c.qxx
    ensures c.min > -1 ==> c.min < c.nmetrics && c.min != c.num && c.min != c.max && c.min != c.rng && c.min != c.iqr && c.min != c.avg && c.min != c.std && c.min != c.skw && c.min != c.krt && c.min !in c.qxx
    ensures c.max > -1 ==> c.max < c.nmetrics && c.max != c.num && c.max != c.min && c.max != c.rng && c.max != c.iqr && c.max != c.avg && c.max != c.std && c.max != c.skw && c.max != c.krt && c.max !in c.qxx
    ensures c.rng > -1 ==> c.rng < c.nmetrics && c.rng != c.num && c.rng != c.min && c.rng != c.max && c.rng != c.iqr && c.rng != c.avg && c.rng != c.std && c.rng != c.skw && c.rng != c.krt && c.rng !in c.qxx
    ensures c.iqr > -1 ==> c.iqr < c.nmetrics && c.iqr != c.num && c.iqr != c.min && c.iqr != c.max && c.iqr != c.rng && c.iqr != c.avg && c.iqr != c.std && c.iqr != c.skw && c.iqr != c.krt && c.iqr !in c.qxx
    ensures c.avg > -1 ==> c.avg < c.nmetrics && c.avg != c.num && c.avg != c.min && c.avg != c.max && c.avg != c.rng && c.avg != c.iqr && c.avg != c.std && c.avg != c.skw && c.avg != c.krt && c.avg !in c.qxx
    ensures c.std > -1 ==> c.std < c.nmetrics && c.std != c.num && c.std != c.min && c.std != c.max && c.std != c.rng && c.std != c.iqr && c.std != c.avg && c.std != c.skw && c.std != c.krt && c.std !in c.qxx
    ensures c.skw > -1 ==> c.skw < c.nmetrics && c.skw != c.num && c.skw != c.min && c.skw != c.max && c.skw != c.rng && c.skw != c.iqr && c.skw != c.avg && c.skw != c.std && c.skw != c.krt && c.skw !in c.qxx
    ensures c.krt > -1 ==> c.krt < c.nmetrics && c.krt != c.num && c.krt != c.min && c.krt != c.max && c.krt != c.rng && c.krt != c.iqr && c.krt != c.avg && c.krt != c.std && c.krt != c.skw && c.krt !in c.qxx
  {
    NumApart(c);
    MinApart(c);
    MaxApart(c);
    RngApart(c);
    IqrApart(c);
    AvgApart(c);
    StdApart(c);
    SkwApart(c);
    KrtApart(c);
  }

  /** The `num` slot, when enabled, is below `nmetrics` and apart from every other statistic's slot. */
  lemma NumApart(c: Config)
    requires WellFormed(c)
    ensures c.num > -1 ==> c.num < c.nmetrics && c.num != c.min && c.num != c.max && c.num != c.rng && c.num != c.iqr && c.num != c.avg && c.num != c.std && c.num != c.skw && c.num != c.krt && c.num !in c.qxx
  {
    var fs := FixedSlots(c);
    assert fs[0] == c.num && fs[1] == c.min && fs[2] == c.max && fs[3] == c.rng && fs[4] == c.iqr;
    assert fs[5] == c.avg && fs[6] == c.std && fs[7] == c.skw && fs[8] == c.krt;
    if c.num > -1 {
      assert forall l :: 0 < l < 9 ==> fs[0] != fs[l];
      assert forall i :: 0 <= i < |c.qxx| ==> fs[0] != c.qxx[i];
    }
  }

  /** The `min` slot, when enabled, is below `nmetrics` and apart from every other statistic's slot. */
  lemma MinApart(c: Config)
    requires WellFormed(c)
    ensures c.min > -1 ==> c.min < c.nmetrics && c.min != c.num && c.min != c.max && c.min != c.rng && c.min != c.iqr && c.min != c.avg && c.min != c.std && c.min != c.skw && c.min != c.krt && c.min !in c.qxx
  {
    var fs := FixedSlots(c);
    assert fs[0] == c.num && fs[1] == c.min && fs[2] == c.max && fs[3] == c.rng && fs[4] == c.iqr;
    assert fs[5] == c.avg && fs[6] == c.std && fs[7] == c.skw && fs[8] == c.krt;
    if c.min > -1 {
      assert forall l :: 0 <= l < 1 ==> fs[l] > -1 ==> fs[l] != fs[1];
      assert forall l :: 1 < l < 9 ==> fs[1] != fs[l];
      assert forall i :: 0 <= i < |c.qxx| ==> fs[1] != c.qxx[i];
    }
  }

  /** The `max` slot, when enabled, is below `nmetrics` and apart from every other statistic's slot. */
  lemma MaxApart(c: Config)
    requires WellFormed(c)
    ensures c.max > -1 ==> c.max < c.nmetrics && c.max != c.num && c.max != c.min && c.max != c.rng && c.max != c.iqr && c.max != c.avg && c.max != c.std && c.max != c.skw && c.max != c.krt && c.max !in c.qxx
  {
    var fs := FixedSlots(c);
    assert fs[0] == c.num && fs[1] == c.min && fs[2] == c.max && fs[3] == c.rng && fs[4] == c.iqr;
    assert fs[5] == c.avg && fs[6] == c.std && fs[7] == c.skw && fs[8] == c.krt;
    if c.max > -1 {
      assert forall l :: 0 <= l < 2 ==> fs[l] > -1 ==> fs[l] != fs[2];
      assert forall l :: 2 < l < 9 ==> fs[2] != fs[l];
      assert forall i :: 0 <= i < |c.qxx| ==> fs[2] != c.qxx[i];
    }
  }

  /** The `rng` slot, when enabled, is below `nmetrics` and apart from every other statistic's slot. */
  lemma RngApart(c: Config)
    requires WellFormed(c)
    ensures c.rng > -1 ==> c.rng < c.nmetrics && c.rng != c.num && c.rng != c.min && c.rng != c.max && c.rng != c.iqr && c.rng != c.avg && c.rng != c.std && c.rng != c.skw && c.rng != c.krt && c.rng !in c.qxx
  {
    var fs := FixedSlots(c);
    assert fs[0] == c.num && fs[1] == c.min && fs[2] == c.max && fs[3] == c.rng && fs[4] == c.iqr;
    assert fs[5] == c.avg && fs[6] == c.std && fs[7] == c.skw && fs[8] == c.krt;
    if c.rng > -1 {
      assert forall l :: 0 <= l < 3 ==> fs[l] > -1 ==> fs[l] != fs[3];
      assert forall l :: 3 < l < 9 ==> fs[3] != fs[l];
      assert forall i :: 0 <= i < |c.qxx| ==> fs[3] != c.qxx[i];
    }
  }

  /** The `iqr` slot, when enabled, is below `nmetrics` and apart from every other statistic's slot. */
  lemma IqrApart(c: Config)
    requires WellFormed(c)
    ensures c.iqr > -1 ==> c.iqr < c.nmetrics && c.iqr != c.num && c.iqr != c.min && c.iqr != c.max && c.iqr != c.rng && c.iqr != c.avg && c.iqr != c.std && c.iqr != c.skw && c.iqr != c.krt && c.iqr !in c.qxx
  {
    var fs := FixedSlots(c);
    assert fs[0] == c.num && fs[1] == c.min && fs[2] == c.max && fs[3] == c.rng && fs[4] == c.iqr;
    assert fs[5] == c.avg && fs[6] == c.std && fs[7] == c.skw && fs[8] == c.krt;
    if c.iqr > -1 {
      assert forall l :: 0 <= l < 4 ==> fs[l] > -1 ==> fs[l] != fs[4];
      assert forall l :: 4 < l < 9 ==> fs[4] != fs[l];
      assert forall i :: 0 <= i < |c.qxx| ==> fs[4] != c.qxx[i];
    }
  }

  /** The `avg` slot, when enabled, is below `nmetrics` and apart from every other statistic's slot. */
  lemma AvgApart(c: Config)
    requires WellFormed(c)
    ensures c.avg > -1 ==> c.avg < c.nmetrics && c.avg != c.num && c.avg != c.min && c.avg != c.max && c.avg != c.rng && c.avg != c.iqr && c.avg != c.std && c.avg != c.skw && c.avg != c.krt && c.avg !in c.qxx
  {
    var fs := FixedSlots(c);
    assert fs[0] == c.num && fs[1] == c.min && fs[2] == c.max && fs[3] == c.rng && fs[4] == c.iqr;
    assert fs[5] == c.avg && fs[6] == c.std && fs[7] == c.skw && fs[8] == c.krt;
    if c.avg > -1 {
      assert forall l :: 0 <= l < 5 ==> fs[l] > -1 ==> fs[l] != fs[5];
      assert forall l :: 5 < l < 9 ==> fs[5] != fs[l];
      assert forall i :: 0 <= i < |c.qxx| ==> fs[5] != c.qxx[i];
    }
  }

  /** The `std` slot, when enabled, is below `nmetrics` and apart from every other statistic's slot. */
  lemma StdApart(c: Config)
    requires WellFormed(c)
    ensures c.std > -1 ==> c.std < c.nmetrics && c.std != c.num && c.std != c.min && c.std != c.max && c.std != c.rng && c.std != c.iqr && c.std != c.avg && c.std != c.skw && c.std != c.krt && c.std !in c.qxx
  {
    var fs := FixedSlots(c);
    assert fs[0] == c.num && fs[1] == c.min && fs[2] == c.max && fs[3] == c.rng && fs[4] == c.iqr;
    assert fs[5] == c.avg && fs[6] == c.std && fs[7] == c.skw && fs[8] == c.krt;
    if c.std > -1 {
      assert forall l :: 0 <= l < 6 ==> fs[l] > -1 ==> fs[l] != fs[6];
      assert forall l :: 6 < l < 9 ==> fs[6] != fs[l];
      assert forall i :: 0 <= i < |c.qxx| ==> fs[6] != c.qxx[i];
    }
  }

  /** The `skw` slot, when enabled, is below `nmetrics` and apart from every other statistic's slot. */
  lemma SkwApart(c: Config)
    requires WellFormed(c)
    ensures c.skw > -1 ==> c.skw < c.nmetrics && c.skw != c.num && c.skw != c.min && c.skw != c.max && c.skw != c.rng && c.skw != c.iqr && c.skw != c.avg && c.skw != c.std && c.skw != c.krt && c.skw !in c.qxx
  {
    var fs := FixedSlots(c);
    assert fs[0] == c.num && fs[1] == c.min && fs[2] == c.max && fs[3] == c.rng && fs[4] == c.iqr;
    assert fs[5] == c.avg && fs[6] == c.std && fs[7] == c.skw && fs[8] == c.krt;
    if c.skw > -1 {
      assert forall l :: 0 <= l < 7 ==> fs[l] > -1 ==> fs[l] != fs[7];
      assert forall l :: 7 < l < 9 ==> fs[7] != fs[l];
      assert forall i :: 0 <= i < |c.qxx| ==> fs[7] != c.qxx[i];
    }
  }

  /** The `krt` slot, when enabled, is below `nmetrics` and apart from every other statistic's slot. */
  lemma KrtApart(c: Config)
    requires WellFormed(c)
    ensures c.krt > -1 ==> c.krt < c.nmetrics && c.krt != c.num && c.krt != c.min && c.krt != c.max && c.krt != c.rng && c.krt != c.iqr && c.krt != c.avg && c.krt != c.std && c.krt != c.skw && c.krt !in c.qxx
  {
    var fs := FixedSlots(c);
    assert fs[0] == c.num && fs[1] == c.min && fs[2] == c.max && fs[3] == c.rng && fs[4] == c.iqr;
    assert fs[5] == c.avg && fs[6] == c.std && fs[7] == c.skw && fs[8] == c.krt;
    if c.krt > -1 {
      assert forall l :: 0 <= l < 8 ==> fs[l] > -1 ==> fs[l] != fs[8];
      assert forall i :: 0 <= i < |c.qxx| ==> fs[8] != c.qxx[i];
    }
  }



  /** The product codes of the fixed statistics, in the order of `FixedSlots`. */
  const FixedCodes: seq<string> := ["NUM", "MIN", "MAX", "RNG", "IQR", "AVG", "STD", "SKW", "KRT"]

  /**
   * After the first `m` fixed statistics are named: each enabled one among
   * them carries its code and every slot none of them uses is still empty.
   */
  ghost predicate FixedNamed(c: Config, names: seq<string>, m: nat)
    requires m <= 9
  {
    |names| == c.nmetrics &&
    (forall k :: 0 <= k < m && FixedSlots(c)[k] > -1 ==>
       0 <= FixedSlots(c)[k] < |names| && names[FixedSlots(c)[k]] == FixedCodes[k]) &&
    (forall o :: 0 <= o < c.nmetrics && o !in FixedSlots(c)[..m] ==> names[o] == "")
  }


  /** copy_string into the name of `slot`, done only for an enabled statistic. */
  function CopyName(names: seq<string>, slot: int, code: string): (r: seq<string>)
    requires slot < |names|
    ensures |r| == |names|
  {
    if slot > -1 then names[slot := code] else names
  }

  /** Every fixed statistic's slot lies below `nmetrics`. */
  lemma SlotsBelow(c: Config)
    requires WellFormed(c)
    ensures forall k :: 0 <= k < 9 ==> FixedSlots(c)[k] < c.nmetrics
  {
  }

  /** Naming the next fixed statistic keeps the names given so far. */
  lemma FixedNamedStep(c: Config, names: seq<string>, m: nat)
    requires WellFormed(c) && m < 9 && FixedNamed(c, names, m)
    ensures FixedSlots(c)[m] < c.nmetrics
    ensures FixedNamed(c, CopyName(names, FixedSlots(c)[m], FixedCodes[m]), m + 1)
  {
    SlotsBelow(c);
    var fs := FixedSlots(c);
    var r := CopyName(names, fs[m], FixedCodes[m]);
    assert fs[..m + 1] == fs[..m] + [fs[m]];
    forall k | 0 <= k < m && fs[k] > -1
      ensures r[fs[k]] == FixedCodes[k]
    {
      assert fs[k] != fs[m];
    }
    forall o | 0 <= o < c.nmetrics && o !in fs[..m + 1]
      ensures r[o] == ""
    {
      assert o !in fs[..m];
    }
  }

  // ---------------------------------------------------------------------
  // Product names
  // ---------------------------------------------------------------------

  /** Capacity of a product-name buffer, terminating NUL included. */
  const NameCapacity := 1024

  function DigitChar(d: nat): (ch: char)
    requires d < 10
    ensures '0' <= ch <= '9' && DigitValue(ch) == d
  {
    ('0' as int + d) as char
  }

  function DigitValue(ch: char): nat
  {
    if '0' <= ch <= '9' then (ch as int - '0' as int) else 0
  }

  /** Decimal digits of `n`, most significant first, without leading zeros. */
  function Digits(n: nat): (s: string)
    ensures 1 <= |s|
    ensures n < 10 <==> |s| == 1
    ensures n < 100 ==> |s| <= 2
    ensures forall i :: 0 <= i < |s| ==> '0' <= s[i] <= '9'
  {
    if n < 10 then [DigitChar(n)] else Digits(n / 10) + [DigitChar(n % 10)]
  }

  /** Zero padding to a minimum width of two, as `%02` does. */
  function Pad2(s: string): string
  {
    if |s| < 2 then "0" + s else s
  }

  /** The value of a string of decimal digits. */
  function ParseDigits(s: string): nat
  {
    if s == [] then 0 else ParseDigits(s[..|s| - 1]) * 10 + DigitValue(s[|s| - 1])
  }

  /** The name of a quantile product whose probability rounds to `pct` percent. */
  function QuantileCode(pct: nat): string
  {
    "Q" + Pad2(Digits(pct))
  }

  lemma {:induction false} DigitsRoundTrip(n: nat)
    ensures ParseDigits(Digits(n)) == n
  {
    if n >= 10 {
      DigitsRoundTrip(n / 10);
      var s := Digits(n);
      assert s[..|s| - 1] == Digits(n / 10);
      assert DigitValue(s[|s| - 1]) == n % 10;
      assert ParseDigits(s) == ParseDigits(Digits(n / 10)) * 10 + n % 10;
    }
  }

  lemma {:induction false} LeadingZero(s: string)
    ensures ParseDigits("0" + s) == ParseDigits(s)
    decreases |s|
  {
    if s != [] {
      LeadingZero(s[..|s| - 1]);
      assert ("0" + s)[..|"0" + s| - 1] == "0" + s[..|s| - 1];
    }
  }

  /**
   * A quantile product name is "Q" followed by the percentage in at least
   * two digits, and the percentage is read back from it.
   */
  lemma QuantileCodeRoundTrip(pct: nat)
    ensures var code := QuantileCode(pct);
      code[0] == 'Q' &&
      |code| == (if pct < 10 then 3 else 1 + |Digits(pct)|) &&
      (pct < 100 ==> |code| == 3) &&
      (forall i :: 1 <= i < |code| ==> '0' <= code[i] <= '9') &&
      ParseDigits(code[1..]) == pct
  {
    var code := QuantileCode(pct);
    assert code[1..] == Pad2(Digits(pct));
    DigitsRoundTrip(pct);
    if pct < 10 {
      LeadingZero(Digits(pct));
    }
  }

  /**
   * The naming step of compile_cso: every enabled fixed statistic's slot
   * gets its code, then every quantile's slot gets "Q" and its
   * percentage. `pct` stands for rounding `q * 100` to a whole number the
   * way `%.0f` does. A name longer than the buffer makes the whole step
   * fail (`ok == false`).
   */
  method NameSlots(c: Config, pct: real -> nat) returns (ok: bool, names: seq<string>)
    requires WellFormed(c)
    ensures ok <==> forall i :: 0 <= i < |c.q| ==> |QuantileCode(pct(c.q[i]))| < NameCapacity
    ensures |names| == c.nmetrics
    ensures ok ==> forall k :: 0 <= k < 9 && FixedSlots(c)[k] > -1 ==> names[FixedSlots(c)[k]] == FixedCodes[k]
    ensures ok ==> forall i :: 0 <= i < |c.qxx| ==> names[c.qxx[i]] == QuantileCode(pct(c.q[i]))
    ensures ok ==> forall o :: 0 <= o < c.nmetrics && o !in FixedSlots(c) && o !in c.qxx ==> names[o] == ""
  {
    names := NameFixed(c);
    ghost var fixed := names;
    ok, names := NameQuantiles(Codes(c.q, pct), c.qxx, names);
    if ok {
      assert FixedSlots(c)[..9] == FixedSlots(c);
      forall k | 0 <= k < 9 && FixedSlots(c)[k] > -1
        ensures names[FixedSlots(c)[k]] == FixedCodes[k]
      {
        assert forall i :: 0 <= i < |c.qxx| ==> FixedSlots(c)[k] != c.qxx[i];
        assert FixedSlots(c)[k] !in c.qxx;
        assert names[FixedSlots(c)[k]] == fixed[FixedSlots(c)[k]];
      }
    }
  }

  /**
   * The quantile half of the naming loop: slot `qxx[i]` is named `codes[i]`,
   * and naming stops with failure at the first name that does not fit the
   * name buffer.
   */
  method NameQuantiles(codes: seq<string>, qxx: seq<int>, fixed: seq<string>)
    returns (ok: bool, names: seq<string>)
    requires |codes| == |qxx|
    requires forall i :: 0 <= i < |qxx| ==> 0 <= qxx[i] < |fixed|
    requires forall i, j :: 0 <= i < j < |qxx| ==> qxx[i] != qxx[j]
    ensures ok <==> forall i :: 0 <= i < |codes| ==> |codes[i]| < NameCapacity
    ensures |names| == |fixed|
    ensures ok ==> forall i :: 0 <= i < |qxx| ==> names[qxx[i]] == codes[i]
    ensures ok ==> forall o :: 0 <= o < |fixed| && o !in qxx ==> names[o] == fixed[o]
  {
    names := fixed;
    for i := 0 to |codes|
      invariant |names| == |fixed|
      invariant forall j :: 0 <= j < i ==> |codes[j]| < NameCapacity
      invariant forall j :: 0 <= j < i ==> names[qxx[j]] == codes[j]
      invariant forall o :: 0 <= o < |fixed| && o !in qxx[..i] ==> names[o] == fixed[o]
    {
      if |codes[i]| >= NameCapacity {
        ok := false;
        return;
      }
      ghost var prev := names;
      names := names[qxx[i] := codes[i]];
      assert qxx[..i + 1] == qxx[..i] + [qxx[i]];
      forall j | 0 <= j < i
        ensures names[qxx[j]] == codes[j]
      {
        assert qxx[j] != qxx[i];
        assert names[qxx[j]] == prev[qxx[j]];
      }
    }
    ok := true;
    assert qxx[..|codes|] == qxx;
  }

  /** The names of the quantiles `q`, in order: `QuantileCode` of each rounded percentage. */
  function Codes(q: seq<real>, pct: real -> nat): (codes: seq<string>)
    ensures |codes| == |q|
    ensures forall i :: 0 <= i < |q| ==> codes[i] == QuantileCode(pct(q[i]))
  {
    seq(|q|, i requires 0 <= i < |q| => QuantileCode(pct(q[i])))
  }


  /**
   * The nine conditional copies of the fixed statistics' codes, taken in
   * their order in the source as a loop over `FixedSlots` and `FixedCodes`.
   */
  method NameFixed(c: Config) returns (names: seq<string>)
    requires WellFormed(c)
    ensures FixedNamed(c, names, 9)
  {
    names := seq(c.nmetrics, _ => "");
    for k := 0 to 9
      invariant FixedNamed(c, names, k)
    {
      FixedNamedStep(c, names, k);
      names := CopyName(names, FixedSlots(c)[k], FixedCodes[k]);
    }
  }

}
