/**
 * The client-side estimator: page bytes to grams of CO2e per page view with a
 * four-term energy model, a letter grade and a "cleaner than" percentage.
 * All arithmetic is on exact reals.
 */
module Estimator {
  import opened Types

  const EnergyDc: real := 0.055
  const EnergyNetMixed: real := 0.071
  const EnergyUser: real := 0.080
  const EnergyEmbodied: real := 0.106
  const CiGlobal: real := 494.0
  const AverageCo2PerVisit: real := 0.5
  const BytesPerGb: real := 1073741824.0

  /** Multiplier on the data-centre term only. */
  function GreenFactor(greenHost: bool): (f: real)
    ensures 0.0 < f <= 1.0
    ensures f == 1.0 <==> !greenHost
    ensures greenHost ==> f == 0.3
  {
    if greenHost then 0.3 else 1.0
  }

  /** Grams of CO2e for a transfer of `bytes`: data-centre, network, device and embodied terms. */
  function TotalCo2(bytes: real, greenHost: bool): (r: real)
    ensures bytes == 0.0 ==> r == 0.0
    ensures bytes > 0.0 ==> r > 0.0
    ensures bytes < 0.0 ==> r < 0.0
  {
    var gb := bytes / BytesPerGb;
    var dc := gb * EnergyDc * CiGlobal * GreenFactor(greenHost);
    var net := gb * EnergyNetMixed * CiGlobal;
    var user := gb * EnergyUser * CiGlobal;
    var embodied := gb * EnergyEmbodied * CiGlobal;
    dc + net + user + embodied
  }

  /** The four terms collapse to one linear expression in the byte count. */
  lemma TotalCo2ClosedForm(bytes: real, greenHost: bool)
    ensures TotalCo2(bytes, greenHost) == bytes / BytesPerGb * 494.0 * (0.055 * GreenFactor(greenHost) + 0.071 + 0.080 + 0.106)
  {
  }

  /** More bytes never means less CO2e. */
  lemma TotalCo2Monotone(b1: real, b2: real, greenHost: bool)
    requires b1 <= b2
    ensures TotalCo2(b1, greenHost) <= TotalCo2(b2, greenHost)
  {
    TotalCo2ClosedForm(b1, greenHost);
    TotalCo2ClosedForm(b2, greenHost);
  }

  /** Green hosting never raises the estimate for the same transfer. */
  lemma GreenNeverWorse(bytes: real)
    requires bytes >= 0.0
    ensures TotalCo2(bytes, true) <= TotalCo2(bytes, false)
  {
    TotalCo2ClosedForm(bytes, true);
    TotalCo2ClosedForm(bytes, false);
  }

  /** `Math.round`: the nearest integer, halves rounded up. */
  function Round(x: real): (r: int)
    ensures x - 0.5 < r as real <= x + 0.5
  {
    (x + 0.5).Floor
  }

  /** `cleanerThan` before rounding: 100 less 50 per average visit's CO2e, held to [1, 99]. */
  function CleanerThan(totalCo2: real): (r: real)
    ensures 1.0 <= r <= 99.0
    ensures 100.0 - (totalCo2 / AverageCo2PerVisit) * 50.0 < 1.0 ==> r == 1.0
    ensures 100.0 - (totalCo2 / AverageCo2PerVisit) * 50.0 > 99.0 ==> r == 99.0
    ensures 1.0 <= 100.0 - (totalCo2 / AverageCo2PerVisit) * 50.0 <= 99.0 ==>
            r == 100.0 - (totalCo2 / AverageCo2PerVisit) * 50.0
  {
    var raw := 100.0 - (totalCo2 / AverageCo2PerVisit) * 50.0;
    if raw < 1.0 then 1.0 else if raw > 99.0 then 99.0 else raw
  }

  /** Lower end of a grade's bucket (inclusive). */
  function LowerBound(s: ScoreLetter): real
    requires s != APlus
  {
    match s
    case A => 0.10
    case B => 0.20
    case C => 0.40
    case D => 0.70
    case F => 1.00
  }

  /** Upper end of a grade's bucket (exclusive). */
  function UpperBound(s: ScoreLetter): real
    requires s != F
  {
    match s
    case APlus => 0.10
    case A => 0.20
    case B => 0.40
    case C => 0.70
    case D => 1.00
  }

  /** `co2ToScore`: the grade whose bucket holds the grams; each bucket includes its lower end. */
  function Co2ToScore(co2Grams: real): (r: ScoreLetter)
    ensures r != APlus ==> LowerBound(r) <= co2Grams
    ensures r != F ==> co2Grams < UpperBound(r)
  {
    if co2Grams < 0.10 then APlus
    else if co2Grams < 0.20 then A
    else if co2Grams < 0.40 then B
    else if co2Grams < 0.70 then C
    else if co2Grams < 1.00 then D
    else F
  }

  /** A larger CO2e value never earns a better grade. */
  lemma ScoreMonotone(x: real, y: real)
    requires x <= y
    ensures Rank(Co2ToScore(x)) <= Rank(Co2ToScore(y))
  {
  }

  /** The documented boundary cases: "<" wins the lower bucket. */
  lemma ScoreBoundaries()
    ensures Co2ToScore(0.099) == APlus && Co2ToScore(0.10) == A
    ensures Co2ToScore(0.69) == C && Co2ToScore(0.70) == D
    ensures Co2ToScore(0.0) == APlus && Co2ToScore(1.0) == F
  {
  }

  /** `estimateCO2` for a measured byte count, the page's address and the current time. */
  function Estimate(bytes: real, greenHost: bool, href: string, now: int): (r: BadgeData)
    ensures r.url == href && r.timestamp == now && r.greenHost == greenHost
    ensures r.score == LetterName(Co2ToScore(TotalCo2(bytes, greenHost)))
    ensures (r.co2Grams * 10000.0).Floor as real == r.co2Grams * 10000.0
    ensures -0.00005 < r.co2Grams - TotalCo2(bytes, greenHost) <= 0.00005
    ensures 1.0 <= r.cleanerThan <= 99.0
    ensures (r.cleanerThan * 10.0).Floor as real == r.cleanerThan * 10.0
    ensures -0.05 < r.cleanerThan - CleanerThan(TotalCo2(bytes, greenHost)) <= 0.05
    ensures r.pageWeightKb == Round(bytes / 1024.0) as real
  {
    var total := TotalCo2(bytes, greenHost);
    var cleaner := CleanerThan(total);
    var ct := Round(cleaner * 10.0);
    assert 10 <= ct <= 990;
    BadgeData(
      url := href,
      co2Grams := Round(total * 10000.0) as real / 10000.0,
      score := LetterName(Co2ToScore(total)),
      cleanerThan := ct as real / 10.0,
      pageWeightKb := Round(bytes / 1024.0) as real,
      greenHost := greenHost,
      timestamp := now)
  }

  /** Nothing transferred: zero grams, grade A+, cleaner than 99%. */
  lemma ZeroBytes(greenHost: bool, href: string, now: int)
    ensures Estimate(0.0, greenHost, href, now).co2Grams == 0.0
    ensures Estimate(0.0, greenHost, href, now).score == "A+"
    ensures Estimate(0.0, greenHost, href, now).cleanerThan == 99.0
    ensures Estimate(0.0, greenHost, href, now).pageWeightKb == 0.0
  {
    assert TotalCo2(0.0, greenHost) == 0.0;
  }

  /** A heavier page never gets a better grade from the estimator. */
  lemma EstimateScoreMonotone(b1: real, b2: real, greenHost: bool)
    requires b1 <= b2
    ensures Rank(Co2ToScore(TotalCo2(b1, greenHost))) <= Rank(Co2ToScore(TotalCo2(b2, greenHost)))
  {
    TotalCo2Monotone(b1, b2, greenHost);
    ScoreMonotone(TotalCo2(b1, greenHost), TotalCo2(b2, greenHost));
  }

  /**
   * The grade comes from the unrounded total, so the stored grams can sit in
   * a different bucket: 696308 bytes on ordinary hosting give about 0.099950
   * grams (A+), stored as 0.1, which is the lower end of bucket A.
   */
  lemma RoundedGramsCanLeaveBucket(href: string, now: int)
    ensures Estimate(696308.0, false, href, now).score == "A+"
    ensures Estimate(696308.0, false, href, now).co2Grams == 0.1
    ensures Co2ToScore(Estimate(696308.0, false, href, now).co2Grams) == A
  {
    var total := TotalCo2(696308.0, false);
    TotalCo2ClosedForm(696308.0, false);
    assert 0.09995 < total < 0.1;
  }

  // ---------------------------------------------------------------------
  // Page weight from resource timing
  // ---------------------------------------------------------------------

  /** The two sizes a timing entry reports. */
  datatype ResourceSizes = ResourceSizes(transferSize: nat, encodedBodySize: nat)

  /** What the Performance API reports: navigation entries and resource entries. */
  datatype Timing = Timing(navigation: seq<ResourceSizes>, resources: seq<ResourceSizes>)

  /** `transferSize || encodedBodySize || 0`: the first non-zero size, or 0. */
  function EntryBytes(e: ResourceSizes): (n: nat)
    ensures n == 0 <==> e.transferSize == 0 && e.encodedBodySize == 0
    ensures e.transferSize != 0 ==> n == e.transferSize
    ensures e.transferSize == 0 ==> n == e.encodedBodySize
  {
    if e.transferSize != 0 then e.transferSize else e.encodedBodySize
  }

  /** The `for...of` fold: every entry's bytes added up. */
  function SumBytes(entries: seq<ResourceSizes>): (n: nat)
    ensures |entries| == 0 ==> n == 0
    ensures forall k :: 0 <= k < |entries| ==> EntryBytes(entries[k]) <= n
  {
    if |entries| == 0 then 0 else EntryBytes(entries[0]) + SumBytes(entries[1..])
  }

  /** Adding an entry at the end adds its bytes. */
  lemma {:induction false} SumBytesSnoc(entries: seq<ResourceSizes>, e: ResourceSizes)
    ensures SumBytes(entries + [e]) == SumBytes(entries) + EntryBytes(e)
  {
    if |entries| > 0 {
      assert (entries + [e])[1..] == entries[1..] + [e];
      SumBytesSnoc(entries[1..], e);
    }
  }

  /** The sum is zero exactly when every entry reports no size at all. */
  lemma {:induction false} SumBytesZeroIff(entries: seq<ResourceSizes>)
    ensures SumBytes(entries) == 0 <==> forall k :: 0 <= k < |entries| ==> EntryBytes(entries[k]) == 0
  {
    if |entries| > 0 {
      SumBytesZeroIff(entries[1..]);
      assert forall k :: 1 <= k < |entries| ==> entries[k] == entries[1..][k - 1];
    }
  }

  /** Only the first navigation entry counts, then every resource entry. */
  function MeasuredTotal(t: Timing): (n: nat)
    ensures |t.navigation| > 0 ==> n == EntryBytes(t.navigation[0]) + SumBytes(t.resources)
    ensures n >= SumBytes(t.resources)
    ensures |t.navigation| > 0 ==> n >= EntryBytes(t.navigation[0])
    ensures |t.navigation| == 0 ==> n == SumBytes(t.resources)
  {
    (if |t.navigation| > 0 then EntryBytes(t.navigation[0]) else 0) + SumBytes(t.resources)
  }

  /** Navigation entries after the first are ignored: appending more changes nothing. */
  lemma OnlyFirstNavigationCounts(t: Timing, extra: seq<ResourceSizes>)
    requires |t.navigation| > 0
    ensures MeasuredTotal(Timing(t.navigation + extra, t.resources)) == MeasuredTotal(t)
  {
    assert (t.navigation + extra)[0] == t.navigation[0];
  }

  /**
   * The size guess when timing gives nothing: 1.3 bytes per character of the
   * serialised document, or 500 KiB when the document cannot be read
   * (`html` is `None`).
   */
  function FallbackBytes(html: Option<nat>): (r: real)
    ensures r >= 0.0
    ensures html.Some? ==> r == html.value as real * 1.3
    ensures html.None? ==> r == 500.0 * 1024.0
  {
    match html
    case Some(n) => n as real * 1.3
    case None => 500.0 * 1024.0
  }

  /** `measurePageWeight`: the timing total when the API exists and the total is positive, else the fallback. */
  function PageWeight(timing: Option<Timing>, html: Option<nat>): (r: real)
    ensures r >= 0.0
    ensures timing.None? ==> r == FallbackBytes(html)
    ensures r != FallbackBytes(html) ==> timing.Some? && r == MeasuredTotal(timing.value) as real
  {
    if timing.Some? && MeasuredTotal(timing.value) > 0 then MeasuredTotal(timing.value) as real
    else FallbackBytes(html)
  }

  /**
   * The measured total is zero, so the fallback is used, exactly when the
   * first navigation entry and every resource entry report no size.
   */
  lemma {:induction false} MeasuredZeroIff(t: Timing, html: Option<nat>)
    ensures MeasuredTotal(t) == 0 <==>
            (|t.navigation| > 0 ==> EntryBytes(t.navigation[0]) == 0) &&
            forall k :: 0 <= k < |t.resources| ==> EntryBytes(t.resources[k]) == 0
    ensures MeasuredTotal(t) > 0 ==> PageWeight(Some(t), html) == MeasuredTotal(t) as real
    ensures MeasuredTotal(t) == 0 ==> PageWeight(Some(t), html) == FallbackBytes(html)
  {
    SumBytesZeroIff(t.resources);
  }

  /** `measurePageWeight` with the browser's timing data and document size as inputs. */
  method MeasurePageWeight(timing: Option<Timing>, html: Option<nat>) returns (bytes: real)
    ensures bytes == PageWeight(timing, html)
    ensures bytes >= 0.0
  {
    if timing.Some? {
      var navigation, resources := timing.value.navigation, timing.value.resources;
      var total: nat := 0;
      if |navigation| > 0 {
        total := total + EntryBytes(navigation[0]);
      }
      ghost var navPart := total;
      for j := 0 to |resources|
        invariant total == navPart + SumBytes(resources[..j])
      {
        SumBytesSnoc(resources[..j], resources[j]);
        assert resources[..j + 1] == resources[..j] + [resources[j]];
        total := total + EntryBytes(resources[j]);
      }
      assert resources[..|resources|] == resources;
      if total > 0 {
        return total as real;
      }
    }
    bytes := FallbackBytes(html);
  }

  /** `estimateCO2(greenHost)`: measure, then estimate. */
  method EstimateCO2(greenHost: bool, timing: Option<Timing>, html: Option<nat>, href: string, now: int)
    returns (r: BadgeData)
    ensures r == Estimate(PageWeight(timing, html), greenHost, href, now)
  {
    var bytes := MeasurePageWeight(timing, html);
    r := Estimate(bytes, greenHost, href, now);
  }
}
