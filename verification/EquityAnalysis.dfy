/** The whole analysis of an equity curve: returns, episodes, durations and time under water. */
module EquityAnalysis {
  import opened Equity
  import opened PaperTrading
  import opened Wrappers

  // ----- calculate_returns

  datatype ReturnObservation = ReturnObservation(timestamp: int, value: real)

  predicate IsReturn(points: seq<EquityPoint>, i: nat, r: ReturnObservation)
    requires i + 1 < |points| && points[i].equity > 0.0
  {
    r == ReturnObservation(points[i + 1].time.instant, points[i + 1].equity / points[i].equity - 1.0)
  }

  predicate AreReturns(points: seq<EquityPoint>, rates: seq<ReturnObservation>)
    requires ValidCurve(points)
  {
    |rates| == |points| - 1 && forall i :: 0 <= i < |rates| ==> IsReturn(points, i, rates[i])
  }

  method CalculateReturns(points: seq<EquityPoint>) returns (r: Option<seq<ReturnObservation>>)
    ensures r.Some? <==> ValidCurve(points)
    ensures r.Some? ==> AreReturns(points, r.value)
  {
    var ok := ValidateEquityCurve(points);
    if !ok {
      return None;
    }
    var result := [];
    for i := 0 to |points| - 1
      invariant |result| == i && forall j :: 0 <= j < i ==> IsReturn(points, j, result[j])
    {
      var value := points[i + 1].equity / points[i].equity - 1.0;
      result := result + [ReturnObservation(points[i + 1].time.instant, value)];
    }
    return Some(result);
  }

  /** One plus the return of holding through all of them. */
  function Compounded(rates: seq<ReturnObservation>): real {
    if rates == [] then 1.0
    else Compounded(rates[..|rates| - 1]) * (1.0 + rates[|rates| - 1].value)
  }

  lemma CompoundStep(rates: seq<ReturnObservation>, n: nat)
    requires 0 < n <= |rates|
    ensures Compounded(rates[..n]) == Compounded(rates[..n - 1]) * (1.0 + rates[n - 1].value)
  {
    assert rates[..n][..n - 1] == rates[..n - 1];
  }

  lemma QuotientsChain(a: real, b: real, c: real, x: real, y: real)
    requires a > 0.0 && b > 0.0 && x == b / a && y == c / b
    ensures x * y == c / a
  {
    assert x * a == b && y * b == c;
    assert (x * y) * a == c;
  }

  /** The single returns compound to the return over the curve so far. */
  lemma {:induction false} ReturnsCompound(points: seq<EquityPoint>, rates: seq<ReturnObservation>, n: nat)
    requires ValidCurve(points) && AreReturns(points, rates) && n <= |rates|
    ensures Compounded(rates[..n]) == points[n].equity / points[0].equity
    decreases n
  {
    if n > 0 {
      ReturnsCompound(points, rates, n - 1);
      CompoundStep(rates, n);
      assert IsReturn(points, n - 1, rates[n - 1]);
      QuotientsChain(points[0].equity, points[n - 1].equity, points[n].equity, Compounded(rates[..n - 1]),
                     1.0 + rates[n - 1].value);
    }
  }

  // ----- time under water

  /** How long the first `n` positions below their running peak lasted, each until the next position. */
  ghost function TimeUnderwater(points: seq<EquityPoint>, n: nat): int
    requires n < |points|
  {
    if n == 0 then 0
    else
      TimeUnderwater(points, n - 1)
      + if Underwater(points, n - 1) then points[n].time.instant - points[n - 1].time.instant else 0
  }

  lemma {:induction false} WetStretch(points: seq<EquityPoint>, a: nat, b: nat)
    requires a <= b < |points| && forall i: nat :: a <= i < b ==> Underwater(points, i)
    ensures TimeUnderwater(points, b) == TimeUnderwater(points, a) + points[b].time.instant - points[a].time.instant
    decreases b
  {
    if a < b {
      WetStretch(points, a, b - 1);
    }
  }

  lemma {:induction false} DryStretch(points: seq<EquityPoint>, a: nat, b: nat)
    requires a <= b < |points| && forall i: nat :: a <= i < b ==> !Underwater(points, i)
    ensures TimeUnderwater(points, b) == TimeUnderwater(points, a)
    decreases b
  {
    if a < b {
      DryStretch(points, a, b - 1);
    }
  }

  /** The position where an episode ends: its recovery, or the last one. */
  function Stop(points: seq<EquityPoint>, s: Span): int {
    if s.recovery.Some? then s.recovery.value else |points| - 1
  }

  predicate Fits(points: seq<EquityPoint>, s: Span) {
    s.peak < Stop(points, s) < |points|
  }

  function Duration(points: seq<EquityPoint>, s: Span): int
    requires Fits(points, s)
  {
    points[Stop(points, s)].time.instant - points[s.peak].time.instant
  }

  predicate AllFit(points: seq<EquityPoint>, spans: seq<Span>) {
    forall k :: 0 <= k < |spans| ==> Fits(points, spans[k])
  }

  /** From the first fall of each of the first `n` episodes to its end. */
  ghost function Submerged(points: seq<EquityPoint>, spans: seq<Span>, n: nat): int
    requires AllFit(points, spans) && n <= |spans|
  {
    if n == 0 then 0
    else
      var s := spans[n - 1];
      Submerged(points, spans, n - 1) + points[Stop(points, s)].time.instant - points[s.peak + 1].time.instant
  }

  lemma EpisodesFit(points: seq<EquityPoint>, spans: seq<Span>)
    requires Separate(points, spans)
    ensures AllFit(points, spans)
  {
    forall k | 0 <= k < |spans| ensures Fits(points, spans[k]) {
      assert IsEpisode(points, spans[k]);
    }
  }

  /** Where the episode before the `k`-th ends; the start for the first. */
  function Since(points: seq<EquityPoint>, spans: seq<Span>, k: nat): int
    requires k <= |spans|
  {
    if k == 0 then 0 else Stop(points, spans[k - 1])
  }

  /** Where the `k`-th episode first falls; the last position after them all. */
  function Until(points: seq<EquityPoint>, spans: seq<Span>, k: nat): int
    requires k <= |spans|
  {
    if k == |spans| then |points| - 1 else spans[k].peak + 1
  }

  /** The curve is at its running peak from the end of the episode before the `k`-th to its first fall. */
  ghost predicate DryBefore(points: seq<EquityPoint>, spans: seq<Span>, k: nat)
    requires k <= |spans|
  {
    && 0 <= Since(points, spans, k) <= Until(points, spans, k) < |points|
    && forall i: nat :: Since(points, spans, k) <= i < Until(points, spans, k) ==> !Underwater(points, i)
  }

  /** It is below its running peak from there to its end. */
  ghost predicate WetDuring(points: seq<EquityPoint>, s: Span)
    requires Fits(points, s)
  {
    forall i: nat :: s.peak + 1 <= i < Stop(points, s) ==> Underwater(points, i)
  }

  /** No episode is around a position between two of them. */
  lemma OutsideBetween(points: seq<EquityPoint>, spans: seq<Span>, k: nat, i: nat, l: nat)
    requires Separate(points, spans) && AllFit(points, spans) && k <= |spans| && l < |spans|
    requires Since(points, spans, k) <= i < Until(points, spans, k) < |points|
    ensures !Inside(points, spans[l], i)
  {
    assert Fits(points, spans[l]);
    if l < k {
      assert Fits(points, spans[k - 1]);
      assert l < k - 1 ==> End(points, spans[l]) <= spans[k - 1].peak;
    } else {
      assert k < l ==> End(points, spans[k]) <= spans[l].peak;
    }
  }

  lemma NotInsideIsDry(points: seq<EquityPoint>, spans: seq<Span>, i: nat)
    requires Covers(points, spans, |points|) && i < |points|
    requires forall l: nat :: l < |spans| ==> !Inside(points, spans[l], i)
    ensures !Underwater(points, i)
  {
  }

  lemma InsideIsWet(points: seq<EquityPoint>, spans: seq<Span>, k: nat, i: nat)
    requires Covers(points, spans, |points|) && k < |spans| && i < |points| && Inside(points, spans[k], i)
    ensures Underwater(points, i)
  {
  }

  lemma SinceIsEarlier(points: seq<EquityPoint>, spans: seq<Span>, k: nat)
    requires Separate(points, spans) && AllFit(points, spans) && points != [] && k <= |spans|
    ensures 0 <= Since(points, spans, k) <= Until(points, spans, k) < |points|
  {
    if k < |spans| {
      assert Fits(points, spans[k]);
    }
    if k > 0 {
      assert Fits(points, spans[k - 1]);
      assert k < |spans| ==> spans[k - 1].recovery.Some? && End(points, spans[k - 1]) <= spans[k].peak;
    }
  }

  lemma IsDryBefore(points: seq<EquityPoint>, spans: seq<Span>, k: nat)
    requires Separate(points, spans) && AllFit(points, spans) && Covers(points, spans, |points|)
    requires points != [] && k <= |spans|
    ensures DryBefore(points, spans, k)
  {
    SinceIsEarlier(points, spans, k);
    forall i: nat | Since(points, spans, k) <= i < Until(points, spans, k) ensures !Underwater(points, i) {
      forall l: nat | l < |spans| ensures !Inside(points, spans[l], i) {
        OutsideBetween(points, spans, k, i, l);
      }
      NotInsideIsDry(points, spans, i);
    }
  }

  lemma IsWetDuring(points: seq<EquityPoint>, spans: seq<Span>, k: nat)
    requires Covers(points, spans, |points|) && k < |spans| && Fits(points, spans[k])
    ensures WetDuring(points, spans[k])
  {
    forall i: nat | spans[k].peak + 1 <= i < Stop(points, spans[k]) ensures Underwater(points, i) {
      InsideIsWet(points, spans, k, i);
    }
  }

  /** Dry stretches and episodes alternate. */
  ghost predicate Alternate(points: seq<EquityPoint>, spans: seq<Span>)
    requires AllFit(points, spans)
  {
    && (forall k: nat :: k <= |spans| ==> DryBefore(points, spans, k))
    && (forall k: nat :: k < |spans| ==> WetDuring(points, spans[k]))
  }

  lemma EpisodesAlternate(points: seq<EquityPoint>, spans: seq<Span>)
    requires Separate(points, spans) && AllFit(points, spans) && Covers(points, spans, |points|) && points != []
    ensures Alternate(points, spans)
  {
    forall k: nat | k <= |spans| ensures DryBefore(points, spans, k) {
      IsDryBefore(points, spans, k);
    }
    forall k: nat | k < |spans| ensures WetDuring(points, spans[k]) {
      IsWetDuring(points, spans, k);
    }
  }

  /** Up to the end of the `k`-th episode, the time under water is that of the episodes so far. */
  lemma {:induction false} UnderwaterUpTo(points: seq<EquityPoint>, spans: seq<Span>, k: nat)
    requires AllFit(points, spans) && Alternate(points, spans) && k <= |spans|
    ensures 0 <= Since(points, spans, k) < |points|
    ensures TimeUnderwater(points, Since(points, spans, k)) == Submerged(points, spans, k)
    decreases k
  {
    assert DryBefore(points, spans, k);
    if k > 0 {
      UnderwaterUpTo(points, spans, k - 1);
      assert DryBefore(points, spans, k - 1) && WetDuring(points, spans[k - 1]);
      var s := spans[k - 1];
      DryStretch(points, Since(points, spans, k - 1), s.peak + 1);
      WetStretch(points, s.peak + 1, Stop(points, s));
    }
  }

  lemma AlternatingTime(points: seq<EquityPoint>, spans: seq<Span>)
    requires AllFit(points, spans) && Alternate(points, spans)
    ensures points != [] && TimeUnderwater(points, |points| - 1) == Submerged(points, spans, |spans|)
  {
    assert DryBefore(points, spans, |spans|);
    UnderwaterUpTo(points, spans, |spans|);
    DryStretch(points, Since(points, spans, |spans|), |points| - 1);
  }

  /** The time under water is exactly the time from the first fall of each episode to its end. */
  lemma UnderwaterIsSubmerged(points: seq<EquityPoint>, spans: seq<Span>, episodes: seq<DrawdownEpisode>)
    requires ValidCurve(points) && Accounts(points, spans, episodes)
    ensures AllFit(points, spans)
    ensures TimeUnderwater(points, |points| - 1) == Submerged(points, spans, |spans|)
  {
    EpisodesFit(points, spans);
    EpisodesAlternate(points, spans);
    AlternatingTime(points, spans);
  }

  /** The loop over the drawdown observations. */
  method MeasureUnderwater(points: seq<EquityPoint>, observations: seq<DrawdownObservation>) returns (time: int)
    requires ValidCurve(points) && Observes(points, observations)
    ensures time == TimeUnderwater(points, |points| - 1)
  {
    time := 0;
    for i := 0 to |points| - 1
      invariant time == TimeUnderwater(points, i)
    {
      AtPeakIsZero(points, i);
      assert IsObservation(points, i, observations[i]);
      if observations[i].drawdown > 0.0 {
        time := time + (points[i + 1].time.instant - points[i].time.instant);
      }
    }
  }

  // ----- averages and durations

  function TotalDrawdown(episodes: seq<DrawdownEpisode>): real {
    if episodes == [] then 0.0
    else TotalDrawdown(episodes[..|episodes| - 1]) + episodes[|episodes| - 1].drawdown
  }

  method SumDrawdowns(episodes: seq<DrawdownEpisode>) returns (sum: real)
    ensures sum == TotalDrawdown(episodes)
  {
    sum := 0.0;
    for i := 0 to |episodes|
      invariant sum == TotalDrawdown(episodes[..i])
    {
      assert episodes[..i + 1][..i] == episodes[..i];
      sum := sum + episodes[i].drawdown;
    }
    assert episodes[..|episodes|] == episodes;
  }

  /** The longest of all episodes, an unrecovered one lasting to the end of the curve. */
  ghost predicate IsLongest(points: seq<EquityPoint>, spans: seq<Span>, longest: int)
    requires AllFit(points, spans)
  {
    && (forall k :: 0 <= k < |spans| ==> Duration(points, spans[k]) <= longest)
    && (if spans == [] then longest == 0 else exists k :: 0 <= k < |spans| && Duration(points, spans[k]) == longest)
  }

  lemma DescribedDuration(points: seq<EquityPoint>, spans: seq<Span>, episodes: seq<DrawdownEpisode>, i: nat)
    requires ValidCurve(points) && Describes(points, spans, episodes) && AllFit(points, spans) && i < |spans|
    ensures var e := episodes[i];
      Duration(points, spans[i])
        == if e.total.Some? then e.total.value else points[|points| - 1].time.instant - e.peakTime
  {
  }

  method LongestDuration(points: seq<EquityPoint>, episodes: seq<DrawdownEpisode>, ghost spans: seq<Span>)
    returns (longest: int)
    requires ValidCurve(points) && Describes(points, spans, episodes) && AllFit(points, spans)
    ensures IsLongest(points, spans, longest)
  {
    longest := 0;
    for i := 0 to |episodes|
      invariant forall k :: 0 <= k < i ==> Duration(points, spans[k]) <= longest
      invariant if i == 0 then longest == 0 else exists k :: 0 <= k < i && Duration(points, spans[k]) == longest
    {
      var e := episodes[i];
      var duration := if e.total.Some? then e.total.value else points[|points| - 1].time.instant - e.peakTime;
      DescribedDuration(points, spans, episodes, i);
      if i == 0 || duration > longest {
        longest := duration;
      }
    }
  }

  // ----- analyze_equity

  datatype EquityAnalytics = EquityAnalytics(
    starting: real, ending: real, totalReturn: real, count: nat, rates: seq<ReturnObservation>,
    episodes: seq<DrawdownEpisode>, maximumDrawdown: real, averageDrawdown: real, longest: int,
    percentUnderwater: Option<real>, currentDrawdown: real, recovered: nat, unrecovered: int)

  ghost predicate ReturnsAreRight(points: seq<EquityPoint>, a: EquityAnalytics)
    requires ValidCurve(points)
  {
    && a.starting == points[0].equity && a.ending == points[|points| - 1].equity && a.count == |points|
    && AreReturns(points, a.rates) && Compounded(a.rates) == 1.0 + a.totalReturn
    && a.totalReturn == a.ending / a.starting - 1.0
  }

  ghost predicate DrawdownsAreRight(points: seq<EquityPoint>, a: EquityAnalytics)
    requires ValidCurve(points)
  {
    && IsMaximumDrawdown(points, a.maximumDrawdown) && a.maximumDrawdown == Deepest(a.episodes)
    && IsAverage(a.episodes, a.averageDrawdown)
    && a.currentDrawdown == 1.0 - points[|points| - 1].equity / Peak(points, |points| - 1)
    && (a.currentDrawdown > 0.0 <==> Underwater(points, |points| - 1))
  }

  ghost predicate CountsAreRight(points: seq<EquityPoint>, a: EquityAnalytics) {
    && a.recovered == CountRecovered(a.episodes) && a.recovered + a.unrecovered == |a.episodes|
    && a.unrecovered == if a.currentDrawdown > 0.0 then 1 else 0
  }

  /** `part` in percent of `whole`, if there is a whole. */
  predicate IsPercent(part: int, whole: int, percent: Option<real>) {
    && (percent.None? <==> whole == 0)
    && (percent.Some? ==> percent.value * whole as real == 100.0 * part as real)
  }

  method Percent(part: int, whole: int) returns (r: Option<real>)
    ensures IsPercent(part, whole, r)
  {
    if whole == 0 {
      return None;
    }
    var share := part as real / whole as real;
    assert share * whole as real == part as real;
    return Some(share * 100.0);
  }

  predicate IsAverage(episodes: seq<DrawdownEpisode>, average: real) {
    && average * |episodes| as real == TotalDrawdown(episodes)
    && (episodes == [] ==> average == 0.0)
  }

  method AverageDrawdown(episodes: seq<DrawdownEpisode>) returns (average: real)
    ensures IsAverage(episodes, average)
  {
    var sum := SumDrawdowns(episodes);
    average := if episodes == [] then 0.0 else sum / |episodes| as real;
  }

  lemma {:induction false} TimeIncreases(points: seq<EquityPoint>, i: nat)
    requires ValidCurve(points) && 0 < i < |points|
    ensures points[0].time.instant < points[i].time.instant
    decreases i
  {
    if i > 1 {
      TimeIncreases(points, i - 1);
    }
  }

  lemma ReturnsFollow(points: seq<EquityPoint>, a: EquityAnalytics)
    requires ValidCurve(points) && AreReturns(points, a.rates) && a.count == |points|
    requires a.starting == points[0].equity && a.ending == points[|points| - 1].equity
    requires a.totalReturn == a.ending / a.starting - 1.0
    ensures ReturnsAreRight(points, a)
  {
    ReturnsCompound(points, a.rates, |points| - 1);
    assert a.rates[..|points| - 1] == a.rates;
  }

  lemma DrawdownsFollow(points: seq<EquityPoint>, observations: seq<DrawdownObservation>, spans: seq<Span>,
                        a: EquityAnalytics)
    requires ValidCurve(points) && Observes(points, observations) && Accounts(points, spans, a.episodes)
    requires IsLargest(observations, a.maximumDrawdown)
      && a.currentDrawdown == observations[|points| - 1].drawdown
    requires IsAverage(a.episodes, a.averageDrawdown)
    ensures DrawdownsAreRight(points, a)
  {
    CurrentDrawdown(points, observations);
    MaximumIsOverAllPairs(points, observations, a.maximumDrawdown);
    MaximumIsDeepestEpisode(points, observations, spans, a.episodes, a.maximumDrawdown);
  }

  lemma CountsFollow(points: seq<EquityPoint>, spans: seq<Span>, a: EquityAnalytics)
    requires ValidCurve(points) && Accounts(points, spans, a.episodes) && DrawdownsAreRight(points, a)
    requires a.recovered == CountRecovered(a.episodes) && a.recovered + a.unrecovered == |a.episodes|
    ensures CountsAreRight(points, a)
  {
    RecoveredCount(points, spans, a.episodes);
  }

  function Observed(points: seq<EquityPoint>): int
    requires points != []
  {
    points[|points| - 1].time.instant - points[0].time.instant
  }

  /** The longest episode, and the share of the observed time, in percent, for which episodes have fallen and not
      yet ended. */
  ghost predicate TimesAreRight(points: seq<EquityPoint>, spans: seq<Span>, longest: int, percent: Option<real>)
    requires points != [] && AllFit(points, spans)
  {
    && IsLongest(points, spans, longest) && (Observed(points) == 0 <==> |points| == 1)
    && IsPercent(Submerged(points, spans, |spans|), Observed(points), percent)
  }

  lemma ObservedIsPositive(points: seq<EquityPoint>)
    requires ValidCurve(points)
    ensures Observed(points) == 0 <==> |points| == 1
  {
    if |points| > 1 {
      TimeIncreases(points, |points| - 1);
    }
  }

  method MeasureTimes(points: seq<EquityPoint>, observations: seq<DrawdownObservation>,
                      episodes: seq<DrawdownEpisode>, ghost spans: seq<Span>)
    returns (longest: int, percent: Option<real>)
    requires ValidCurve(points) && Observes(points, observations) && Accounts(points, spans, episodes)
    ensures AllFit(points, spans) && TimesAreRight(points, spans, longest, percent)
  {
    var underwater := MeasureUnderwater(points, observations);
    UnderwaterIsSubmerged(points, spans, episodes);
    longest := LongestDuration(points, episodes, spans);
    percent := Percent(underwater, Observed(points));
    ObservedIsPositive(points);
  }

  /** The whole analysis; None is the ValueError for a malformed curve. */
  method AnalyzeEquity(points: seq<EquityPoint>) returns (r: Option<EquityAnalytics>, ghost spans: seq<Span>)
    ensures r.Some? <==> ValidCurve(points)
    ensures r.Some? ==> ReturnsAreRight(points, r.value) && DrawdownsAreRight(points, r.value)
    ensures r.Some? ==> CountsAreRight(points, r.value) && Accounts(points, spans, r.value.episodes)
    ensures r.Some? ==>
      AllFit(points, spans) && TimesAreRight(points, spans, r.value.longest, r.value.percentUnderwater)
  {
    var rates := CalculateReturns(points);
    var observations := CalculateDrawdownObservations(points);
    var found;
    found, spans := IdentifyDrawdownEpisodes(points);
    if rates.None? || observations.None? || found.None? {
      return None, spans;
    }
    var first, last := points[0], points[|points| - 1];
    var maximum := LargestDrawdown(observations.value);
    var average := AverageDrawdown(found.value);
    var longest, percent := MeasureTimes(points, observations.value, found.value, spans);
    var recovered := CountRecoveredEpisodes(found.value);
    var a := EquityAnalytics(
      first.equity, last.equity, last.equity / first.equity - 1.0, |points|, rates.value, found.value, maximum,
      average, longest, percent, observations.value[|points| - 1].drawdown, recovered, |found.value| - recovered);
    ReturnsFollow(points, a);
    DrawdownsFollow(points, observations.value, spans, a);
    CountsFollow(points, spans, a);
    return Some(a), spans;
  }
}
