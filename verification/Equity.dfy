/** Drawdown analytics of an equity curve: one-pass algorithms and what they mean. */
module Equity {
  import opened Numbers
  import opened PaperTrading
  import opened Wrappers

  predicate ValidCurve(points: seq<EquityPoint>) {
    && points != []
    && (forall i :: 0 <= i < |points| ==> points[i].equity > 0.0)
    && (forall i :: 0 < i < |points| ==> points[i - 1].time.instant < points[i].time.instant)
  }

  /** The validation loop; false is its ValueError. */
  method ValidateEquityCurve(points: seq<EquityPoint>) returns (ok: bool)
    ensures ok <==> ValidCurve(points)
  {
    if points == [] {
      return false;
    }
    var previous: Option<int> := None;
    for i := 0 to |points|
      invariant previous == if i == 0 then None else Some(points[i - 1].time.instant)
      invariant forall k :: 0 <= k < i ==> points[k].equity > 0.0
      invariant forall k :: 0 < k < i ==> points[k - 1].time.instant < points[k].time.instant
    {
      if points[i].equity <= 0.0 {
        return false;
      }
      if previous.Some? && points[i].time.instant <= previous.value {
        return false;
      }
      previous := Some(points[i].time.instant);
    }
    return true;
  }

  /** The largest equity up to and including position `i`. */
  function Peak(points: seq<EquityPoint>, i: nat): real
    requires i < |points|
  {
    if i == 0 then points[0].equity else Max(Peak(points, i - 1), points[i].equity)
  }

  lemma {:induction false} PeakIsMaximum(points: seq<EquityPoint>, i: nat) returns (at: nat)
    requires i < |points|
    ensures at <= i && points[at].equity == Peak(points, i)
    ensures forall j :: 0 <= j <= i ==> points[j].equity <= Peak(points, i)
    decreases i
  {
    at := 0;
    if i > 0 {
      at := PeakIsMaximum(points, i - 1);
      if points[i].equity >= Peak(points, i - 1) {
        at := i;
      }
    }
  }

  /** The loss, as a fraction, from holding between positions `i` and `j`. */
  function Loss(points: seq<EquityPoint>, i: nat, j: nat): real
    requires i < |points| && j < |points| && points[i].equity > 0.0
  {
    1.0 - points[j].equity / points[i].equity
  }

  // ----- calculate_drawdown_observations

  datatype DrawdownObservation = DrawdownObservation(timestamp: int, equity: real, peak: real, drawdown: real)

  ghost predicate IsObservation(points: seq<EquityPoint>, i: nat, o: DrawdownObservation)
    requires i < |points|
  {
    && o.timestamp == points[i].time.instant && o.equity == points[i].equity && o.peak == Peak(points, i)
      && o.peak > 0.0
    && o.drawdown == 1.0 - points[i].equity / Peak(points, i)
  }

  ghost predicate Observes(points: seq<EquityPoint>, observations: seq<DrawdownObservation>) {
    |observations| == |points| && forall i :: 0 <= i < |points| ==> IsObservation(points, i, observations[i])
  }

  method CalculateDrawdownObservations(points: seq<EquityPoint>) returns (r: Option<seq<DrawdownObservation>>)
    ensures r.Some? <==> ValidCurve(points)
    ensures r.Some? ==> Observes(points, r.value)
  {
    var ok := ValidateEquityCurve(points);
    if !ok {
      return None;
    }
    var peak := points[0].equity;
    var result := [];
    for i := 0 to |points|
      invariant |result| == i && peak > 0.0
      invariant peak == if i == 0 then points[0].equity else Peak(points, i - 1)
      invariant forall j :: 0 <= j < i ==> IsObservation(points, j, result[j])
    {
      peak := Max(peak, points[i].equity);
      var loss := 1.0 - points[i].equity / peak;
      result := result + [DrawdownObservation(points[i].time.instant, points[i].equity, peak, loss)];
    }
    return Some(result);
  }

  lemma QuotientMonotone(x: real, a: real, b: real)
    requires x > 0.0 && 0.0 < a <= b
    ensures 1.0 - x / a <= 1.0 - x / b
  {
    var u, v := x / a, x / b;
    assert u * a == x && v * b == x;
    assert (u - v) * a == v * (b - a);
    Sign(u - v, a);
  }

  /** A positive factor does not change a sign. */
  lemma Sign(y: real, a: real)
    requires a > 0.0
    ensures (y * a >= 0.0 <==> y >= 0.0) && (y * a > 0.0 <==> y > 0.0)
  {
  }

  /** The drawdown at `j` is the worst loss of any earlier entry held until `j`, and some entry attains it. */
  lemma DrawdownIsWorstEntry(points: seq<EquityPoint>, j: nat) returns (entry: nat)
    requires ValidCurve(points) && j < |points|
    ensures entry <= j && Loss(points, entry, j) == 1.0 - points[j].equity / Peak(points, j)
    ensures forall i: nat :: i <= j ==> Loss(points, i, j) <= 1.0 - points[j].equity / Peak(points, j)
  {
    entry := PeakIsMaximum(points, j);
    forall i: nat | i <= j ensures Loss(points, i, j) <= 1.0 - points[j].equity / Peak(points, j) {
      QuotientMonotone(points[j].equity, points[i].equity, Peak(points, j));
    }
  }

  /** `m` is the largest loss over all pairs of an earlier and a later position. */
  ghost predicate IsMaximumDrawdown(points: seq<EquityPoint>, m: real)
    requires forall i :: 0 <= i < |points| ==> points[i].equity > 0.0
  {
    && (forall i: nat, j: nat :: i <= j < |points| ==> Loss(points, i, j) <= m)
    && (exists i: nat, j: nat :: i <= j < |points| && Loss(points, i, j) == m)
  }

  // ----- identify_drawdown_episodes

  datatype DrawdownEpisode = DrawdownEpisode(
    peakTime: int, troughTime: int, recoveryTime: Option<int>, peakEquity: real, troughEquity: real, drawdown: real,
    decline: int, recovery: Option<int>, total: Option<int>)

  function Episode(peak: EquityPoint, trough: EquityPoint, recovery: Option<EquityPoint>): DrawdownEpisode
    requires peak.equity > 0.0
  {
    DrawdownEpisode(
      peak.time.instant, trough.time.instant, if recovery.Some? then Some(recovery.value.time.instant) else None,
      peak.equity, trough.equity, 1.0 - trough.equity / peak.equity,
      trough.time.instant - peak.time.instant,
      if recovery.Some? then Some(recovery.value.time.instant - trough.time.instant) else None,
      if recovery.Some? then Some(recovery.value.time.instant - peak.time.instant) else None)
  }

  /** The positions of an episode's peak, trough and recovery. */
  datatype Span = Span(peak: nat, trough: nat, recovery: Option<nat>)

  function End(points: seq<EquityPoint>, s: Span): nat {
    if s.recovery.Some? then s.recovery.value else |points|
  }

  /** From the running peak, the curve stays strictly below it until it first regains it (or the data end);
      the trough is the first lowest point in between. */
  ghost predicate IsEpisode(points: seq<EquityPoint>, s: Span) {
    && s.peak < s.trough < End(points, s) <= |points|
    && points[s.peak].equity == Peak(points, s.peak)
    && (forall j :: s.peak < j < End(points, s) ==> points[s.trough].equity <= points[j].equity < points[s.peak].equity)
    && (forall j :: s.peak < j < s.trough ==> points[s.trough].equity < points[j].equity)
    && (s.recovery.Some? ==> s.recovery.value < |points| && points[s.recovery.value].equity >= points[s.peak].equity)
  }

  ghost predicate Underwater(points: seq<EquityPoint>, j: nat)
    requires j < |points|
  {
    points[j].equity < Peak(points, j)
  }

  ghost predicate Inside(points: seq<EquityPoint>, s: Span, j: nat) {
    s.peak < j < End(points, s)
  }

  /** Genuine episodes, in order and apart, all but the last recovered. */
  ghost predicate Separate(points: seq<EquityPoint>, spans: seq<Span>) {
    && (forall k :: 0 <= k < |spans| ==> IsEpisode(points, spans[k]))
    && (forall k :: 0 <= k < |spans| - 1 ==> spans[k].recovery.Some?)
    && (forall k, l :: 0 <= k < l < |spans| ==> End(points, spans[k]) <= spans[l].peak)
  }

  /** Which positions below `n` the spans account for. */
  ghost predicate Covers(points: seq<EquityPoint>, spans: seq<Span>, n: nat)
    requires n <= |points|
  {
    forall j: nat :: j < n ==> (Underwater(points, j) <==> exists k :: 0 <= k < |spans| && Inside(points, spans[k], j))
  }

  ghost predicate Describes(points: seq<EquityPoint>, spans: seq<Span>, episodes: seq<DrawdownEpisode>) {
    |episodes| == |spans| && forall k :: 0 <= k < |spans| ==>
      && spans[k].peak < |points| && spans[k].trough < |points| && points[spans[k].peak].equity > 0.0
      && (spans[k].recovery.Some? ==> spans[k].recovery.value < |points|)
      && episodes[k] == EpisodeAt(points, spans[k])
  }

  /** While the curve stays below a running peak, that remains the running peak. */
  lemma {:induction false} UnderPeak(points: seq<EquityPoint>, p: nat, i: nat)
    requires p < i <= |points| && points[p].equity == Peak(points, p)
    requires forall j :: p < j < i ==> points[j].equity < points[p].equity
    ensures forall j :: p <= j < i ==> Peak(points, j) == points[p].equity
    decreases i
  {
    if i - 1 > p {
      UnderPeak(points, p, i - 1);
    }
  }

  lemma CoverStep(points: seq<EquityPoint>, spans: seq<Span>, p: nat)
    requires p + 1 < |points| && Covers(points, spans, p + 1) && points[p + 1].equity >= Peak(points, p)
    requires forall k :: 0 <= k < |spans| ==> End(points, spans[k]) <= p
    ensures Covers(points, spans, p + 2)
  {
  }

  lemma CoverEpisode(points: seq<EquityPoint>, spans: seq<Span>, s: Span, n: nat)
    requires s.peak < |points| && Covers(points, spans, s.peak + 1) && s.peak < n <= |points|
    requires forall k :: 0 <= k < |spans| ==> End(points, spans[k]) <= s.peak
    requires n == if s.recovery.Some? then s.recovery.value + 1 else |points|
    requires forall j :: s.peak < j < End(points, s) ==> points[j].equity < points[s.peak].equity == Peak(points, j)
    requires s.recovery.Some? ==>
      s.peak < s.recovery.value && points[s.recovery.value].equity == Peak(points, s.recovery.value)
    ensures Covers(points, spans + [s], n)
  {
    var all := spans + [s];
    forall j: nat | j < n ensures Underwater(points, j) <==> exists k :: 0 <= k < |all| && Inside(points, all[k], j) {
      if j <= s.peak {
        assert forall k :: 0 <= k < |spans| ==> all[k] == spans[k];
      } else {
        assert all[|spans|] == s;
        assert Inside(points, s, j) <==> j < End(points, s);
      }
    }
  }

  /** Since the candidate peak at `p` the curve has not fallen, or has stayed below it with its trough at `t`. */
  ghost predicate Falling(points: seq<EquityPoint>, i: nat, p: nat, t: Option<nat>) {
    && p < i <= |points| && points[p].equity == Peak(points, p) == Peak(points, i - 1)
    && (t.None? ==> p == i - 1)
    && (t.Some? ==>
          && p < t.value < i
          && (forall j :: p < j < i ==> points[t.value].equity <= points[j].equity < points[p].equity)
          && (forall j :: p < j < t.value ==> points[t.value].equity < points[j].equity))
  }

  /** Complete episodes, all up to position `p`. */
  ghost predicate Recorded(points: seq<EquityPoint>, p: nat, spans: seq<Span>) {
    && p < |points|
    && (forall k :: 0 <= k < |spans| ==> spans[k].recovery.Some? && End(points, spans[k]) <= p)
    && Separate(points, spans) && Covers(points, spans, p + 1)
  }

  /** What the loop knows before it looks at position `i`: the candidate peak, the trough since then if the
      curve has fallen, and the episodes that are complete. */
  ghost predicate Tracking(points: seq<EquityPoint>, i: nat, p: nat, t: Option<nat>, spans: seq<Span>) {
    Falling(points, i, p, t) && Recorded(points, p, spans)
  }

  lemma TrackPeak(points: seq<EquityPoint>, i: nat, p: nat, spans: seq<Span>)
    requires Tracking(points, i, p, None, spans) && i < |points| && points[i].equity >= points[p].equity
    ensures Tracking(points, i + 1, i, None, spans)
  {
    CoverStep(points, spans, p);
  }

  /** The first fall, a deeper fall, and a partial rise. */
  lemma TrackBelow(points: seq<EquityPoint>, i: nat, p: nat, t: Option<nat>, spans: seq<Span>)
    requires Tracking(points, i, p, t, spans) && i < |points| && points[i].equity < points[p].equity
    ensures Tracking(points, i + 1, p, if t.None? || points[i].equity < points[t.value].equity then Some(i) else t,
                     spans)
  {
  }

  lemma SeparateAppend(points: seq<EquityPoint>, spans: seq<Span>, s: Span)
    requires Separate(points, spans) && IsEpisode(points, s)
    requires forall k :: 0 <= k < |spans| ==> spans[k].recovery.Some? && End(points, spans[k]) <= s.peak
    ensures Separate(points, spans + [s])
  {
  }

  lemma DescribeAppend(points: seq<EquityPoint>, spans: seq<Span>, episodes: seq<DrawdownEpisode>, s: Span)
    requires Describes(points, spans, episodes) && IsEpisode(points, s) && points[s.peak].equity > 0.0
    ensures Describes(points, spans + [s], episodes + [EpisodeAt(points, s)])
  {
  }

  function EpisodeAt(points: seq<EquityPoint>, s: Span): DrawdownEpisode
    requires s.peak < |points| && s.trough < |points| && points[s.peak].equity > 0.0
    requires s.recovery.Some? ==> s.recovery.value < |points|
  {
    var recovered := if s.recovery.Some? then Some(points[s.recovery.value].time.instant) else None;
    DrawdownEpisode(
      points[s.peak].time.instant, points[s.trough].time.instant, recovered,
      points[s.peak].equity, points[s.trough].equity, Loss(points, s.peak, s.trough),
      points[s.trough].time.instant - points[s.peak].time.instant,
      if recovered.Some? then Some(recovered.value - points[s.trough].time.instant) else None,
      if recovered.Some? then Some(recovered.value - points[s.peak].time.instant) else None)
  }

  lemma EpisodeIsAt(points: seq<EquityPoint>, s: Span)
    requires s.peak < |points| && s.trough < |points| && points[s.peak].equity > 0.0
    requires s.recovery.Some? ==> s.recovery.value < |points|
    ensures Episode(points[s.peak], points[s.trough],
                    if s.recovery.Some? then Some(points[s.recovery.value]) else None)
         == EpisodeAt(points, s)
  {
  }

  lemma RecoveredTracking(points: seq<EquityPoint>, i: nat, p: nat, t: nat, spans: seq<Span>)
    requires Tracking(points, i, p, Some(t), spans) && i < |points| && points[i].equity >= points[p].equity > 0.0
    ensures Tracking(points, i + 1, i, None, spans + [Span(p, t, Some(i))])
  {
    UnderPeak(points, p, i);
    SeparateAppend(points, spans, Span(p, t, Some(i)));
    CoverEpisode(points, spans, Span(p, t, Some(i)), i + 1);
  }

  lemma TrackRecovery(points: seq<EquityPoint>, i: nat, p: nat, t: nat, spans: seq<Span>,
                      episodes: seq<DrawdownEpisode>)
    requires Tracking(points, i, p, Some(t), spans) && i < |points| && points[i].equity >= points[p].equity > 0.0
    requires Describes(points, spans, episodes)
    ensures Tracking(points, i + 1, i, None, spans + [Span(p, t, Some(i))])
    ensures Describes(points, spans + [Span(p, t, Some(i))],
                      episodes + [Episode(points[p], points[t], Some(points[i]))])
  {
    UnderPeak(points, p, i);
    RecoveredTracking(points, i, p, t, spans);
    DescribeAppend(points, spans, episodes, Span(p, t, Some(i)));
    EpisodeIsAt(points, Span(p, t, Some(i)));
  }

  lemma TrackEnd(points: seq<EquityPoint>, p: nat, t: nat, spans: seq<Span>, episodes: seq<DrawdownEpisode>)
    requires Tracking(points, |points|, p, Some(t), spans) && points[p].equity > 0.0
    requires Describes(points, spans, episodes)
    ensures Accounts(points, spans + [Span(p, t, None)], episodes + [Episode(points[p], points[t], None)])
  {
    UnderPeak(points, p, |points|);
    SeparateAppend(points, spans, Span(p, t, None));
    CoverEpisode(points, spans, Span(p, t, None), |points|);
    DescribeAppend(points, spans, episodes, Span(p, t, None));
    EpisodeIsAt(points, Span(p, t, None));
  }

  /** The reported episodes are the episodes of the curve: genuine, apart, in order, and covering exactly the
      positions below the running peak. */
  ghost predicate Accounts(points: seq<EquityPoint>, spans: seq<Span>, episodes: seq<DrawdownEpisode>) {
    Describes(points, spans, episodes) && Separate(points, spans) && Covers(points, spans, |points|)
  }

  lemma TrackStart(points: seq<EquityPoint>)
    requires points != []
    ensures Tracking(points, 1, 0, None, []) && Describes(points, [], [])
  {
  }

  lemma TrackDone(points: seq<EquityPoint>, p: nat, spans: seq<Span>, episodes: seq<DrawdownEpisode>)
    requires points != [] && Tracking(points, |points|, p, None, spans) && Describes(points, spans, episodes)
    ensures Accounts(points, spans, episodes)
  {
  }

  /** One pass over the curve; None is the ValueError for a malformed curve. */
  method IdentifyDrawdownEpisodes(points: seq<EquityPoint>)
    returns (r: Option<seq<DrawdownEpisode>>, ghost spans: seq<Span>)
    ensures r.Some? <==> ValidCurve(points)
    ensures r.Some? ==> Accounts(points, spans, r.value)
  {
    spans := [];
    var ok := ValidateEquityCurve(points);
    if !ok {
      return None, spans;
    }
    var peakPoint := points[0];
    var trough: Option<EquityPoint> := None;
    var episodes := [];
    ghost var p: nat := 0;
    ghost var t: Option<nat> := None;
    TrackStart(points);
    for i := 1 to |points|
      invariant Tracking(points, i, p, t, spans) && Describes(points, spans, episodes)
      invariant peakPoint == points[p] && trough == if t.Some? then Some(points[t.value]) else None
    {
      if trough.None? {
        if points[i].equity >= peakPoint.equity {
          TrackPeak(points, i, p, spans);
          peakPoint, p := points[i], i;
        } else {
          TrackBelow(points, i, p, t, spans);
          trough, t := Some(points[i]), Some(i);
        }
      } else if points[i].equity < trough.value.equity {
        TrackBelow(points, i, p, t, spans);
        trough, t := Some(points[i]), Some(i);
      } else if points[i].equity >= peakPoint.equity {
        TrackRecovery(points, i, p, t.value, spans, episodes);
        episodes := episodes + [Episode(peakPoint, trough.value, Some(points[i]))];
        spans := spans + [Span(p, t.value, Some(i))];
        peakPoint, p := points[i], i;
        trough, t := None, None;
      } else {
        TrackBelow(points, i, p, t, spans);
      }
    }
    if trough.Some? {
      TrackEnd(points, p, t.value, spans, episodes);
      episodes := episodes + [Episode(peakPoint, trough.value, None)];
      spans := spans + [Span(p, t.value, None)];
    } else {
      TrackDone(points, p, spans, episodes);
    }
    return Some(episodes), spans;
  }

  // ----- analyze_equity

  /** The observation of an underwater position is no deeper than the episode around it, which bottoms out in
      an observation of its own. */
  lemma EpisodeBoundsObservation(points: seq<EquityPoint>, s: Span, j: nat)
    requires ValidCurve(points) && IsEpisode(points, s) && Inside(points, s, j)
    ensures 1.0 - points[j].equity / Peak(points, j) <= Loss(points, s.peak, s.trough)
    ensures Loss(points, s.peak, s.trough) == 1.0 - points[s.trough].equity / Peak(points, s.trough)
  {
    UnderPeak(points, s.peak, End(points, s));
    var peak := points[s.peak].equity;
    LossOrder(peak, points[s.trough].equity, points[j].equity);
  }

  lemma LossOrder(peak: real, low: real, high: real)
    requires peak > 0.0 && low <= high
    ensures 1.0 - high / peak <= 1.0 - low / peak
  {
    assert (high / peak) * peak == high && (low / peak) * peak == low;
    assert (high / peak - low / peak) * peak == high - low;
    Sign(high / peak - low / peak, peak);
  }

  function Deepest(episodes: seq<DrawdownEpisode>): real {
    if episodes == [] then 0.0 else Max(Deepest(episodes[..|episodes| - 1]), episodes[|episodes| - 1].drawdown)
  }

  lemma {:induction false} DeepestIsMaximum(episodes: seq<DrawdownEpisode>)
    ensures forall k :: 0 <= k < |episodes| ==> episodes[k].drawdown <= Deepest(episodes)
    ensures Deepest(episodes) == 0.0 || exists k :: 0 <= k < |episodes| && episodes[k].drawdown == Deepest(episodes)
    decreases |episodes|
  {
    if episodes != [] {
      var init := episodes[..|episodes| - 1];
      DeepestIsMaximum(init);
      if Deepest(episodes) == Deepest(init) && Deepest(init) != 0.0 {
        var k :| 0 <= k < |init| && init[k].drawdown == Deepest(init);
        assert episodes[k].drawdown == Deepest(episodes);
      }
    }
  }

  lemma AtPeakIsZero(points: seq<EquityPoint>, j: nat)
    requires ValidCurve(points) && j < |points|
    ensures Peak(points, j) > 0.0 && Peak(points, j) >= points[j].equity
    ensures 1.0 - points[j].equity / Peak(points, j) >= 0.0
    ensures 1.0 - points[j].equity / Peak(points, j) > 0.0 <==> Underwater(points, j)
  {
    var at := PeakIsMaximum(points, j);
    ShareSign(Peak(points, j), points[j].equity);
  }

  lemma ShareSign(peak: real, x: real)
    requires peak > 0.0
    ensures (1.0 - x / peak >= 0.0 <==> x <= peak) && (1.0 - x / peak > 0.0 <==> x < peak)
  {
    var share := x / peak;
    assert share * peak == x;
    assert (1.0 - share) * peak == peak - x;
    Sign(1.0 - share, peak);
  }

  lemma {:induction false} DeepestIsNonnegative(episodes: seq<DrawdownEpisode>)
    ensures Deepest(episodes) >= 0.0
    decreases |episodes|
  {
    if episodes != [] {
      DeepestIsNonnegative(episodes[..|episodes| - 1]);
    }
  }

  /** `m` is the largest of the observed drawdowns. */
  ghost predicate IsLargest(observations: seq<DrawdownObservation>, m: real) {
    && (forall i :: 0 <= i < |observations| ==> observations[i].drawdown <= m)
    && (exists i :: 0 <= i < |observations| && observations[i].drawdown == m)
  }

  /** No position is deeper than the deepest episode. */
  lemma ObservationWithinEpisodes(points: seq<EquityPoint>, spans: seq<Span>, episodes: seq<DrawdownEpisode>, j: nat)
    requires ValidCurve(points) && Accounts(points, spans, episodes) && j < |points|
    ensures Peak(points, j) > 0.0 && 1.0 - points[j].equity / Peak(points, j) <= Deepest(episodes)
  {
    AtPeakIsZero(points, j);
    DeepestIsMaximum(episodes);
    DeepestIsNonnegative(episodes);
    if Underwater(points, j) {
      var k :| 0 <= k < |spans| && Inside(points, spans[k], j);
      EpisodeBoundsObservation(points, spans[k], j);
      assert episodes[k].drawdown <= Deepest(episodes);
    }
  }

  /** The largest observed drawdown is the deepest episode, or zero when the curve never falls. */
  lemma MaximumIsDeepestEpisode(points: seq<EquityPoint>, observations: seq<DrawdownObservation>,
                                spans: seq<Span>, episodes: seq<DrawdownEpisode>, m: real)
    requires ValidCurve(points) && Observes(points, observations) && Accounts(points, spans, episodes)
    requires IsLargest(observations, m)
    ensures m == Deepest(episodes)
  {
    var i :| 0 <= i < |observations| && observations[i].drawdown == m;
    assert IsObservation(points, i, observations[i]);
    ObservationWithinEpisodes(points, spans, episodes, i);
    DeepestIsMaximum(episodes);
    if Deepest(episodes) != 0.0 {
      var k :| 0 <= k < |episodes| && episodes[k].drawdown == Deepest(episodes);
      assert IsEpisode(points, spans[k]) && Inside(points, spans[k], spans[k].trough);
      EpisodeBoundsObservation(points, spans[k], spans[k].trough);
      assert IsObservation(points, spans[k].trough, observations[spans[k].trough]);
    } else {
      AtPeakIsZero(points, i);
    }
  }

  /** The one-pass maximum equals the largest loss over all pairs of an earlier and a later position. */
  lemma MaximumIsOverAllPairs(points: seq<EquityPoint>, observations: seq<DrawdownObservation>, m: real)
    requires ValidCurve(points) && Observes(points, observations) && IsLargest(observations, m)
    ensures IsMaximumDrawdown(points, m)
  {
    forall i: nat, j: nat | i <= j < |points| ensures Loss(points, i, j) <= m {
      var entry := DrawdownIsWorstEntry(points, j);
      assert IsObservation(points, j, observations[j]);
    }
    var j :| 0 <= j < |observations| && observations[j].drawdown == m;
    assert IsObservation(points, j, observations[j]);
    var entry := DrawdownIsWorstEntry(points, j);
    assert entry <= j < |points| && Loss(points, entry, j) == m;
  }

  /** An unrecovered episode can only be the last, and there is one exactly when the data end below the peak. */
  lemma UnrecoveredIffCurrentDrawdown(points: seq<EquityPoint>, spans: seq<Span>, episodes: seq<DrawdownEpisode>,
                                      k: nat)
    requires ValidCurve(points) && Accounts(points, spans, episodes) && k < |episodes|
    ensures episodes[k].recoveryTime.None? <==> k == |episodes| - 1 && Underwater(points, |points| - 1)
  {
    var last := |points| - 1;
    assert IsEpisode(points, spans[k]);
    if k == |spans| - 1 {
      if Underwater(points, last) {
        var l :| 0 <= l < |spans| && Inside(points, spans[l], last);
        assert IsEpisode(points, spans[l]);
      } else {
        assert !Inside(points, spans[k], last);
      }
    }
  }

  function CountRecovered(episodes: seq<DrawdownEpisode>): nat {
    if episodes == [] then 0
    else CountRecovered(episodes[..|episodes| - 1]) + if episodes[|episodes| - 1].recoveryTime.Some? then 1 else 0
  }

  lemma {:induction false} AllRecovered(episodes: seq<DrawdownEpisode>)
    requires forall k :: 0 <= k < |episodes| ==> episodes[k].recoveryTime.Some?
    ensures CountRecovered(episodes) == |episodes|
    decreases |episodes|
  {
    if episodes != [] {
      AllRecovered(episodes[..|episodes| - 1]);
    }
  }

  /** The last observation tells whether the curve ends below its peak, and by how much. */
  lemma CurrentDrawdown(points: seq<EquityPoint>, observations: seq<DrawdownObservation>)
    requires ValidCurve(points) && Observes(points, observations)
    ensures var last := |points| - 1;
      && observations[last].drawdown == 1.0 - points[last].equity / Peak(points, last)
      && (observations[last].drawdown > 0.0 <==> Underwater(points, last))
  {
    AtPeakIsZero(points, |points| - 1);
    assert IsObservation(points, |points| - 1, observations[|points| - 1]);
  }

  method CountRecoveredEpisodes(episodes: seq<DrawdownEpisode>) returns (recovered: nat)
    ensures recovered == CountRecovered(episodes)
  {
    recovered := 0;
    for i := 0 to |episodes|
      invariant recovered == CountRecovered(episodes[..i])
    {
      assert episodes[..i + 1][..i] == episodes[..i];
      if episodes[i].recoveryTime.Some? {
        recovered := recovered + 1;
      }
    }
    assert episodes[..|episodes|] == episodes;
  }

  lemma AllButLastRecovered(points: seq<EquityPoint>, spans: seq<Span>, episodes: seq<DrawdownEpisode>)
    requires ValidCurve(points) && Accounts(points, spans, episodes) && episodes != []
    ensures CountRecovered(episodes[..|episodes| - 1]) == |episodes| - 1
  {
    var init := episodes[..|episodes| - 1];
    forall k | 0 <= k < |init| ensures init[k].recoveryTime.Some? {
      UnrecoveredIffCurrentDrawdown(points, spans, episodes, k);
    }
    AllRecovered(init);
  }

  lemma UnderwaterNeedsEpisode(points: seq<EquityPoint>, spans: seq<Span>, episodes: seq<DrawdownEpisode>)
    requires ValidCurve(points) && Accounts(points, spans, episodes) && Underwater(points, |points| - 1)
    ensures episodes != []
  {
    var l :| 0 <= l < |spans| && Inside(points, spans[l], |points| - 1);
  }

  lemma RecoveredCount(points: seq<EquityPoint>, spans: seq<Span>, episodes: seq<DrawdownEpisode>)
    requires ValidCurve(points) && Accounts(points, spans, episodes)
    ensures CountRecovered(episodes) == |episodes| - if Underwater(points, |points| - 1) then 1 else 0
  {
    if Underwater(points, |points| - 1) {
      UnderwaterNeedsEpisode(points, spans, episodes);
    }
    if episodes != [] {
      AllButLastRecovered(points, spans, episodes);
      UnrecoveredIffCurrentDrawdown(points, spans, episodes, |episodes| - 1);
    }
  }

  method LargestDrawdown(observations: seq<DrawdownObservation>) returns (m: real)
    requires observations != []
    ensures IsLargest(observations, m)
  {
    m := observations[0].drawdown;
    for i := 1 to |observations|
      invariant forall j :: 0 <= j < i ==> observations[j].drawdown <= m
      invariant exists j :: 0 <= j < i && observations[j].drawdown == m
    {
      m := Max(m, observations[i].drawdown);
    }
  }
}
