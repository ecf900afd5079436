/** What holds of whole replay runs: pausing, look-ahead, the event journal, and the books. */
module BacktestRuns {
  import opened Wrappers
  import opened Iteration
  import opened Backtest
  import opened PaperTrading

  // ----- pausing and resuming

  ghost function NextIs(): (RunState, nat) -> bool {
    (s: RunState, i: nat) => s.next == i
  }

  lemma StepNext(c: Engine, inp: Inputs, s: RunState, index: nat)
    ensures KeepsAt(StepOf(c, inp), NextIs(), s, index)
  {
  }

  lemma RunNext(c: Engine, inp: Inputs, s: RunState, first: nat, stop: nat)
    requires s.next == first <= stop && Iterate(StepOf(c, inp), s, first, stop).Some?
    ensures Iterate(StepOf(c, inp), s, first, stop).value.next == stop
  {
    forall x, i: nat ensures KeepsAt(StepOf(c, inp), NextIs(), x, i) {
      StepNext(c, inp, x, i);
    }
    IterateKeeps(StepOf(c, inp), NextIs(), s, first, stop);
  }

  /** Running to `j`, keeping the checkpoint, and resuming from it to `k` is running straight to `k`: same
      checkpoint, same failures, from any starting point and with or without a pending order at the pause. */
  lemma PauseResume(c: Engine, inp: Inputs, from: Option<Checkpoint>, j: int, k: int)
    requires 0 <= j <= k <= |inp.frames|
    requires inp.frames != [] && Start(c, inp, from).Some? ==> Start(c, inp, from).value.next <= j
    ensures RunUntil(c, inp, from, k) ==
      match RunUntil(c, inp, from, j)
      case None => None
      case Some(checkpoint) => RunUntil(c, inp, Some(checkpoint), k)
  {
    if ValidFrames(inp.frames) && Start(c, inp, from).Some? && Start(c, inp, from).value.next >= 0 {
      var s := Start(c, inp, from).value;
      IterateSplits(StepOf(c, inp), s, s.next, j, k);
      if Iterate(StepOf(c, inp), s, s.next, j).Some? {
        RunNext(c, inp, s, s.next, j);
      }
    }
  }

  /** A backtest resumed from any pause gives what the backtest without it gives, metrics included. */
  lemma ResumedBacktest(c: Engine, inp: Inputs, from: Option<Checkpoint>, j: int)
    requires 0 <= j <= |inp.frames|
    requires inp.frames != [] && Start(c, inp, from).Some? ==> Start(c, inp, from).value.next <= j
    ensures RunBacktest(c, inp, from) ==
      match RunUntil(c, inp, from, j)
      case None => None
      case Some(checkpoint) => RunBacktest(c, inp, Some(checkpoint))
  {
    PauseResume(c, inp, from, j, |inp.frames|);
  }

  /** The last candle of a fresh run is a step from the checkpoint before it. */
  lemma LastCandle(c: Engine, inp: Inputs, stop: nat)
    requires 0 < stop <= |inp.frames|
    ensures var before := RunUntil(c, inp, None, stop - 1);
      var after := RunUntil(c, inp, None, stop);
      && (after.Some? <==> before.Some? && Step(c, inp, before.value.run, stop - 1).Some?)
      && (after.Some? ==> after.value.run == Step(c, inp, before.value.run, stop - 1).value)
  {
    if Initial(inp).Some? {
      IterateSplits(StepOf(c, inp), Initial(inp).value, 0, stop - 1, stop);
    }
  }

  /** Run to each stop in turn, resuming every time from the last checkpoint. */
  function RunThrough(c: Engine, inp: Inputs, from: Option<Checkpoint>, stops: seq<int>): Option<Checkpoint>
    requires stops != []
    decreases |stops|
  {
    var first := RunUntil(c, inp, from, stops[0]);
    if |stops| == 1 || first.None? then first else RunThrough(c, inp, first, stops[1..])
  }

  /** A resumed run starts where the one before it stopped. */
  lemma ResumesAtStop(c: Engine, inp: Inputs, from: Option<Checkpoint>, stop: int)
    requires inp.frames != [] && RunUntil(c, inp, from, stop).Some?
    ensures var s := Start(c, inp, RunUntil(c, inp, from, stop)); s.Some? ==> s.value.next == stop
  {
    CheckpointNext(c, inp, from, stop);
  }

  predicate Stops(inp: Inputs, stops: seq<int>) {
    && stops != [] && (forall i :: 0 <= i < |stops| ==> 0 <= stops[i] <= |inp.frames|)
    && (forall i, j :: 0 <= i < j < |stops| ==> stops[i] <= stops[j])
  }

  lemma LaterStops(inp: Inputs, stops: seq<int>)
    requires Stops(inp, stops) && |stops| > 1
    ensures Stops(inp, stops[1..]) && stops[0] <= stops[1..][0] && stops[0] <= stops[|stops| - 1]
    ensures stops[1..][|stops[1..]| - 1] == stops[|stops| - 1]
  {
  }

  /** Any number of pauses changes nothing. */
  lemma {:induction false} AnyPauses(c: Engine, inp: Inputs, from: Option<Checkpoint>, stops: seq<int>)
    requires Stops(inp, stops)
    requires inp.frames != [] && Start(c, inp, from).Some? ==> Start(c, inp, from).value.next <= stops[0]
    ensures RunThrough(c, inp, from, stops) == RunUntil(c, inp, from, stops[|stops| - 1])
    decreases |stops|
  {
    if |stops| > 1 {
      LaterStops(inp, stops);
      PauseResume(c, inp, from, stops[0], stops[|stops| - 1]);
      if RunUntil(c, inp, from, stops[0]).Some? {
        ResumesAtStop(c, inp, from, stops[0]);
        AnyPauses(c, inp, RunUntil(c, inp, from, stops[0]), stops[1..]);
      }
    }
  }

  lemma CheckpointNext(c: Engine, inp: Inputs, from: Option<Checkpoint>, stop: int)
    requires RunUntil(c, inp, from, stop).Some?
    ensures RunUntil(c, inp, from, stop).value.run.next == stop
  {
    var s := Start(c, inp, from).value;
    RunNext(c, inp, s, s.next, stop);
  }

  // ----- where a run starts and how it goes on

  /** A checkpoint may be continued exactly if its schema and all four fingerprints are those of these inputs, and the
      stop lies between its next candle and the last frame. */
  predicate MayContinue(c: Engine, inp: Inputs, checkpoint: Checkpoint, stop: int) {
    && ValidFrames(inp.frames) && checkpoint.schemaVersion == inp.config.schemaVersion
    && checkpoint.fingerprints.dataset == c.fingerprints(inp).dataset
    && checkpoint.fingerprints.responses == c.fingerprints(inp).responses
    && checkpoint.fingerprints.intents == c.fingerprints(inp).intents
    && checkpoint.fingerprints.config == c.fingerprints(inp).config
    && 0 <= checkpoint.run.next <= stop <= |inp.frames|
  }

  lemma RefusedOrThere(c: Engine, inp: Inputs, checkpoint: Checkpoint, stop: int)
    ensures var r := RunUntil(c, inp, Some(checkpoint), stop);
      && (r.Some? ==> r.value.schemaVersion == inp.config.schemaVersion && r.value.fingerprints == c.fingerprints(inp))
      && (!MayContinue(c, inp, checkpoint, stop) ==> r == None)
      && (MayContinue(c, inp, checkpoint, stop) && stop == checkpoint.run.next ==>
            r.Some? && r.value.run == checkpoint.run)
  {
  }

  lemma OneCandle(c: Engine, inp: Inputs, checkpoint: Checkpoint, stop: int)
    requires MayContinue(c, inp, checkpoint, stop) && stop > checkpoint.run.next
    ensures RunUntil(c, inp, Some(checkpoint), stop) ==
      match Step(c, inp, checkpoint.run, checkpoint.run.next)
      case None => None
      case Some(s) => RunUntil(c, inp, Some(checkpoint.(run := s)), stop)
  {
    StepNext(c, inp, checkpoint.run, checkpoint.run.next);
    assert KeepsAt(StepOf(c, inp), NextIs(), checkpoint.run, checkpoint.run.next);
  }

  /** A continued run is refused, or is at its checkpoint, or takes a candle and goes on from there; it ends in a
      checkpoint of these inputs. */
  lemma ContinuedRun(c: Engine, inp: Inputs, checkpoint: Checkpoint, stop: int)
    ensures var r := RunUntil(c, inp, Some(checkpoint), stop);
      && (r.Some? ==> r.value.schemaVersion == inp.config.schemaVersion && r.value.fingerprints == c.fingerprints(inp))
      && if !MayContinue(c, inp, checkpoint, stop) then r == None
         else if stop == checkpoint.run.next then r.Some? && r.value.run == checkpoint.run
         else
           match Step(c, inp, checkpoint.run, checkpoint.run.next)
           case None => r == None
           case Some(s) => r == RunUntil(c, inp, Some(checkpoint.(run := s)), stop)
  {
    RefusedOrThere(c, inp, checkpoint, stop);
    if MayContinue(c, inp, checkpoint, stop) && stop > checkpoint.run.next {
      OneCandle(c, inp, checkpoint, stop);
    }
  }

  /** A fresh run starts from an empty portfolio of the initial cash at the opening of the first candle, with nothing
      recorded; there is none for less than no cash. */
  lemma FreshRun(c: Engine, inp: Inputs, stop: int)
    requires ValidFrames(inp.frames)
    ensures var cash, time := inp.config.initialCash, inp.frames[0].candle.openTime;
      var f := Portfolio(cash, cash, [], 0.0, 0.0, cash, time);
      var s := RunState(0, f, [], [], [EquityPoint(time, cash)], [f], [], None, 0, 0, 0, 0, []);
      RunUntil(c, inp, None, stop) ==
        if cash < 0.0 then None
        else RunUntil(c, inp, Some(Checkpoint(inp.config.schemaVersion, c.fingerprints(inp), s)), stop)
  {
  }

  // ----- no look-ahead

  /** Two sets of inputs that are the same up to candle `k`. */
  ghost predicate SameUpTo(a: Inputs, b: Inputs, k: nat) {
    && k <= |a.frames| && k <= |b.frames| && a.config == b.config
    && (forall i :: 0 <= i < k ==> a.frames[i] == b.frames[i])
    && (forall i :: 0 <= i < k ==>
          var time := a.frames[i].candle.closeTime;
          ResponseAt(a.responses, time) == ResponseAt(b.responses, time)
            && IntentAt(a.intents, time) == IntentAt(b.intents, time))
  }

  lemma DecideAgrees(c: Engine, a: Inputs, b: Inputs, s: RunState, index: nat, k: nat, analysis: Analysis)
    requires SameUpTo(a, b, k) && index < k
    ensures Decide(c, a, s, index, analysis) == Decide(c, b, s, index, analysis)
  {
  }

  lemma StepAgrees(c: Engine, a: Inputs, b: Inputs, s: RunState, index: nat, k: nat)
    requires SameUpTo(a, b, k) && index < k
    ensures Step(c, a, s, index) == Step(c, b, s, index)
  {
    assert a.frames[..index + 1] == b.frames[..index + 1];
    var time := a.frames[index].candle.closeTime;
    var analysis := c.analyze(Candles(a.frames[..index + 1]), time);
    if analysis.Some? && Observe(a, s, index).Some? && ExecutePending(c, a, Observe(a, s, index).value, index).Some? {
      var s2 := ExecutePending(c, a, Observe(a, s, index).value, index).value;
      DecideAgrees(c, a, b, Analyzed(s2, index, time, analysis.value), index, k, analysis.value);
    }
  }

  /** The checkpoint at candle `k` depends on nothing supplied for later candles (its fingerprints aside). */
  lemma NoLookAhead(c: Engine, a: Inputs, b: Inputs, k: nat)
    requires k >= 1 && SameUpTo(a, b, k) && ValidFrames(a.frames) && ValidFrames(b.frames)
    ensures RunUntil(c, a, None, k).Some? <==> RunUntil(c, b, None, k).Some?
    ensures RunUntil(c, a, None, k).Some? ==> RunUntil(c, a, None, k).value.run == RunUntil(c, b, None, k).value.run
  {
    if Initial(a).Some? {
      forall x, i: nat | i < k ensures StepOf(c, a)(x, i) == StepOf(c, b)(x, i) {
        StepAgrees(c, a, b, x, i, k);
      }
      IterateAgrees(StepOf(c, a), StepOf(c, b), Initial(a).value, 0, k);
    }
  }
}
