/** The promises of the bulk executor, drawn from the invariant of BulkSafety. */
module BulkResults {
  import opened Wrappers
  import opened BulkMachine
  import opened BulkSafety

  // ---------------------------------------------------------------- ordered emission

  /** The item result is a function of the item. */
  ghost predicate Answers(steps: seq<Step>, exec: nat -> Receipt) {
    && (forall s | s in steps && s.Settle? :: s.receipt == exec(s.index))
    && (forall s, i | s in steps && s.Close? && i in s.results :: s.results[i] == exec(i))
  }

  /** Running the items one after another and emitting as they finish. */
  function Sequentially(exec: nat -> Receipt, n: nat): seq<ItemReceipt> {
    if n == 0 then [] else Sequentially(exec, n - 1) + [ItemReceipt(n - 1, exec(n - 1))]
  }

  ghost predicate SettledBy(c: Config, completed: map<nat, Receipt>, exec: nat -> Receipt) {
    forall i | i in completed && i !in InputMap(c) :: completed[i] == exec(i)
  }

  lemma {:induction false} RunAnswers(c: Config, steps: seq<Step>, probe: Option<Stop>, exec: nat -> Receipt)
    requires Run(c, steps, Initial(c, probe)).Some? && Answers(steps, exec)
    ensures SettledBy(c, Run(c, steps, Initial(c, probe)).value.progress.completed, exec)
  {
    if steps != [] {
      var front, last := steps[..|steps| - 1], steps[|steps| - 1];
      RunAnswers(c, front, probe, exec);
      StepAnswers(c, Run(c, front, Initial(c, probe)).value, last, Run(c, steps, Initial(c, probe)).value, exec);
    }
  }

  lemma {:induction false} StepAnswers(c: Config, s: State, step: Step, t: State, exec: nat -> Receipt)
    requires Apply(c, step, s) == Some(t) && SettledBy(c, s.progress.completed, exec)
    requires step.Settle? ==> step.receipt == exec(step.index)
    requires step.Close? ==> forall i | i in step.results :: step.results[i] == exec(i)
    ensures SettledBy(c, t.progress.completed, exec)
  {
  }

  lemma {:induction false} FirstsAreAll(m: seq<nat>, d: nat)
    requires d <= |m|
    ensures forall k | 0 <= k < d :: m[k] in Firsts(m, d)
  {
    if d > 0 {
      FirstsAreAll(m, d - 1);
    }
  }

  /** When nothing is pending or in flight, every index of the plan is settled. */
  lemma {:induction false} DrainedSettlesAll(c: Config, s: State)
    requires ValidConfig(c) && Partitioned(c, s) && s.progress.pending == [] && s.inFlight == {}
    ensures forall i | 0 <= i < |c.plan| :: i in s.progress.completed
  {
    var m := MissingIn(c);
    MissingIsExact(InputMap(c).Keys, |c.plan|, m);
    FirstsAreAll(m, s.progress.dispatches);
    forall i | 0 <= i < |c.plan| ensures i in s.progress.completed {
      if i !in InputMap(c) {
        assert i in m;
        var k :| 0 <= k < |m| && m[k] == i;
      }
    }
  }

  lemma {:induction false} GapAtEnd(settled: set<nat>, from: nat, n: nat)
    requires from <= n && forall i | from <= i < n :: i in settled
    ensures FirstGap(settled, from, n) == n
    decreases n - from
  {
    if from < n {
      GapAtEnd(settled, from + 1, n);
    }
  }

  lemma {:induction false} SameAsSequential(completed: map<nat, Receipt>, exec: nat -> Receipt, n: nat)
    requires forall i | 0 <= i < n :: i in completed && completed[i] == exec(i)
    ensures ReceiptsIn(completed, 0, n) == Sequentially(exec, n)
  {
    if n > 0 {
      SameAsSequential(completed, exec, n - 1);
    }
  }

  /**
   For every parallelism and every completion order, an unstopped run emits exactly what running the
   items one after another emits, in index order, and then one summary that counts all of them.
   */
  lemma {:induction false} UnstoppedRunIsSequential(c: Config, steps: seq<Step>, probe: Option<Stop>,
                                                    exec: nat -> Receipt, s: State)
    requires ValidConfig(c) && c.input.None? && Answers(steps, exec)
    requires Run(c, steps, Initial(c, probe)) == Some(s) && s.phase.Ended? && s.progress.stop.None?
    ensures s.emitted == Sequentially(exec, |c.plan|)
    ensures s.phase.summary.total == s.phase.summary.settled == s.phase.summary.dispatches == |c.plan|
    ensures s.phase.summary.outstanding == 0 && !s.phase.summary.cancelled
  {
    RunKeepsInv(c, steps, probe);
    RunAnswers(c, steps, probe, exec);
    EndedSummary(c, steps, probe, s);
    EndedEmitsAll(c, s);
    InRange(c, s);
    SameAsSequential(s.progress.completed, exec, |c.plan|);
    CoversPlan(c, s.progress.completed);
  }

  lemma {:induction false} EndedEmitsAll(c: Config, s: State)
    requires ValidConfig(c) && Inv(c, s) && s.phase.Ended? && s.progress.stop.None?
    ensures forall i | 0 <= i < |c.plan| :: i in s.progress.completed
    ensures s.emitted == ReceiptsIn(s.progress.completed, 0, |c.plan|)
  {
    DrainedSettlesAll(c, s);
    assert s.progress.nextEmit == |c.plan|;
    assert s.emitted + [] == s.emitted;
  }

  ghost function Range(n: nat): (r: set<nat>)
    ensures forall i: nat {:trigger i in r} :: i in r <==> i < n
    ensures |r| == n
  {
    if n == 0 then {} else Range(n - 1) + {n - 1}
  }

  lemma {:induction false} CoversPlan(c: Config, completed: map<nat, Receipt>)
    requires forall i | i in completed :: i < |c.plan|
    requires forall i | 0 <= i < |c.plan| :: i in completed
    ensures |completed| == |c.plan|
  {
    assert completed.Keys == Range(|c.plan|);
  }

  lemma {:induction false} EndedSummary(c: Config, steps: seq<Step>, probe: Option<Stop>, s: State)
    requires Run(c, steps, Initial(c, probe)) == Some(s) && s.phase.Ended?
    ensures s.phase.summary == Summarized(c, s.progress)
  {
    var front := steps[..|steps| - 1];
    var t := Run(c, front, Initial(c, probe)).value;
    assert Apply(c, steps[|steps| - 1], t) == Some(s);
  }

  ghost function WithOutcome(completed: map<nat, Receipt>, kind: OutcomeKind): set<nat> {
    set i | i in completed && completed[i].outcome == kind
  }

  ghost function WithOutcomeBelow(completed: map<nat, Receipt>, kind: OutcomeKind, n: nat): set<nat> {
    set i | i in completed && completed[i].outcome == kind && i < n
  }

  lemma {:induction false} CountIsSize(completed: map<nat, Receipt>, kind: OutcomeKind, n: nat)
    ensures CountOf(completed, kind, n) == |WithOutcomeBelow(completed, kind, n)|
  {
    if n == 0 {
      assert WithOutcomeBelow(completed, kind, n) == {};
    } else {
      CountIsSize(completed, kind, n - 1);
      OneHigher(completed, kind, n - 1);
    }
  }

  lemma {:induction false} OneHigher(completed: map<nat, Receipt>, kind: OutcomeKind, n: nat)
    ensures n !in WithOutcomeBelow(completed, kind, n)
    ensures WithOutcomeBelow(completed, kind, n + 1) ==
              WithOutcomeBelow(completed, kind, n)
              + if n in completed && completed[n].outcome == kind then {n} else {}
  {
  }

  lemma {:induction false} CountIsExact(c: Config, completed: map<nat, Receipt>, kind: OutcomeKind)
    requires forall i | i in completed :: i < |c.plan|
    ensures CountOf(completed, kind, |c.plan|) == |WithOutcome(completed, kind)|
  {
    CountIsSize(completed, kind, |c.plan|);
    assert WithOutcome(completed, kind) == WithOutcomeBelow(completed, kind, |c.plan|);
  }

  /** The summary counts the settled receipts by outcome and says which stop ended the run. */
  lemma {:induction false} SummaryIsExact(c: Config, steps: seq<Step>, probe: Option<Stop>, s: State)
    requires ValidConfig(c) && Run(c, steps, Initial(c, probe)) == Some(s) && s.phase.Ended?
    ensures var r, done := s.phase.summary, s.progress.completed;
      && r.total == |c.plan| && r.settled == |done| && r.dispatches == |s.dispatched|
      && r.succeeded == |WithOutcome(done, Succeeded)| && r.failed == |WithOutcome(done, Failed)|
      && r.skipped == |WithOutcome(done, Skipped)|
      && (r.cancelled <==> s.progress.stop == Some(CancelRequested))
      && (r.budgetExhausted <==> s.progress.stop == Some(BudgetExhausted) || s.progress.itemBudget)
  {
    RunKeepsInv(c, steps, probe);
    EndedSummary(c, steps, probe, s);
    InRange(c, s);
    CountIsExact(c, s.progress.completed, Succeeded);
    CountIsExact(c, s.progress.completed, Failed);
    CountIsExact(c, s.progress.completed, Skipped);
  }

  /** Outcome counts never exceed the settled count; settled and outstanding add up to the plan. */
  lemma {:induction false} SummaryCounts(c: Config, steps: seq<Step>, probe: Option<Stop>, s: State)
    requires ValidConfig(c) && Run(c, steps, Initial(c, probe)) == Some(s)
    ensures var r := Summarized(c, s.progress);
      && r.succeeded + r.failed + r.skipped <= r.settled
      && r.settled + r.outstanding == r.total
      && 0 <= r.outstanding && r.settled + |s.inFlight| == |InputMap(c)| + r.dispatches
  {
    RunKeepsInv(c, steps, probe);
    InRange(c, s);
    var all := set i | i in s.progress.completed && i < |c.plan|;
    CountsBounded(s.progress.completed, |c.plan|);
    assert all == s.progress.completed.Keys;
    SubsetSize(all, Range(|c.plan|));
  }

  lemma {:induction false} SubsetSize(a: set<nat>, b: set<nat>)
    requires a <= b
    ensures |a| <= |b|
  {
    assert b == a + (b - a);
  }

  lemma {:induction false} CountsBounded(completed: map<nat, Receipt>, n: nat)
    ensures CountOf(completed, Succeeded, n) + CountOf(completed, Failed, n) + CountOf(completed, Skipped, n)
         <= |set i | i in completed && i < n|
  {
    if n > 0 {
      CountsBounded(completed, n - 1);
      var before, now := (set i | i in completed && i < n - 1), (set i | i in completed && i < n);
      if n - 1 in completed {
        assert now == before + {n - 1};
      } else {
        assert now == before;
      }
    }
  }

  // ---------------------------------------------------------------- who is where

  /** An ascending list splits into its first elements and the rest. */
  lemma {:induction false} FirstsAndRest(m: seq<nat>, d: nat, i: nat)
    requires d <= |m| && forall j, k | 0 <= j < k < |m| :: m[j] < m[k]
    ensures i in m <==> i in m[d..] || i in Firsts(m, d)
    ensures !(i in m[d..] && i in Firsts(m, d))
  {
    FirstsAreAll(m, d);
    FirstsAreBelow(m, d);
    if i in m[d..] {
      var k :| 0 <= k < |m[d..]| && m[d..][k] == i;
      FirstsMiss(m, d, d + k);
    }
    if i in m {
      var k :| 0 <= k < |m| && m[k] == i;
      if k >= d {
        assert m[d..][k - d] == i;
      }
    }
  }

  /** Where an index may be: settled, pending or in flight, and in no two of them. */
  ghost predicate InOnePlace(p: Progress, inFlight: set<nat>, i: nat) {
    && !(i in p.completed && i in p.pending) && !(i in p.completed && i in inFlight)
      && !(i in p.pending && i in inFlight)
  }

  /** At any moment each index of the plan is in exactly one place, and no other index is anywhere. */
  lemma {:induction false} PlanIsPartitioned(c: Config, steps: seq<Step>, probe: Option<Stop>, s: State, i: nat)
    requires ValidConfig(c) && Run(c, steps, Initial(c, probe)) == Some(s)
    ensures i < |c.plan| <==> i in s.progress.completed || i in s.progress.pending || i in s.inFlight
    ensures InOnePlace(s.progress, s.inFlight, i)
    ensures |s.inFlight| <= c.parallelism <= 32
  {
    RunKeepsInv(c, steps, probe);
    PartsArePlan(c, s, i);
  }

  lemma {:induction false} PartsArePlan(c: Config, s: State, i: nat)
    requires ValidConfig(c) && Partitioned(c, s)
    ensures i < |c.plan| <==> i in s.progress.completed || i in s.progress.pending || i in s.inFlight
    ensures InOnePlace(s.progress, s.inFlight, i)
  {
    var m := MissingIn(c);
    MissingIsExact(InputMap(c).Keys, |c.plan|, m);
    InputInRange(c);
    FirstsAndRest(m, s.progress.dispatches, i);
  }

  /**
   What has been dispatched is the first missing indices in order; with the input it is what settled or is in
   flight.
   */
  lemma {:induction false} DispatchFollowsThePlan(c: Config, steps: seq<Step>, probe: Option<Stop>, s: State)
    requires ValidConfig(c) && Run(c, steps, Initial(c, probe)) == Some(s)
    ensures s.progress.dispatches <= |Missing(InputMap(c).Keys, |c.plan|)|
    ensures s.dispatched == Missing(InputMap(c).Keys, |c.plan|)[..s.progress.dispatches]
    ensures |s.progress.completed| + |s.inFlight| == |InputMap(c)| + s.progress.dispatches
    ensures forall i | i in InputMap(c) :: i in s.progress.completed && s.progress.completed[i] == InputMap(c)[i]
  {
    RunKeepsInv(c, steps, probe);
  }

  // ---------------------------------------------------------------- stopping and ending

  /** A stop reason once set never clears and freezes dispatch, for the rest of the run. */
  lemma {:induction false} StopFreezesDispatch(c: Config, steps: seq<Step>, s: State)
    requires s.progress.stop.Some? && Run(c, steps, s).Some?
    ensures var t := Run(c, steps, s).value; t.progress.stop == s.progress.stop && t.dispatched == s.dispatched
  {
    if steps != [] {
      StopFreezesDispatch(c, steps[..|steps| - 1], s);
    }
  }

  function PhaseRank(phase: Phase): nat {
    match phase
    case Starting => 4
    case Dispatching => 3
    case Settling(_) => 3
    case Finishing => 2
    case Summarizing => 1
    case _ => 0
  }

  function InBatch(phase: Phase): set<nat> {
    if phase.Settling? then phase.done else {}
  }

  /** The steps that may still be ahead: what each index has yet to go through, the stop, and the phases. */
  function StepsAhead(c: Config, s: State): int {
    if PhaseRank(s.phase) == 0 then 0 else Ahead(c, s)
  }

  function Ahead(c: Config, s: State): int {
    3 * |s.progress.pending| + 2 * |s.inFlight| - |InBatch(s.phase)| + (|c.plan| - |s.emitted|)
    + (if s.progress.stop.None? then 1 else 0) + PhaseRank(s.phase)
  }

  ghost predicate Terminal(s: State) {
    s.phase.Ended? || s.phase.Closed? || s.phase.Broken?
  }

  lemma {:induction false} AheadIsNatural(c: Config, s: State)
    requires Bounded(c, s) && EmitsInOrder(c, s)
    ensures Ahead(c, s) >= PhaseRank(s.phase)
  {
    SubsetSize(InBatch(s.phase), s.inFlight);
    ReceiptsInAt(s.progress.completed, s.progress.nextEmit);
    assert |s.emitted| <= |s.emitted + s.outbox|;
  }

  lemma {:induction false} SettleDescends(c: Config, s: State, step: Step)
    requires Bounded(c, s) && step.Settle? && s.phase.Settling? && step.index in s.phase.done
    requires !(c.required && !step.accepted)
    ensures Ahead(c, SettledOne(c, s, step)) < Ahead(c, s)
  {
    assert step.index in s.inFlight && |s.inFlight - {step.index}| == |s.inFlight| - 1;
    assert |s.phase.done - {step.index}| == |s.phase.done| - 1;
  }

  lemma {:induction false} DispatchDescends(c: Config, s: State, step: Step, t: State)
    requires step.Dispatch? && Apply(c, step, s) == Some(t)
    ensures Ahead(c, t) < Ahead(c, s)
  {
    if step.probe.None? {
      assert |s.inFlight + {s.progress.pending[0]}| <= |s.inFlight| + 1;
    }
  }

  lemma {:induction false} AwaitDescends(c: Config, s: State, step: Step, t: State)
    requires step.Await? && Apply(c, step, s) == Some(t)
    ensures Ahead(c, t) < Ahead(c, s)
  {
    assert |step.ready| > 0;
  }

  lemma {:induction false} QuietDescends(c: Config, s: State, step: Step, t: State)
    requires Bounded(c, s) && Apply(c, step, s) == Some(t) && PhaseRank(t.phase) > 0
    requires step.Yield? || step.StartLoop? || step.LeaveLoop? || step.Finish?
    ensures Ahead(c, t) < Ahead(c, s)
  {
  }

  lemma {:induction false} SettleStepDescends(c: Config, s: State, step: Step, t: State)
    requires Bounded(c, s) && EmitsInOrder(c, s) && step.Settle? && Apply(c, step, s) == Some(t)
    ensures StepsAhead(c, t) < StepsAhead(c, s)
  {
    AheadIsNatural(c, s);
    if !(c.required && !step.accepted) {
      SettleDescends(c, s, step);
    }
  }

  lemma {:induction false} LoopStepDescends(c: Config, s: State, step: Step, t: State)
    requires (step.Dispatch? || step.Await?) && Apply(c, step, s) == Some(t)
    ensures StepsAhead(c, t) < StepsAhead(c, s)
  {
    if step.Dispatch? {
      DispatchDescends(c, s, step, t);
    } else {
      AwaitDescends(c, s, step, t);
    }
  }

  lemma {:induction false} OtherStepDescends(c: Config, s: State, step: Step, t: State)
    requires Bounded(c, s) && EmitsInOrder(c, s) && Apply(c, step, s) == Some(t)
    requires !step.Settle? && !step.Dispatch? && !step.Await?
    ensures StepsAhead(c, t) < StepsAhead(c, s)
  {
    AheadIsNatural(c, s);
    if PhaseRank(t.phase) > 0 {
      QuietDescends(c, s, step, t);
    }
  }

  /** Every step leaves fewer steps ahead. */
  lemma {:induction false} StepsDescend(c: Config, s: State, step: Step, t: State)
    requires Bounded(c, s) && EmitsInOrder(c, s) && Apply(c, step, s) == Some(t)
    ensures StepsAhead(c, t) < StepsAhead(c, s)
  {
    if step.Settle? {
      SettleStepDescends(c, s, step, t);
    } else if step.Dispatch? || step.Await? {
      LoopStepDescends(c, s, step, t);
    } else {
      OtherStepDescends(c, s, step, t);
    }
  }

  lemma {:induction false} MissingIsShort(settled: set<nat>, n: nat)
    ensures |Missing(settled, n)| <= n
  {
    if n > 0 {
      MissingIsShort(settled, n - 1);
    }
  }

  lemma {:induction false} RunSpendsSteps(c: Config, steps: seq<Step>, probe: Option<Stop>)
    requires ValidConfig(c) && Run(c, steps, Initial(c, probe)).Some?
    ensures |steps| + StepsAhead(c, Run(c, steps, Initial(c, probe)).value) <= 4 * |c.plan| + 5
  {
    if steps == [] {
      MissingIsShort(InputMap(c).Keys, |c.plan|);
    } else {
      var front := steps[..|steps| - 1];
      RunSpendsSteps(c, front, probe);
      RunKeepsInv(c, front, probe);
      StepsDescend(c, Run(c, front, Initial(c, probe)).value, steps[|steps| - 1],
                   Run(c, steps, Initial(c, probe)).value);
    }
  }

  /** No run goes on for ever: over a plan of n items none takes more than 4 n + 5 steps. */
  lemma {:induction false} RunsAreShort(c: Config, steps: seq<Step>, probe: Option<Stop>)
    requires ValidConfig(c) && Run(c, steps, Initial(c, probe)).Some?
    ensures |steps| <= 4 * |c.plan| + 5
  {
    RunSpendsSteps(c, steps, probe);
    RunKeepsInv(c, steps, probe);
    AheadIsNatural(c, Run(c, steps, Initial(c, probe)).value);
  }

  /**
   The executor waits, and leaves its loop, only when nothing more may be dispatched: the plan is used up,
   the bound is reached exactly, or a stop is set.
   */
  lemma {:induction false} WaitsOnlyWhenFull(c: Config, steps: seq<Step>, probe: Option<Stop>, s: State, step: Step)
    requires ValidConfig(c) && Run(c, steps, Initial(c, probe)) == Some(s) && Apply(c, step, s).Some?
    requires step.Await? || step.LeaveLoop?
    ensures s.progress.pending == [] || |s.inFlight| == c.parallelism || s.progress.stop.Some?
  {
    RunKeepsInv(c, steps, probe);
  }

  /** Until it has ended some step is enabled, so no run is stuck. */
  lemma {:induction false} NeverStuck(c: Config, steps: seq<Step>, probe: Option<Stop>, s: State, any: Receipt)
    requires ValidConfig(c) && Run(c, steps, Initial(c, probe)) == Some(s) && !Terminal(s)
    ensures exists step :: Apply(c, step, s).Some?
  {
    RunKeepsInv(c, steps, probe);
    if s.outbox != [] && !s.phase.Finishing? {
      assert Apply(c, Yield, s).Some?;
    } else {
      match s.phase
      case Starting => assert Apply(c, StartLoop, s).Some?;
      case Dispatching =>
        if !Saturated(c, s) {
          assert Apply(c, Dispatch(None), s).Some?;
        } else if s.inFlight == {} {
          assert Apply(c, LeaveLoop, s).Some?;
        } else {
          assert Apply(c, Await(s.inFlight), s).Some?;
        }
      case Settling(done) =>
        var i :| i in done;
        assert Apply(c, Settle(i, any, false, None, true), s).Some?;
      case Finishing => assert Apply(c, Finish(false, true), s).Some?;
      case Summarizing => assert Apply(c, Summarize, s).Some?;
      case _ =>
    }
  }

  // ---------------------------------------------------------------- checkpoints

  /** With checkpoints required, nothing reaches the consumer before the sink holds it. */
  lemma {:induction false} EmittedAfterAccepted(c: Config, steps: seq<Step>, probe: Option<Stop>, s: State, k: nat)
    requires ValidConfig(c) && Run(c, steps, Initial(c, probe)) == Some(s) && c.required && k < |s.emitted| + |s.outbox|
    ensures var r := (s.emitted + s.outbox)[k];
      r.index == k && k in Durable(c, s) && Durable(c, s)[k] == r.receipt
  {
    RunKeepsInv(c, steps, probe);
    ReceiptsInAt(s.progress.completed, s.progress.nextEmit);
  }

  /** After a stop the last checkpoint holds all that settled, and says whether it was a cancellation. */
  lemma {:induction false} StopLeavesCheckpoint(c: Config, steps: seq<Step>, probe: Option<Stop>, s: State)
    requires ValidConfig(c) && Run(c, steps, Initial(c, probe)) == Some(s) && c.required && s.phase.Ended?
    requires s.progress.stop.Some?
    ensures s.persisted != []
    ensures var last := s.persisted[|s.persisted| - 1];
      && WellFormed(last) && last.plan == c.plan && Settled(last.receipts) == s.progress.completed
      && last.cancelled == (s.progress.stop == Some(CancelRequested))
  {
    RunKeepsInv(c, steps, probe);
    LastHoldsAll(c, s);
  }

  /** Closing the stream inside the loop settles what is in flight and leaves it all in a cancelled checkpoint. */
  lemma {:induction false} CloseLeavesCheckpoint(c: Config, steps: seq<Step>, probe: Option<Stop>, s: State, step: Step,
                                                 t: State)
    requires ValidConfig(c) && Run(c, steps, Initial(c, probe)) == Some(s) && c.required && step.Close? && step.accepted
    requires Apply(c, step, s) == Some(t)
    ensures t.inFlight == {} && t.progress.completed == s.progress.completed + step.results && t.persisted != []
    ensures var last := t.persisted[|t.persisted| - 1];
      && WellFormed(last) && last.plan == c.plan && Settled(last.receipts) == t.progress.completed && last.cancelled
  {
    RunKeepsInv(c, steps, probe);
    CloseKeepsParts(c, s, step, t);
    InRange(c, t);
    BuiltCheckpoint(c, t.progress.completed, true);
  }

  lemma {:induction false} LastHoldsAll(c: Config, t: State)
    requires Checkpointed(c, t) && c.required && Lost(t) == {} && t.persisted != []
    ensures var last := t.persisted[|t.persisted| - 1];
      WellFormed(last) && last.plan == c.plan && Settled(last.receipts) == t.progress.completed
  {
    MinusNothing(t.progress.completed);
  }

  /** Until the end, what was remembered of the last persistence tells what the sink last accepted. */
  ghost predicate Tallied(c: Config, s: State) {
    s.phase.Starting? || s.phase.Dispatching? || s.phase.Settling? || s.phase.Finishing? ==>
      if s.progress.lastCount < 0 then s.persisted == [] && s.progress.lastStop.None?
          && s.progress.completed == InputMap(c)
      else s.progress.lastCount == |s.progress.completed| && (c.required ==> s.persisted != [])
  }

  lemma {:induction false} RunKeepsTally(c: Config, steps: seq<Step>, probe: Option<Stop>)
    requires Run(c, steps, Initial(c, probe)).Some?
    ensures Tallied(c, Run(c, steps, Initial(c, probe)).value)
  {
    if steps != [] {
      var front := steps[..|steps| - 1];
      RunKeepsTally(c, front, probe);
      StepKeepsTally(c, Run(c, front, Initial(c, probe)).value, steps[|steps| - 1],
                     Run(c, steps, Initial(c, probe)).value);
    }
  }

  lemma {:induction false} StepKeepsTally(c: Config, s: State, step: Step, t: State)
    requires Tallied(c, s) && Apply(c, step, s) == Some(t)
    ensures Tallied(c, t)
  {
    if step.Settle? {
      SettleTallies(c, s, step);
    }
  }

  lemma {:induction false} SettleTallies(c: Config, s: State, step: Step)
    requires step.Settle? && s.phase.Settling?
    ensures Tallied(c, SettledOne(c, s, step))
  {
  }

  /** The last accepted checkpoint holds every settled receipt and says whether `stop` was a cancellation. */
  ghost predicate LastSays(c: Config, persisted: seq<Checkpoint>, completed: map<nat, Receipt>, stop: Option<Stop>) {
    && persisted != []
    && var last := persisted[|persisted| - 1];
       WellFormed(last) && last.plan == c.plan && Settled(last.receipts) == completed
       && last.cancelled == (stop == Some(CancelRequested))
  }

  /** Before the last look at cancellation the sink's last checkpoint is complete, under the stop it was built with. */
  lemma {:induction false} FinishingIsRecorded(c: Config, steps: seq<Step>, probe: Option<Stop>, s: State)
    requires ValidConfig(c) && Run(c, steps, Initial(c, probe)) == Some(s) && c.required && s.phase.Finishing?
    ensures s.persisted != [] <==> s.progress.lastCount == |s.progress.completed|
    ensures s.persisted != [] ==> LastSays(c, s.persisted, s.progress.completed, s.progress.lastStop)
  {
    RunKeepsTally(c, steps, probe);
    RunKeepsInv(c, steps, probe);
    if s.persisted != [] {
      LastHoldsAll(c, s);
    }
  }

  // ---------------------------------------------------------------- crash and resume

  /** The configuration a later run resumes with: the last accepted checkpoint, if any was. */
  function Resumption(c: Config, s: State): Config {
    if s.persisted == [] then c else c.(input := Some(s.persisted[|s.persisted| - 1]))
  }

  ghost predicate OwnTarget(c: Config, completed: map<nat, Receipt>) {
    forall i | i in completed :: i < |c.plan| && completed[i].target == c.plan[i]
  }

  /** Every item's executor answers for that item. */
  ghost predicate AnswersOwn(c: Config, steps: seq<Step>) {
    && (forall s | s in steps && s.Settle? && s.index < |c.plan| :: s.receipt.target == c.plan[s.index])
    && (forall s, i | s in steps && s.Close? && i in s.results && i < |c.plan| :: s.results[i].target == c.plan[i])
  }

  lemma {:induction false} StepKeepsTargets(c: Config, s: State, step: Step, t: State)
    requires OwnTarget(c, s.progress.completed) && Apply(c, step, s) == Some(t)
    requires forall i | i in t.progress.completed :: i < |c.plan|
    requires step.Settle? && step.index < |c.plan| ==> step.receipt.target == c.plan[step.index]
    requires step.Close? ==> forall i | i in step.results && i < |c.plan| :: step.results[i].target == c.plan[i]
    ensures OwnTarget(c, t.progress.completed)
  {
  }

  lemma {:induction false} InputTargets(c: Config)
    requires ValidConfig(c)
    ensures OwnTarget(c, InputMap(c))
  {
    if c.input.Some? {
      SettledKeys(c.input.value.receipts);
    }
  }

  lemma {:induction false} RunKeepsTargets(c: Config, steps: seq<Step>, probe: Option<Stop>)
    requires ValidConfig(c) && Run(c, steps, Initial(c, probe)).Some? && AnswersOwn(c, steps)
    ensures OwnTarget(c, Run(c, steps, Initial(c, probe)).value.progress.completed)
  {
    if steps == [] {
      InputTargets(c);
    } else {
      var front, last := steps[..|steps| - 1], steps[|steps| - 1];
      assert AnswersOwn(c, front) && last in steps;
      RunKeepsTargets(c, front, probe);
      RunKeepsInv(c, steps, probe);
      InRange(c, Run(c, steps, Initial(c, probe)).value);
      StepKeepsTargets(c, Run(c, front, Initial(c, probe)).value, last, Run(c, steps, Initial(c, probe)).value);
    }
  }

  /** A checkpoint this executor persisted is accepted when the same plan is resumed with it. */
  lemma {:induction false} ResumptionIsValid(c: Config, steps: seq<Step>, probe: Option<Stop>, s: State)
    requires ValidConfig(c) && c.required && AnswersOwn(c, steps)
    requires Run(c, steps, Initial(c, probe)) == Some(s)
    ensures ValidConfig(Resumption(c, s)) && InputMap(Resumption(c, s)) == Durable(c, s)
  {
    if s.persisted != [] {
      RunKeepsInv(c, steps, probe);
      RunKeepsTargets(c, steps, probe);
      var last := s.persisted[|s.persisted| - 1];
      ReceiptsAgree(last.receipts);
      forall k | 0 <= k < |last.receipts| ensures last.receipts[k].receipt.target == c.plan[last.receipts[k].index] {
        assert last.receipts[k].index in Durable(c, s);
      }
    }
  }

  /** With ascending indices, looking a listed index up returns that very receipt. */
  lemma {:induction false} ReceiptsAgree(receipts: seq<ItemReceipt>)
    requires forall i, j | 0 <= i < j < |receipts| :: receipts[i].index < receipts[j].index
    ensures forall k | 0 <= k < |receipts| ::
              receipts[k].index in Settled(receipts) && Settled(receipts)[receipts[k].index] == receipts[k].receipt
  {
    if receipts != [] {
      ReceiptsAgree(receipts[..|receipts| - 1]);
    }
  }

  /** Indices dispatched by both the interrupted run and the one that resumed it. */
  ghost function DispatchedTwice(s: State, r: State): set<nat> {
    set i | i in s.dispatched && i in r.dispatched
  }

  /** No index with a durable receipt is dispatched by the run that resumes from it. */
  lemma {:induction false} DurableIsNotRedispatched(c: Config, s: State, r: State)
    requires ValidConfig(Resumption(c, s)) && Partitioned(Resumption(c, s), r)
    ensures forall i | i in r.dispatched :: i !in Durable(c, s)
  {
    var c2 := Resumption(c, s);
    MissingIsExact(InputMap(c2).Keys, |c2.plan|, MissingIn(c2));
    assert InputMap(c2) == Durable(c, s);
  }

  /**
   Interrupt a run anywhere and resume it from its last persisted checkpoint: no settled item is
   dispatched again, and at most `parallelism` items are dispatched by both runs, none of them when
   the first run ended or was closed with its checkpoint accepted.
   */
  lemma {:induction false} ResumeRedispatchesFew(c: Config, steps: seq<Step>, probe: Option<Stop>, s: State,
                                                 more: seq<Step>, probe2: Option<Stop>, r: State)
    requires ValidConfig(c) && c.required && AnswersOwn(c, steps)
    requires Run(c, steps, Initial(c, probe)) == Some(s)
    requires Run(Resumption(c, s), more, Initial(Resumption(c, s), probe2)) == Some(r)
    ensures forall i | i in r.dispatched :: i !in Durable(c, s)
    ensures DispatchedTwice(s, r) <= s.inFlight + Lost(s) && |DispatchedTwice(s, r)| <= c.parallelism
    ensures s.inFlight == {} && !s.phase.Broken? ==> DispatchedTwice(s, r) == {}
  {
    RunKeepsInv(c, steps, probe);
    ResumptionIsValid(c, steps, probe, s);
    RunKeepsInv(Resumption(c, s), more, probe2);
    DurableIsNotRedispatched(c, s, r);
    forall i | i in DispatchedTwice(s, r) ensures i in s.inFlight + Lost(s) {
      DispatchedIsKnown(c, s, i);
    }
    SubsetSize(DispatchedTwice(s, r), s.inFlight + Lost(s));
    UnionSize(s.inFlight, Lost(s));
  }

  lemma {:induction false} DispatchedIsKnown(c: Config, s: State, i: nat)
    requires Partitioned(c, s) && i in s.dispatched
    ensures i in s.progress.completed || i in s.inFlight
  {
    FirstsAreAll(MissingIn(c), s.progress.dispatches);
    var k :| 0 <= k < s.progress.dispatches && MissingIn(c)[k] == i;
  }

  lemma {:induction false} UnionSize(a: set<nat>, b: set<nat>)
    ensures |a + b| <= |a| + |b|
  {
    assert a + b == a + (b - a);
    SubsetSize(b - a, b);
  }

  /** An interrupted run, resumed and left to finish, settles what one uninterrupted run settles. */
  lemma {:induction false} ResumedEqualsUninterrupted(c: Config, steps: seq<Step>, probe: Option<Stop>, s: State,
                                                      more: seq<Step>, probe2: Option<Stop>, r: State,
                                                        exec: nat -> Receipt)
    requires ValidConfig(c) && c.required && c.input.None? && AnswersOwn(c, steps)
    requires Answers(steps, exec) && Answers(more, exec)
    requires Run(c, steps, Initial(c, probe)) == Some(s)
    requires Run(Resumption(c, s), more, Initial(Resumption(c, s), probe2)) == Some(r)
    requires r.phase.Ended? && r.progress.stop.None?
    ensures r.emitted == Sequentially(exec, |c.plan|)
    ensures r.progress.completed == map i: nat | i < |c.plan| :: exec(i)
  {
    RunKeepsInv(c, steps, probe);
    RunAnswers(c, steps, probe, exec);
    ResumptionIsValid(c, steps, probe, s);
    DurableAnswers(c, s, exec);
    UnstoppedRunAnswers(Resumption(c, s), more, probe2, r, exec);
  }

  lemma {:induction false} DurableAnswers(c: Config, s: State, exec: nat -> Receipt)
    requires SinkHolds(c, s) && c.required && c.input.None? && SettledBy(c, s.progress.completed, exec)
    ensures forall i | i in Durable(c, s) :: Durable(c, s)[i] == exec(i)
  {
  }

  /** An unstopped run over an input that answers as `exec` does ends with `exec` of every index. */
  lemma {:induction false} UnstoppedRunAnswers(c: Config, steps: seq<Step>, probe: Option<Stop>, s: State,
                                               exec: nat -> Receipt)
    requires ValidConfig(c) && Answers(steps, exec) && forall i | i in InputMap(c) :: InputMap(c)[i] == exec(i)
    requires Run(c, steps, Initial(c, probe)) == Some(s) && s.phase.Ended? && s.progress.stop.None?
    ensures s.emitted == Sequentially(exec, |c.plan|)
    ensures s.progress.completed == map i: nat | i < |c.plan| :: exec(i)
  {
    RunKeepsInv(c, steps, probe);
    RunAnswers(c, steps, probe, exec);
    EndedEmitsAll(c, s);
    InRange(c, s);
    KeepsInput(c, s);
    SameAsSequential(s.progress.completed, exec, |c.plan|);
  }

  lemma {:induction false} KeepsInput(c: Config, s: State)
    requires Partitioned(c, s)
    ensures forall i | i in InputMap(c) :: i in s.progress.completed && s.progress.completed[i] == InputMap(c)[i]
  {
  }
}
