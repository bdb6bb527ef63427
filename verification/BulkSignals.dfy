/** What stops a run, read off its steps: the first signal that counts decides the stop and every flag. */
module BulkSignals {
  import opened Wrappers
  import opened BulkMachine
  import opened BulkResults
  import opened BulkSafety

  /** A look at the cancellation source, at any of the places where the executor looks, found it set. */
  predicate Cancels(step: Step) {
    match step
    case Dispatch(probe) => probe == Some(CancelRequested)
    case Settle(_, _, _, probe, _) => probe == Some(CancelRequested)
    case Finish(cancelled, _) => cancelled
    case _ => false
  }

  /** The run's budget was found spent, not cancelled, with items still to dispatch; the last look ignores it. */
  predicate Exhausts(step: Step, pending: seq<nat>) {
    match step
    case Dispatch(probe) => probe == Some(BudgetExhausted)
    case Settle(_, _, _, probe, _) => probe == Some(BudgetExhausted) && pending != []
    case _ => false
  }

  /** Before anything is dispatched: the budget counts only if the input does not settle the whole plan. */
  ghost predicate ExhaustedAtFirst(c: Config, probe: Option<Stop>) {
    probe == Some(BudgetExhausted) && exists i: nat :: i < |c.plan| && i !in InputMap(c)
  }

  ghost predicate CancelsAt(steps: seq<Step>, m: nat) {
    m < |steps| && Cancels(steps[m])
  }

  ghost predicate ExhaustsAt(c: Config, steps: seq<Step>, probe: Option<Stop>, m: nat) {
    && m < |steps| && Run(c, steps[..m], Initial(c, probe)).Some?
    && Exhausts(steps[m], Run(c, steps[..m], Initial(c, probe)).value.progress.pending)
  }

  /** No signal before the m-th step. */
  ghost predicate QuietUntil(c: Config, steps: seq<Step>, probe: Option<Stop>, m: nat) {
    && probe != Some(CancelRequested) && !ExhaustedAtFirst(c, probe)
    && forall n: nat | n < m :: !CancelsAt(steps, n) && !ExhaustsAt(c, steps, probe, n)
  }

  /** The first signal of the run was a cancellation. */
  ghost predicate CancelledFirst(c: Config, steps: seq<Step>, probe: Option<Stop>) {
    probe == Some(CancelRequested) || exists m: nat :: CancelsAt(steps, m) && QuietUntil(c, steps, probe, m)
  }

  /** The first signal of the run was its budget. */
  ghost predicate ExhaustedFirst(c: Config, steps: seq<Step>, probe: Option<Stop>) {
    || ExhaustedAtFirst(c, probe)
    || exists m: nat :: ExhaustsAt(c, steps, probe, m) && QuietUntil(c, steps, probe, m)
  }

  lemma {:induction false} SamePrefix(c: Config, steps: seq<Step>, probe: Option<Stop>, m: nat)
    requires m + 1 < |steps|
    ensures CancelsAt(steps, m) == CancelsAt(steps[..|steps| - 1], m)
    ensures ExhaustsAt(c, steps, probe, m) == ExhaustsAt(c, steps[..|steps| - 1], probe, m)
  {
    assert steps[..|steps| - 1][..m] == steps[..m];
  }

  lemma {:induction false} QuietPrefix(c: Config, steps: seq<Step>, probe: Option<Stop>, m: nat)
    requires m < |steps|
    ensures QuietUntil(c, steps, probe, m) == QuietUntil(c, steps[..|steps| - 1], probe, m)
  {
    var front := steps[..|steps| - 1];
    if QuietUntil(c, steps, probe, m) {
      forall n: nat | n < m ensures !CancelsAt(front, n) && !ExhaustsAt(c, front, probe, n) {
        SamePrefix(c, steps, probe, n);
      }
    }
    if QuietUntil(c, front, probe, m) {
      forall n: nat | n < m ensures !CancelsAt(steps, n) && !ExhaustsAt(c, steps, probe, n) {
        SamePrefix(c, steps, probe, n);
      }
    }
  }

  /** One more step: the first signal stays the first, and a signal of the last step is first after none. */
  lemma {:induction false} FirstAfterStep(c: Config, steps: seq<Step>, probe: Option<Stop>)
    requires steps != []
    ensures var k, front := |steps| - 1, steps[..|steps| - 1];
      && (CancelledFirst(c, steps, probe) <==>
            CancelledFirst(c, front, probe) || (QuietUntil(c, front, probe, k) && CancelsAt(steps, k)))
      && (ExhaustedFirst(c, steps, probe) <==>
            ExhaustedFirst(c, front, probe) || (QuietUntil(c, front, probe, k) && ExhaustsAt(c, steps, probe, k)))
      && (QuietUntil(c, steps, probe, |steps|) <==>
            QuietUntil(c, front, probe, k) && !CancelsAt(steps, k) && !ExhaustsAt(c, steps, probe, k))
  {
    var k := |steps| - 1;
    forall m: nat | m < k
      ensures CancelsAt(steps, m) == CancelsAt(steps[..k], m)
      ensures ExhaustsAt(c, steps, probe, m) == ExhaustsAt(c, steps[..k], probe, m)
      ensures QuietUntil(c, steps, probe, m) == QuietUntil(c, steps[..k], probe, m)
    {
      SamePrefix(c, steps, probe, m);
      QuietPrefix(c, steps, probe, m);
    }
    QuietPrefix(c, steps, probe, k);
  }

  lemma {:induction false} StopAfterStep(c: Config, s: State, step: Step, t: State)
    requires Apply(c, step, s) == Some(t)
    ensures t.progress.stop ==
              if s.progress.stop.Some? then s.progress.stop
              else if Cancels(step) then Some(CancelRequested)
              else if Exhausts(step, s.progress.pending) then Some(BudgetExhausted) else None
    ensures t.progress.itemBudget == (s.progress.itemBudget || (step.Settle? && step.overran))
  {
    match step
    case Dispatch(probe) => TwoStops(probe);
    case Settle(_, _, _, probe, _) => TwoStops(probe);
    case _ =>
  }

  lemma {:induction false} TwoStops(probe: Option<Stop>)
    ensures probe == None || probe == Some(CancelRequested) || probe == Some(BudgetExhausted)
  {
    if probe.Some? {
      assert probe.value.CancelRequested? || probe.value.BudgetExhausted?;
    }
  }

  lemma {:induction false} StopAtFirst(c: Config, probe: Option<Stop>)
    ensures Initial(c, probe).progress.stop ==
              if probe == Some(CancelRequested) then Some(CancelRequested)
              else if ExhaustedAtFirst(c, probe) then Some(BudgetExhausted) else None
    ensures !Initial(c, probe).progress.itemBudget
  {
    MissingIsExact(InputMap(c).Keys, |c.plan|, Missing(InputMap(c).Keys, |c.plan|));
    TwoStops(probe);
    var pending := Missing(InputMap(c).Keys, |c.plan|);
    assert pending != [] ==> pending[0] < |c.plan| && pending[0] !in InputMap(c);
  }

  /**
   Over every run the stop is the first signal: a cancellation exactly when that was the first, the budget
   exactly when that was, and none exactly when there was no signal.
   */
  lemma {:induction false} StopIsFirstSignal(c: Config, steps: seq<Step>, probe: Option<Stop>, s: State)
    requires Run(c, steps, Initial(c, probe)) == Some(s)
    ensures s.progress.stop == Some(CancelRequested) <==> CancelledFirst(c, steps, probe)
    ensures s.progress.stop == Some(BudgetExhausted) <==> ExhaustedFirst(c, steps, probe)
    ensures s.progress.stop == None <==> QuietUntil(c, steps, probe, |steps|)
  {
    if steps == [] {
      StopAtFirst(c, probe);
    } else {
      var front, k := steps[..|steps| - 1], |steps| - 1;
      var before := Run(c, front, Initial(c, probe)).value;
      StopIsFirstSignal(c, front, probe, before);
      FirstAfterStep(c, steps, probe);
      StopAfterStep(c, before, steps[k], s);
      assert ExhaustsAt(c, steps, probe, k) <==> Exhausts(steps[k], before.progress.pending);
    }
  }

  ghost predicate OverranAt(steps: seq<Step>, m: nat) {
    m < |steps| && steps[m].Settle? && steps[m].overran
  }

  /** An item overran its own budget exactly when some settled step said so. */
  lemma {:induction false} ItemBudgetIff(c: Config, steps: seq<Step>, probe: Option<Stop>, s: State)
    requires Run(c, steps, Initial(c, probe)) == Some(s)
    ensures s.progress.itemBudget <==> exists m :: OverranAt(steps, m)
  {
    if steps == [] {
      StopAtFirst(c, probe);
    } else {
      var front, k := steps[..|steps| - 1], |steps| - 1;
      var before := Run(c, front, Initial(c, probe)).value;
      ItemBudgetIff(c, front, probe, before);
      StopAfterStep(c, before, steps[k], s);
      assert forall m: nat | m < k :: OverranAt(steps, m) == OverranAt(front, m);
      assert OverranAt(steps, k) <==> steps[k].Settle? && steps[k].overran;
    }
  }

  /** The terminal summary's flags, read off the steps. */
  lemma {:induction false} SummaryFlags(c: Config, steps: seq<Step>, probe: Option<Stop>, s: State)
    requires Run(c, steps, Initial(c, probe)) == Some(s) && s.phase.Ended?
    ensures s.phase.summary.cancelled <==> CancelledFirst(c, steps, probe)
    ensures s.phase.summary.budgetExhausted <==>
              || ExhaustedFirst(c, steps, probe)
              || exists m :: OverranAt(steps, m)
  {
    StopIsFirstSignal(c, steps, probe, s);
    ItemBudgetIff(c, steps, probe, s);
    EndedSummary(c, steps, probe, s);
  }

  /**
   Every checkpoint a run adds is offered to the sink by the last step, after which nothing else was; it
   says "cancelled" exactly when closing the stream made it or the first signal so far was a cancellation.
   */
  lemma {:induction false} CheckpointFlag(c: Config, steps: seq<Step>, probe: Option<Stop>, before: State, s: State)
    requires steps != [] && Run(c, steps[..|steps| - 1], Initial(c, probe)) == Some(before)
    requires Run(c, steps, Initial(c, probe)) == Some(s) && s.persisted != before.persisted
    ensures |s.persisted| == |before.persisted| + 1 && s.persisted[..|before.persisted|] == before.persisted
    ensures s.persisted[|before.persisted|].cancelled <==>
              steps[|steps| - 1].Close? || CancelledFirst(c, steps, probe)
  {
    StopIsFirstSignal(c, steps, probe, s);
    AddsOne(c, before, steps[|steps| - 1], s);
  }

  lemma {:induction false} AddsOne(c: Config, s: State, step: Step, t: State)
    requires Apply(c, step, s) == Some(t) && t.persisted != s.persisted
    ensures |t.persisted| == |s.persisted| + 1 && t.persisted[..|s.persisted|] == s.persisted
    ensures t.persisted[|s.persisted|].cancelled <==> step.Close? || t.progress.stop == Some(CancelRequested)
  {
  }
}
