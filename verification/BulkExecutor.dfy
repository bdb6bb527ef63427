/**
 The synchronous bulk executor over its mutable progress. Each method is one step of the machine,
 so a stream is a run of it. Completion order, cancellation, the budget clock, a failing sink and a
 consumer that stops listening are nondeterministic choices.
 */
module BulkExecutor {
  import opened Wrappers
  import opened BulkMachine
  import opened BulkSafety
  import opened BulkResults
  import opened BulkSignals

  datatype PlanError = DuplicateItems(items: seq<Item>) | ForeignCheckpoint | TargetMismatch(index: nat)

  datatype Outcome = Going | ConsumerGone | SinkRaised

  datatype End = Completed(summary: Summary) | SinkFailed | ConsumerClosed

  /** The k-th receipt answers for the item the plan has at its index. */
  predicate Fits(cp: Checkpoint, k: nat)
    requires k < |cp.receipts|
  {
    cp.receipts[k].index < |cp.plan| && cp.receipts[k].receipt.target == cp.plan[cp.receipts[k].index]
  }

  /** `_validate_plan`: the first rule that fails, or `None`. */
  method ValidatePlan(plan: seq<Item>, checkpoint: Option<Checkpoint>) returns (error: Option<PlanError>)
    requires checkpoint.Some? ==> WellFormed(checkpoint.value)
    ensures error.None? <==> Accepts(plan, checkpoint)
    ensures error.None? <==>
              && (forall i, j | 0 <= i < j < |plan| :: plan[i] != plan[j])
              && (checkpoint.Some? ==>
                    && checkpoint.value.plan == plan
                    && forall k | 0 <= k < |checkpoint.value.receipts| :: Fits(checkpoint.value, k))
    ensures error.Some? && error.value.TargetMismatch? ==>
              checkpoint.Some? && checkpoint.value.plan == plan
              && exists k | 0 <= k < |checkpoint.value.receipts| ::
                   && checkpoint.value.receipts[k].index == error.value.index && !Fits(checkpoint.value, k)
                   && forall j | 0 <= j < k :: Fits(checkpoint.value, j)
    ensures error.Some? && error.value.DuplicateItems? <==> !DistinctItems(plan)
    ensures error == Some(ForeignCheckpoint) <==>
              DistinctItems(plan) && checkpoint.Some? && checkpoint.value.plan != plan
  {
    var seen: set<Item>, duplicates := {}, [];
    for i := 0 to |plan|
      invariant forall item :: item in seen <==> item in plan[..i]
      invariant duplicates == [] <==> DistinctItems(plan[..i])
    {
      DistinctExtends(plan, i);
      if plan[i] in seen {
        duplicates := duplicates + [plan[i]];
      } else {
        seen := seen + {plan[i]};
      }
    }
    assert plan[..|plan|] == plan;
    if duplicates != [] {
      return Some(DuplicateItems(duplicates));
    }
    if checkpoint.None? {
      return None;
    }
    if checkpoint.value.plan != plan {
      return Some(ForeignCheckpoint);
    }
    var receipts := checkpoint.value.receipts;
    for k := 0 to |receipts|
      invariant forall j | 0 <= j < k :: receipts[j].receipt.target == plan[receipts[j].index]
      invariant forall j | 0 <= j < k :: Fits(checkpoint.value, j)
    {
      if receipts[k].receipt.target != plan[receipts[k].index] {
        assert !Fits(checkpoint.value, k);
        return Some(TargetMismatch(receipts[k].index));
      }
    }
    error := None;
  }

  lemma {:induction false} DistinctExtends(plan: seq<Item>, i: nat)
    requires i < |plan|
    ensures DistinctItems(plan[..i + 1]) <==> DistinctItems(plan[..i]) && plan[i] !in plan[..i]
    ensures forall item :: item in plan[..i + 1] <==> item in plan[..i] || item == plan[i]
  {
    var front, longer := plan[..i], plan[..i + 1];
    assert longer == front + [plan[i]];
    if DistinctItems(longer) {
      assert forall j | 0 <= j < i :: longer[j] != longer[i];
      assert forall j, k | 0 <= j < k < i :: longer[j] != longer[k];
    }
  }

  lemma {:induction false} HandedOut(before: seq<ItemReceipt>, receipts: seq<ItemReceipt>, i: nat)
    requires i < |receipts|
    ensures receipts[i..][0] == receipts[i] && receipts[i..][1..] == receipts[i + 1..]
    ensures before + receipts[..i] + [receipts[i]] == before + receipts[..i + 1]
  {
  }

  lemma {:induction false} RemovingShrinks(s: set<nat>, i: nat)
    requires i in s
    ensures |s - {i}| == |s| - 1
  {
  }

  class Executor {
    const c: Config
    ghost const firstProbe: Option<Stop>

    // What surrounds the stream: each of these, if set, holds all along, and otherwise may fail at any point.
    const listens: bool  // the consumer goes on taking receipts
    const accepts: bool  // the sink takes every checkpoint
    const quiet: bool    // after the start nobody cancels and no budget runs out

    // `_BulkProgress`
    var completed: map<nat, Receipt>
    var pending: seq<nat>
    var stop: Option<Stop>
    var itemBudget: bool
    var dispatches: nat
    var nextEmit: nat
    var lastCount: int
    var lastStop: Option<Stop>

    var inFlight: set<nat>
    // What the consumer received and the sink accepted.
    var emitted: seq<ItemReceipt>
    var sink: seq<Checkpoint>

    ghost var state: State
    ghost var trace: seq<Step>

    ghost predicate Valid()
      reads this
    {
      && ValidConfig(c)
      && state.progress == Progress(completed, pending, stop, itemBudget, dispatches, nextEmit, lastCount, lastStop)
      && state.inFlight == inFlight && state.emitted == emitted && state.persisted == sink
      && Run(c, trace, Initial(c, firstProbe)) == Some(state)
    }

    ghost predicate In(phase: Phase)
      reads this
    {
      Valid() && state.phase == phase && state.outbox == []
    }

    /** The phases in which receipts are handed to the consumer. */
    ghost predicate Yielding()
      reads this
    {
      state.phase.Starting? || state.phase.Dispatching? || state.phase.Settling? || state.phase.Summarizing?
    }

    ghost method Take(step: Step)
      requires Run(c, trace, Initial(c, firstProbe)) == Some(state) && Apply(c, step, state).Some?
      modifies `state, `trace
      ensures Some(state) == Apply(c, step, old(state)) && trace == old(trace) + [step]
      ensures Run(c, trace, Initial(c, firstProbe)) == Some(state)
    {
      assert (trace + [step])[..|trace|] == trace;
      state := Apply(c, step, state).value;
      trace := trace + [step];
    }

    /** What a run knows of the indices in play. */
    lemma Reached()
      requires Valid()
      ensures Inv(c, state)
    {
      RunKeepsInv(c, trace, firstProbe);
    }

    lemma IndicesInRange()
      requires Valid()
      ensures nextEmit <= |c.plan| && forall i | i in completed || i in inFlight :: i < |c.plan|
    {
      Reached();
      InRange(c, state);
    }

    lemma BatchInFlight()
      requires Valid() && state.phase.Settling?
      ensures state.phase.done != {} && state.phase.done <= inFlight
    {
      Reached();
    }

    /** `_bulk_progress` for a plan and checkpoint that `_validate_plan` accepted. */
    constructor (c: Config, probe: Option<Stop>, listens: bool, accepts: bool, quiet: bool)
      requires ValidConfig(c)
      ensures this.listens == listens && this.accepts == accepts && this.quiet == quiet
      ensures this.c == c && Valid() && state == Initial(c, probe) && trace == [] && firstProbe == probe
    {
      this.c, this.listens, this.accepts, this.quiet := c, listens, accepts, quiet;
      firstProbe := probe;
      var input := InputMap(c);
      completed := input;
      pending := Missing(input.Keys, |c.plan|);
      stop := if Missing(input.Keys, |c.plan|) == [] && probe == Some(BudgetExhausted) then None else probe;
      itemBudget, dispatches, lastCount, lastStop := false, 0, -1, None;
      nextEmit := FirstGap(input.Keys, 0, |c.plan|);
      inFlight, emitted, sink := {}, [], [];
      state := Initial(c, probe);
      trace := [];
    }

    /** `ordered_receipts`: hand out the receipts that have become contiguous. */
    method OrderedReceipts() returns (receipts: seq<ItemReceipt>)
      requires nextEmit <= |c.plan| && forall i | i in completed :: i < |c.plan|
      modifies `nextEmit
      ensures nextEmit == FirstGap(completed.Keys, old(nextEmit), |c.plan|)
      ensures old(nextEmit) <= nextEmit && forall i | old(nextEmit) <= i < nextEmit :: i in completed
      ensures receipts == ReceiptsIn(completed, old(nextEmit), nextEmit)
    {
      receipts := [];
      while nextEmit in completed
        invariant old(nextEmit) <= nextEmit <= |c.plan|
        invariant forall i | old(nextEmit) <= i < nextEmit :: i in completed
        invariant receipts == ReceiptsIn(completed, old(nextEmit), nextEmit)
        invariant FirstGap(completed.Keys, old(nextEmit), |c.plan|) == FirstGap(completed.Keys, nextEmit, |c.plan|)
        decreases |c.plan| - nextEmit
      {
        receipts := receipts + [ItemReceipt(nextEmit, completed[nextEmit])];
        nextEmit := nextEmit + 1;
      }
    }

    /** Persistence order of a checkpoint: index by index. */
    method CheckpointReceipts() returns (receipts: seq<ItemReceipt>)
      ensures receipts == Sorted(completed, |c.plan|)
    {
      receipts := [];
      for i := 0 to |c.plan|
        invariant receipts == Sorted(completed, i)
      {
        if i in completed {
          receipts := receipts + [ItemReceipt(i, completed[i])];
        }
      }
    }

    /** Hand the consumer one receipt. */
    method YieldOne(receipt: ItemReceipt)
      requires Valid() && Yielding() && state.outbox != [] && state.outbox[0] == receipt
      modifies `emitted, `state, `trace
      ensures Valid() && state.phase == old(state.phase)
      ensures state.outbox == old(state.outbox)[1..] && emitted == old(emitted) + [receipt]
    {
      emitted := emitted + [receipt];
      Take(Yield);
    }

    /** The consumer's choice to take one more. */
    method Listening() returns (listening: bool)
      ensures listens ==> listening
    {
      var goesOn: bool := *;
      listening := listens || goesOn;
    }

    /** What a look at cancellation and budget finds. */
    method Probe() returns (probe: Option<Stop>)
      ensures quiet ==> probe.None?
    {
      var found: Option<Stop> := *;
      probe := if quiet then None else found;
    }

    /** Deliver what the last step put in the outbox, for as long as the consumer listens. */
    method Deliver(receipts: seq<ItemReceipt>) returns (listening: bool)
      requires Valid() && Yielding() && state.outbox == receipts
      modifies `emitted, `state, `trace
      ensures Valid() && state.phase == old(state.phase) && (listening ==> state.outbox == [])
      ensures old(emitted) <= emitted <= old(emitted) + receipts
      ensures listening ==> emitted == old(emitted) + receipts
      ensures listens ==> listening
    {
      var i := 0;
      listening := Listening();
      while i < |receipts| && listening
        invariant i <= |receipts| && Valid() && state.phase == old(state.phase)
        invariant listens ==> listening
        invariant state.outbox == receipts[i..] && emitted == old(emitted) + receipts[..i]
      {
        HandedOut(old(emitted), receipts, i);
        YieldOne(receipts[i]);
        i := i + 1;
        listening := Listening();
      }
      assert receipts[..|receipts|] == receipts;
    }

    /** `_next_dispatchable`: the next index to send, unless the bound or a stop forbids it. */
    method NextDispatchable(probe: Option<Stop>) returns (index: Option<nat>)
      modifies `pending, `stop
      ensures old(pending) == [] || |inFlight| >= c.parallelism || old(stop).Some? ==>
                index.None? && pending == old(pending) && stop == old(stop)
      ensures old(pending) != [] && |inFlight| < c.parallelism && old(stop).None? ==>
                && stop == probe
                && (probe.Some? ==> index.None? && pending == old(pending))
                && (probe.None? ==> index == Some(old(pending)[0]) && pending == old(pending)[1..])
    {
      if pending == [] || |inFlight| >= c.parallelism || stop.Some? {
        return None;
      }
      stop := probe;
      if stop.Some? {
        return None;
      }
      index := Some(pending[0]);
      pending := pending[1..];
    }

    /** One round of the dispatch loop. */
    method DispatchNext() returns (sent: bool)
      requires In(Dispatching)
      modifies `pending, `stop, `inFlight, `dispatches, `state, `trace
      ensures In(Dispatching)
      ensures sent ==> 2 * |pending| + |inFlight| < old(2 * |pending| + |inFlight|) && |pending| < old(|pending|)
      ensures !sent ==> Saturated(c, state) && pending == old(pending) && inFlight == old(inFlight)
      ensures quiet && old(stop).None? ==> stop.None?
    {
      var probe := Probe();
      ghost var saturated := Saturated(c, state);
      var index := NextDispatchable(probe);
      sent := index.Some?;
      if sent {
        inFlight := inFlight + {index.value};
        dispatches := dispatches + 1;
      }
      if !saturated {
        Take(Dispatch(probe));
      }
    }

    /** `_dispatch_available`: send until the bound, the plan or a stop says otherwise. */
    method DispatchAvailable()
      requires In(Dispatching)
      modifies `pending, `stop, `inFlight, `dispatches, `state, `trace
      ensures In(Dispatching) && Saturated(c, state)
      ensures pending == [] || |inFlight| >= c.parallelism || stop.Some?
      ensures quiet && old(stop).None? ==> stop.None?
      ensures 2 * |pending| + |inFlight| <= old(2 * |pending| + |inFlight|)
    {
      var sent := DispatchNext();
      while sent
        invariant In(Dispatching) && (!sent ==> Saturated(c, state))
        invariant quiet && old(stop).None? ==> stop.None?
        invariant 2 * |pending| + |inFlight| <= old(2 * |pending| + |inFlight|)
        decreases |pending|, sent
      {
        sent := DispatchNext();
      }
    }

    /** `_persist` when checkpoints are required and the sink takes it. */
    method Persist(cancelled: bool)
      modifies `sink
      ensures sink == if c.required then old(sink) + [BuildCheckpoint(c, completed, cancelled)] else old(sink)
    {
      if c.required {
        var receipts := CheckpointReceipts();
        sink := sink + [Checkpoint(c.plan, receipts, cancelled)];
      }
    }

    /** A stop once set stays; a cancellation stops, and so does the budget while items are still to dispatch. */
    ghost predicate StoppedBy(before: Option<Stop>, probe: Option<Stop>)
      reads `stop, `pending
    {
      stop == if before.Some? then before
              else if probe == Some(CancelRequested) then Some(CancelRequested)
              else if probe == Some(BudgetExhausted) && pending != [] then Some(BudgetExhausted) else None
    }

    /** `_record_completed`. */
    method RecordCompleted(index: nat, receipt: Receipt, overran: bool, probe: Option<Stop>)
      modifies `completed, `itemBudget, `stop
      ensures completed == old(completed)[index := receipt] && itemBudget == (old(itemBudget) || overran)
      ensures StoppedBy(old(stop), probe) && stop == Refreshed(old(stop), probe, pending != [])
    {
      TwoStops(probe);
      completed := completed[index := receipt];
      itemBudget := itemBudget || overran;
      if stop.None? {
        stop := if probe == Some(BudgetExhausted) && pending == [] then None else probe;
      }
    }

    /** `_record_sync_result`, for a sink that accepts. */
    method RecordSyncResult(index: nat, receipt: Receipt, overran: bool, probe: Option<Stop>)
      modifies `completed, `itemBudget, `stop, `sink, `lastCount, `lastStop
      ensures completed == old(completed)[index := receipt] && itemBudget == (old(itemBudget) || overran)
      ensures StoppedBy(old(stop), probe) && stop == Refreshed(old(stop), probe, pending != [])
      ensures lastCount == |completed| && lastStop == stop
      ensures sink == if c.required then old(sink) + [BuildCheckpoint(c, completed, stop == Some(CancelRequested))]
          else old(sink)
    {
      RecordCompleted(index, receipt, overran, probe);
      Persist(stop == Some(CancelRequested));
      lastCount, lastStop := |completed|, stop;
    }

    ghost method TakeSettle(index: nat, receipt: Receipt, overran: bool, probe: Option<Stop>)
      requires Run(c, trace, Initial(c, firstProbe)) == Some(state)
      requires state.phase.Settling? && state.outbox == [] && index in state.phase.done
      modifies `state, `trace
      ensures state == SettledOne(c, old(state), Settle(index, receipt, overran, probe, true))
      ensures Run(c, trace, Initial(c, firstProbe)) == Some(state)
    {
      Take(Settle(index, receipt, overran, probe, true));
    }

    /** One finished future: record it, persist it, then release what has become contiguous. */
    method RecordResult(done: set<nat>, index: nat, receipt: Receipt) returns (ready: seq<ItemReceipt>)
      requires In(Settling(done)) && index in done
      modifies this
      ensures Valid() && inFlight == old(inFlight) - {index} && pending == old(pending)
      ensures completed == old(completed)[index := receipt]
      ensures state.phase == (if done - {index} == {} then Dispatching else Settling(done - {index}))
      ensures state.outbox == ready && emitted == old(emitted)
      ensures quiet && old(stop).None? ==> stop.None?
    {
      IndicesInRange();
      BatchInFlight();
      var overran: bool := *;
      var probe := Probe();
      inFlight := inFlight - {index};
      RecordSyncResult(index, receipt, overran, probe);
      ready := OrderedReceipts();
      TakeSettle(index, receipt, overran, probe);
    }

    /** The same, when the sink raises: the receipt is settled in memory only and the stream breaks. */
    method RecordRefused(done: set<nat>, index: nat, receipt: Receipt)
      requires In(Settling(done)) && index in done && c.required
      modifies this
      ensures Valid() && state.phase == Broken({index}) && emitted == old(emitted) && sink == old(sink)
      ensures completed == old(completed)[index := receipt]
    {
      var overran: bool := *;
      var probe := Probe();
      inFlight := inFlight - {index};
      RecordCompleted(index, receipt, overran, probe);
      Take(Settle(index, receipt, overran, probe, false));
    }

    /** The sink's answer to one checkpoint. */
    method Accepted() returns (accepted: bool)
      ensures accepts ==> accepted
    {
      var taken: bool := *;
      accepted := accepts || taken;
    }

    /** Where settling one finished future leaves the loop. */
    ghost predicate After(outcome: Outcome, done: set<nat>)
      reads this
    {
      && Valid()
      && (outcome == Going ==> In(if done == {} then Dispatching else Settling(done)))
      && (outcome == ConsumerGone ==> state.phase.Dispatching? || state.phase.Settling?)
      && (outcome == SinkRaised ==> state.phase.Broken?)
    }

    method SettleNext(done: set<nat>, index: nat, receipt: Receipt) returns (outcome: Outcome)
      requires In(Settling(done)) && index in done
      modifies this
      ensures After(outcome, done - {index}) && completed == old(completed)[index := receipt]
      ensures outcome == Going ==> |inFlight| < old(|inFlight|) && pending == old(pending)
      ensures (listens ==> outcome != ConsumerGone) && (accepts || !c.required ==> outcome != SinkRaised)
      ensures outcome == Going && quiet && old(stop).None? ==> stop.None?
    {
      var accepted := Accepted();
      if c.required && !accepted {
        RecordRefused(done, index, receipt);
        return SinkRaised;
      }
      BatchInFlight();
      RemovingShrinks(inFlight, index);
      var ready := RecordResult(done, index, receipt);
      var listening := Deliver(ready);
      outcome := if listening then Going else ConsumerGone;
    }

    /** One batch of finished futures, in whatever order they are visited. */
    method SettleBatch(batch: set<nat>, exec: nat -> Receipt) returns (outcome: Outcome)
      requires In(Settling(batch)) && batch != {} && SettledBy(c, completed, exec)
      modifies this
      ensures After(outcome, {}) && SettledBy(c, completed, exec)
      ensures outcome == Going ==> |inFlight| < old(|inFlight|) && pending == old(pending)
      ensures (listens ==> outcome != ConsumerGone) && (accepts || !c.required ==> outcome != SinkRaised)
      ensures outcome == Going && quiet && old(stop).None? ==> stop.None?
    {
      var done := batch;
      outcome := Going;
      while done != {} && outcome == Going
        invariant outcome == Going ==> After(Going, done) && pending == old(pending)
        invariant outcome == Going ==> if done == batch then |inFlight| <= old(|inFlight|)
            else |inFlight| < old(|inFlight|)
        invariant outcome != Going ==> After(outcome, {})
        invariant (listens ==> outcome != ConsumerGone) && (accepts || !c.required ==> outcome != SinkRaised)
        invariant outcome == Going && quiet && old(stop).None? ==> stop.None?
        invariant SettledBy(c, completed, exec)
        decreases done
      {
        var index :| index in done;
        outcome := SettleNext(done, index, exec(index));
        done := done - {index};
      }
    }

    /** `_drain_sync`: the consumer stopped listening; settle what is in flight and persist it. */
    method Drain(exec: nat -> Receipt) returns (accepted: bool)
      requires Valid() && (state.phase.Dispatching? || state.phase.Settling?)
      modifies `completed, `inFlight, `sink, `state, `trace
      ensures Valid() && inFlight == {}
      ensures completed == old(completed) + map index | index in old(inFlight) :: exec(index)
      ensures accepted ==> state.phase == Closed
      ensures accepted && c.required ==> sink == old(sink) + [BuildCheckpoint(c, completed, true)]
      ensures !accepted ==> state.phase.Broken? && sink == old(sink)
      ensures accepts || !c.required ==> accepted
    {
      var results: map<nat, Receipt> := map index | index in inFlight :: exec(index);
      completed := completed + results;
      inFlight := {};
      accepted := Accepted();
      accepted := accepted || !c.required;
      if accepted {
        Persist(true);
      }
      Take(Close(results, accepted));
    }

    /** The last look sees a cancellation only. */
    ghost predicate StoppedLate(before: Option<Stop>, cancelled: bool)
      reads `stop
    {
      stop == if before.None? && cancelled then Some(CancelRequested) else before
    }

    /**
     `_finish_stop_state`: whether the stop is still missing from what the sink last accepted. If not,
     that checkpoint already holds every settled receipt with the right cancellation flag; if so, there
     is none, or it was built under another stop reason.
     */
    method FinishStopState(cancelled: bool) returns (unrecorded: bool)
      requires In(Finishing)
      modifies `stop
      ensures stop == Refreshed(old(stop), if cancelled then Some(CancelRequested) else None, false)
      ensures StoppedLate(old(stop), cancelled)
      ensures c.required ==> (unrecorded <==> stop.Some? && (sink == [] || lastStop != stop))
      ensures c.required && stop.Some? && !unrecorded ==> LastSays(c, sink, completed, stop)
      ensures c.required && sink != [] ==> LastSays(c, sink, completed, lastStop)
      ensures stop.None? ==> !unrecorded
    {
      SinkIsTallied();
      if stop.None? && cancelled {
        stop := Some(CancelRequested);
      }
      unrecorded := stop.Some? && (lastCount != |completed| || lastStop != stop);
    }

    lemma SinkIsTallied()
      requires In(Finishing)
      ensures c.required ==> (sink != [] <==> lastCount == |completed|)
      ensures c.required && sink != [] ==> LastSays(c, sink, completed, lastStop)
    {
      if c.required {
        FinishingIsRecorded(c, trace, firstProbe, state);
      }
    }

    ghost method TakeFinish(cancelled: bool, accepted: bool)
      requires Run(c, trace, Initial(c, firstProbe)) == Some(state) && state.phase.Finishing?
      modifies `state, `trace
      ensures state == Finished(c, old(state), Finish(cancelled, accepted))
      ensures Run(c, trace, Initial(c, firstProbe)) == Some(state)
    {
      Take(Finish(cancelled, accepted));
    }

    /** `_finish_progress`: a last look at cancellation, and a checkpoint if the stop is not yet recorded. */
    method FinishProgress(cancelled: bool, accepted: bool) returns (finished: bool, ready: seq<ItemReceipt>)
      requires In(Finishing)
      modifies `stop, `sink, `nextEmit, `state, `trace
      ensures Valid() && emitted == old(emitted)
      ensures finished ==> state.phase.Summarizing? && state.outbox == ready
      ensures !finished ==> state.phase.Broken?
      ensures accepted || !c.required ==> finished
      ensures old(stop).None? && !cancelled ==> stop.None?
    {
      IndicesInRange();
      SinkIsTallied();
      var unrecorded := FinishStopState(cancelled);
      finished, ready := !unrecorded || !c.required || accepted, [];
      if finished {
        if unrecorded {
          Persist(stop == Some(CancelRequested));
        }
        ready := OrderedReceipts();
      }
      TakeFinish(cancelled, accepted);
    }

    /** The loop of `stream`: dispatch, wait for some future, settle what finished. */
    method Loop(exec: nat -> Receipt) returns (outcome: Outcome)
      requires In(Dispatching) && SettledBy(c, completed, exec)
      modifies this
      ensures (if outcome == Going then In(Finishing) else After(outcome, {})) && SettledBy(c, completed, exec)
      ensures (listens ==> outcome != ConsumerGone) && (accepts || !c.required ==> outcome != SinkRaised)
      ensures outcome == Going && quiet && old(stop).None? ==> stop.None?
    {
      while pending != [] || inFlight != {}
        invariant In(Dispatching) && SettledBy(c, completed, exec)
        invariant quiet && old(stop).None? ==> stop.None?
        decreases 2 * |pending| + |inFlight|
      {
        DispatchAvailable();
        if inFlight == {} {
          break;
        }
        var ready: set<nat> :| ready <= inFlight && ready != {};
        Take(Await(ready));
        outcome := SettleBatch(ready, exec);
        if outcome != Going {
          return;
        }
      }
      Take(LeaveLoop);
      outcome := Going;
    }

    /** After the loop: a last checkpoint if needed, what is still contiguous, and the summary. */
    method Conclude() returns (end: End)
      requires In(Finishing)
      modifies `stop, `sink, `nextEmit, `emitted, `state, `trace
      ensures Valid() && (end.SinkFailed? ==> state.phase.Broken?) && (end.ConsumerClosed? ==> state.phase.Closed?)
      ensures end.Completed? ==> state.phase == Ended(end.summary) && end.summary == Summarized(c, state.progress)
      ensures completed == old(completed)
      ensures (listens ==> !end.ConsumerClosed?) && (accepts || !c.required ==> !end.SinkFailed?)
      ensures quiet && old(stop).None? ==> stop.None?
    {
      var late := Probe();
      var accepted := Accepted();
      var cancelled := late == Some(CancelRequested);
      var finished, ready := FinishProgress(cancelled, accepted);
      if !finished {
        return SinkFailed;
      }
      var listening := Deliver(ready);
      if !listening {
        Take(CloseQuietly);
        return ConsumerClosed;
      }
      var summary := Summarized(c, Progress(completed, pending, stop, itemBudget, dispatches, nextEmit, lastCount,
                                            lastStop));
      Take(Summarize);
      end := Completed(summary);
    }

    /** `stream`, up to its end or to the consumer's leaving. */
    method Stream(exec: nat -> Receipt) returns (end: End)
      requires Valid() && state == Initial(c, firstProbe) && emitted == []
      modifies this
      ensures Valid() && (end.Completed? <==> state.phase.Ended?)
      ensures (listens ==> !end.ConsumerClosed?) && (accepts || !c.required ==> !end.SinkFailed?)
      ensures end.Completed? && quiet && firstProbe.None? ==> EmittedWholePlan(end.summary)
      ensures end.Completed? && quiet && firstProbe.None? && InputAnswers(exec) ==>
                emitted == Sequentially(exec, |c.plan|)
      ensures end.Completed? ==> end.summary == Summarized(c, state.progress)
      ensures end.Completed? ==> (end.summary.cancelled <==> CancelledFirst(c, trace, firstProbe))
      ensures end.Completed? ==>
                (end.summary.budgetExhausted <==>
                  ExhaustedFirst(c, trace, firstProbe) || exists m :: OverranAt(trace, m))
      ensures stop.None? <==> QuietUntil(c, trace, firstProbe, |trace|)
      ensures end.Completed? && stop.None? ==> EmittedWholePlan(end.summary)
      ensures end.Completed? && stop.None? && InputAnswers(exec) ==> emitted == Sequentially(exec, |c.plan|)
      ensures SettledBy(c, completed, exec)
      ensures c.required ==> EmittedOnlyDurable()
      ensures c.required && !end.SinkFailed? ==> Durable(c, state) == completed
    {
      StartingIsContiguous();
      var initial := ReceiptsIn(completed, 0, nextEmit);
      var listening := Deliver(initial);
      if !listening {
        Take(CloseQuietly);
        end := ConsumerClosed;
      } else {
        Take(StartLoop);
        end := FromLoop(exec);
      }
      StopIsFirstSignal(c, trace, firstProbe, state);
      ItemBudgetIff(c, trace, firstProbe, state);
      NothingLost();
      WholePlanWhenUnstopped(end);
      AsIfSequential(end, exec);
      OnlyDurableWhenRequired();
    }

    /** The loop and what follows it. */
    method FromLoop(exec: nat -> Receipt) returns (end: End)
      requires In(Dispatching) && SettledBy(c, completed, exec)
      modifies this
      ensures SettledBy(c, completed, exec)
      ensures Valid() && (end.SinkFailed? ==> state.phase.Broken?) && (end.ConsumerClosed? ==> state.phase.Closed?)
      ensures end.Completed? ==> state.phase == Ended(end.summary) && end.summary == Summarized(c, state.progress)
      ensures (listens ==> !end.ConsumerClosed?) && (accepts || !c.required ==> !end.SinkFailed?)
      ensures end.Completed? && quiet && old(stop).None? ==> stop.None?
    {
      var outcome := Loop(exec);
      match outcome
      case Going =>
        end := Conclude();
      case ConsumerGone =>
        var accepted := Drain(exec);
        end := if accepted then ConsumerClosed else SinkFailed;
      case SinkRaised =>
        end := SinkFailed;
    }

    lemma StartingIsContiguous()
      requires Valid() && state == Initial(c, firstProbe)
      ensures forall i | 0 <= i < nextEmit :: i in completed
      ensures ReceiptsIn(completed, 0, nextEmit) == state.outbox
    {
      GapIsSettled(completed.Keys, 0, |c.plan|);
    }

    /** Every index of the plan settled, and handed out once in index order. */
    ghost predicate EmittedWholePlan(summary: Summary)
      reads this
    {
      && summary.settled == summary.total == |c.plan| == |emitted|
      && forall i | 0 <= i < |c.plan| :: i in completed && emitted[i] == ItemReceipt(i, completed[i])
    }

    ghost predicate EmittedOnlyDurable()
      reads this
    {
      forall k | 0 <= k < |emitted| :: k in Durable(c, state) && emitted[k] == ItemReceipt(k, Durable(c, state)[k])
    }

    lemma WholePlanWhenUnstopped(end: End)
      requires Valid() && (end.Completed? ==> state.phase.Ended? && end.summary == Summarized(c, state.progress))
      ensures end.Completed? && stop.None? ==> EmittedWholePlan(end.summary)
    {
      if end.Completed? && stop.None? {
        Reached();
        EndedEmitsAll(c, state);
        ReceiptsInAt(completed, |c.plan|);
        InRange(c, state);
        CoversPlan(c, completed);
      }
    }

    /** The input checkpoint, if any, holds what the items answer. */
    ghost predicate InputAnswers(exec: nat -> Receipt) {
      forall i | i in InputMap(c) :: InputMap(c)[i] == exec(i)
    }

    lemma AsIfSequential(end: End, exec: nat -> Receipt)
      requires end.Completed? && stop.None? ==> EmittedWholePlan(end.summary)
      requires Valid() && SettledBy(c, completed, exec)
      ensures end.Completed? && stop.None? && InputAnswers(exec) ==> emitted == Sequentially(exec, |c.plan|)
    {
      if end.Completed? && stop.None? && InputAnswers(exec) {
        Reached();
        KeepsInput(c, state);
        ReceiptsInAt(completed, |c.plan|);
        SameAsSequential(completed, exec, |c.plan|);
      }
    }

    lemma OnlyDurableWhenRequired()
      requires Valid()
      ensures c.required ==> EmittedOnlyDurable()
    {
      if c.required {
        forall k | 0 <= k < |emitted|
          ensures k in Durable(c, state) && emitted[k] == ItemReceipt(k, Durable(c, state)[k])
        {
          EmittedAfterAccepted(c, trace, firstProbe, state, k);
        }
      }
    }

    lemma NothingLost()
      requires Valid()
      ensures c.required && !state.phase.Broken? ==> Durable(c, state) == completed
    {
      Reached();
      MinusNothing(completed);
    }
  }
}
