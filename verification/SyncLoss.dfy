/**
 When a durable checkpoint names a shard that is not there, over every run from a fresh start: it is decided
 by the last step that wrote or removed that shard.
 */
module SyncLoss {
  import opened Wrappers
  import opened RowGroups
  import opened SyncProtocol
  import opened SyncSafety
  import opened SyncExactness

  // ---------------------------------------------------------------- what removes a shard

  /** The step clears the old shard so that a new one can move in. */
  ghost predicate Clears(w: World, step: Step, d: Destination, i: nat) {
    && step.ClearShard? && w.pass.Running? && w.pass.stage.Holding?
    && w.pass.context.destination == d && w.pass.stage.index == i
  }

  /** The step removes it after the pass found its source changed; the checkpoint stays. */
  ghost predicate Aborts(w: World, step: Step, d: Destination, i: nat) {
    && step.CleanUp? && w.pass.Running? && w.pass.stage.Mismatched?
    && w.pass.context.destination == d && i in step.removed
  }

  /** The step removes it after the pass has recorded its completion. */
  ghost predicate Discards(w: World, step: Step, d: Destination, i: nat) {
    && step.CleanUp? && w.pass.Running? && w.pass.stage.CleaningUp?
    && w.pass.context.destination == d && i in step.removed
  }

  ghost predicate Loses(w: World, step: Step, d: Destination, i: nat) {
    Clears(w, step, d, i) || Aborts(w, step, d, i)
  }

  datatype Touch = Untouched | Placed | LostAt(position: nat) | Discarded

  /** The last thing that happened to the shard. */
  ghost function LastTouch(steps: seq<Step>, w0: World, d: Destination, i: nat): Touch
    requires Run(steps, w0).Some?
  {
    if steps == [] then Untouched
    else
      var front, last := steps[..|steps| - 1], steps[|steps| - 1];
      TouchBy(LastTouch(front, w0, d, i), |front|, Run(front, w0).value, last, d, i)
  }

  ghost function TouchBy(before: Touch, position: nat, w: World, step: Step, d: Destination, i: nat): Touch {
    if WritesShard(w, step, d, i) then Placed
    else if Loses(w, step, d, i) then LostAt(position)
    else if Discards(w, step, d, i) then Discarded
    else before
  }

  ghost predicate Present(w: World, w0: World, d: Destination, i: nat, touch: Touch) {
    (d, i) in w.disk.shards <==> touch.Placed? || (touch.Untouched? && (d, i) in w0.disk.shards)
  }

  lemma {:induction false} StepKeepsPresent(w0: World, w: World, step: Step, w': World, d: Destination, i: nat,
                                            touch: Touch, position: nat)
    requires Present(w, w0, d, i, touch) && Apply(step, w) == Some(w')
    ensures Present(w', w0, d, i, TouchBy(touch, position, w, step, d, i))
  {
  }

  lemma {:induction false} PresentIff(steps: seq<Step>, w0: World, d: Destination, i: nat)
    requires Run(steps, w0).Some?
    ensures Present(Run(steps, w0).value, w0, d, i, LastTouch(steps, w0, d, i))
  {
    if steps != [] {
      var front, last := steps[..|steps| - 1], steps[|steps| - 1];
      PresentIff(front, w0, d, i);
      StepKeepsPresent(w0, Run(front, w0).value, last, Run(steps, w0).value, d, i, LastTouch(front, w0, d, i), |front|);
    }
  }

  // ---------------------------------------------------------------- counted shards were placed

  /** A shard that counts was placed, and not given up after a completion since. */
  ghost predicate WasStaged(touch: Touch) {
    touch.Placed? || touch.LostAt?
  }

  /** The shard is among the first `k` of the destination. */
  ghost predicate Counts(at: Destination, k: nat, d: Destination, i: nat) {
    at == d && i < k
  }

  /** What the record and the running pass count has been staged. */
  ghost predicate Counted(w: World, d: Destination, i: nat, touch: Touch) {
    && (w.disk.store.Some? && w.disk.store.value.InProgress? ==>
          Counts(w.disk.store.value.destination, w.disk.store.value.cursor.nextBatch, d, i) ==> WasStaged(touch))
    && (w.pass.Running? ==> CountedBy(w, w.pass.context, w.pass.stage, d, i, touch))
  }

  ghost predicate CountedBy(w: World, c: Context, stage: Stage, d: Destination, i: nat, touch: Touch) {
    match stage
    case Loaded => c.checkpoint.Some? && Counts(c.destination, c.checkpoint.value.nextBatch, d, i) ==> WasStaged(touch)
    case Streaming(_, next) => Counts(c.destination, next.nextBatch, d, i) ==> WasStaged(touch)
    case Holding(_, index, _, after) =>
      after.nextBatch == index + 1 && (Counts(c.destination, index, d, i) ==> WasStaged(touch))
    case Cleared(_, index, _, after) =>
      after.nextBatch == index + 1 && (Counts(c.destination, index, d, i) ==> WasStaged(touch))
    case Written(_, after) => Counts(c.destination, after.nextBatch, d, i) ==> WasStaged(touch)
    case CleaningUp(_) => w.disk.store.Some? && w.disk.store.value.Completed?
    case _ => true
  }

  lemma {:induction false} StepKeepsCounted(w: World, step: Step, w': World, d: Destination, i: nat, touch: Touch,
                                            position: nat)
    requires Counted(w, d, i, touch) && Apply(step, w) == Some(w')
    ensures Counted(w', d, i, TouchBy(touch, position, w, step, d, i))
  {
    if step.Begin? || step.Open? {
      LoadKeepsCounted(w, step, w', d, i, touch, position);
    }
  }

  lemma {:induction false} LoadKeepsCounted(w: World, step: Step, w': World, d: Destination, i: nat, touch: Touch,
                                            position: nat)
    requires Counted(w, d, i, touch) && (step.Begin? || step.Open?) && Apply(step, w) == Some(w')
    ensures Counted(w', d, i, TouchBy(touch, position, w, step, d, i))
  {
  }

  lemma {:induction false} RunKeepsCounted(steps: seq<Step>, w0: World, d: Destination, i: nat)
    requires Fresh(w0) && Run(steps, w0).Some?
    ensures Counted(Run(steps, w0).value, d, i, LastTouch(steps, w0, d, i))
  {
    if steps != [] {
      var front, last := steps[..|steps| - 1], steps[|steps| - 1];
      RunKeepsCounted(front, w0, d, i);
      StepKeepsCounted(Run(front, w0).value, last, Run(steps, w0).value, d, i, LastTouch(front, w0, d, i), |front|);
    }
  }

  // ---------------------------------------------------------------- by position

  ghost predicate LosesAt(steps: seq<Step>, w0: World, d: Destination, i: nat, m: nat) {
    m < |steps| && Run(steps[..m], w0).Some? && Loses(Run(steps[..m], w0).value, steps[m], d, i)
  }

  ghost predicate NotWrittenAfter(steps: seq<Step>, w0: World, d: Destination, i: nat, m: nat) {
    forall n: nat | m < n :: !WrittenAt(steps, w0, d, i, n)
  }

  /** The position recorded is that of the loss, and nothing was written after it. */
  lemma {:induction false} LostAtPosition(steps: seq<Step>, w0: World, d: Destination, i: nat)
    requires Run(steps, w0).Some? && LastTouch(steps, w0, d, i).LostAt?
    ensures var m := LastTouch(steps, w0, d, i).position;
      LosesAt(steps, w0, d, i, m) && NotWrittenAfter(steps, w0, d, i, m)
  {
    var k := |steps| - 1;
    var front := steps[..k];
    var m := LastTouch(steps, w0, d, i).position;
    if !Loses(Run(front, w0).value, steps[k], d, i) {
      LostAtPosition(front, w0, d, i);
      forall n: nat | n < k
        ensures steps[..n] == front[..n] && WrittenAt(steps, w0, d, i, n) == WrittenAt(front, w0, d, i, n)
      {
        assert steps[..n] == front[..n];
      }
      assert !WrittenAt(steps, w0, d, i, k);
    }
  }

  /** A shard that was lost and not written since is not there. */
  lemma {:induction false} LostStaysLost(steps: seq<Step>, w0: World, d: Destination, i: nat, m: nat)
    requires Run(steps, w0).Some? && LosesAt(steps, w0, d, i, m) && NotWrittenAfter(steps, w0, d, i, m)
    ensures !LastTouch(steps, w0, d, i).Placed? && !LastTouch(steps, w0, d, i).Untouched?
  {
    var k := |steps| - 1;
    var front := steps[..k];
    if m < k {
      forall n: nat | n < k
        ensures steps[..n] == front[..n] && WrittenAt(steps, w0, d, i, n) == WrittenAt(front, w0, d, i, n)
      {
        assert steps[..n] == front[..n];
      }
      LostStaysLost(front, w0, d, i, m);
      assert !WrittenAt(steps, w0, d, i, k);
    }
  }

  /**
   Whatever the sources and digests do: a durable checkpoint lacks a shard it counts exactly when some step
   cleared it for a new one, or removed it after its pass found the source changed, and none wrote it since.
   */
  lemma {:induction false} CheckpointLacksShardIff(steps: seq<Step>, w0: World, w: World, d: Destination, i: nat)
    requires Fresh(w0) && Run(steps, w0) == Some(w)
    requires w.disk.store.Some? && w.disk.store.value.InProgress? && w.disk.store.value.destination == d
    requires i < w.disk.store.value.cursor.nextBatch
    ensures (d, i) !in w.disk.shards <==>
              exists m: nat :: LosesAt(steps, w0, d, i, m) && NotWrittenAfter(steps, w0, d, i, m)
  {
    PresentIff(steps, w0, d, i);
    RunKeepsCounted(steps, w0, d, i);
    if (d, i) !in w.disk.shards {
      LostAtPosition(steps, w0, d, i);
    }
    if m: nat :| LosesAt(steps, w0, d, i, m) && NotWrittenAfter(steps, w0, d, i, m) {
      LostStaysLost(steps, w0, d, i, m);
    }
  }

  // ---------------------------------------------------------------- with the source fixed

  lemma {:induction false} StaysMatched(w: World, step: Step, w': World)
    requires Known(w) && w.seen == {w.source} && Apply(step, w) == Some(w')
    requires w.pass.Running? ==> !w.pass.stage.Mismatched?
    ensures w'.pass.Running? ==> !w'.pass.stage.Mismatched?
  {
  }

  lemma {:induction false} NeverMismatched(steps: seq<Step>, w0: World, w: World)
    requires Fresh(w0) && FixedSource(steps) && Run(steps, w0) == Some(w)
    ensures w.pass.Running? ==> !w.pass.stage.Mismatched?
  {
    if steps != [] {
      var front := steps[..|steps| - 1];
      var before := Run(front, w0).value;
      NeverMismatched(front, w0, before);
      FixedIsKnown(front, w0, before);
      StaysMatched(before, steps[|steps| - 1], w);
    }
  }

  lemma {:induction false} FixedIsKnown(steps: seq<Step>, w0: World, w: World)
    requires Fresh(w0) && FixedSource(steps) && Run(steps, w0) == Some(w)
    ensures Known(w) && w.seen == {w.source}
  {
    FixedSourceIsDisciplined(steps, w0);
  }

  lemma {:induction false} PrefixRuns(steps: seq<Step>, w0: World, m: nat)
    requires Run(steps, w0).Some? && m <= |steps|
    ensures Run(steps[..m], w0).Some?
    ensures m < |steps| ==> Apply(steps[m], Run(steps[..m], w0).value).Some?
    ensures m < |steps| ==> Run(steps[..m + 1], w0) == Apply(steps[m], Run(steps[..m], w0).value)
  {
    if m < |steps| {
      var front := steps[..|steps| - 1];
      if m < |front| {
        PrefixRuns(front, w0, m);
        assert front[..m] == steps[..m] && front[..m + 1] == steps[..m + 1];
      } else {
        assert steps[..m] == front && steps[..m + 1] == steps;
      }
    } else {
      assert steps[..m] == steps;
    }
  }

  /** A pass was cut off right after clearing the shard. */
  ghost predicate CutOffAt(steps: seq<Step>, w0: World, d: Destination, i: nat, m: nat) {
    && m + 1 < |steps| && steps[m + 1].Crash?
    && Run(steps[..m], w0).Some? && Clears(Run(steps[..m], w0).value, steps[m], d, i)
  }

  lemma {:induction false} ClearingRuns(w: World, step: Step, w': World, d: Destination, i: nat)
    requires Clears(w, step, d, i) && Apply(step, w) == Some(w')
    ensures w'.pass.Running? && w'.pass.stage.Cleared? && w'.pass.context.destination == d && w'.pass.stage.index == i
  {
  }

  lemma {:induction false} AfterClearing(w: World, step: Step, d: Destination, i: nat)
    requires w.pass.Running? && w.pass.stage.Cleared? && w.pass.context.destination == d && w.pass.stage.index == i
    requires Apply(step, w).Some?
    ensures WritesShard(w, step, d, i) || step.Crash? || step.ChangeSource?
  {
  }

  lemma {:induction false} OnlyCleared(steps: seq<Step>, w0: World, d: Destination, i: nat, m: nat)
    requires Fresh(w0) && FixedSource(steps) && LosesAt(steps, w0, d, i, m)
    ensures Clears(Run(steps[..m], w0).value, steps[m], d, i)
  {
    NeverMismatched(steps[..m], w0, Run(steps[..m], w0).value);
  }

  lemma {:induction false} OnlyCutOff(steps: seq<Step>, w0: World, d: Destination, i: nat, m: nat, w': World)
    requires FixedSource(steps) && Run(steps, w0).Some? && Run(steps, w0).value.pass.Idle? && m < |steps|
    requires Run(steps[..m + 1], w0) == Some(w') && w'.pass.Running? && w'.pass.stage.Cleared?
    requires w'.pass.context.destination == d && w'.pass.stage.index == i && NotWrittenAfter(steps, w0, d, i, m)
    ensures m + 1 < |steps| && steps[m + 1].Crash?
  {
    assert steps[..|steps|] == steps;
    if m + 1 < |steps| {
      PrefixRuns(steps, w0, m + 1);
      AfterClearing(w', steps[m + 1], d, i);
      assert !WrittenAt(steps, w0, d, i, m + 1);
    }
  }

  lemma {:induction false} LossIsCutOff(steps: seq<Step>, w0: World, d: Destination, i: nat, m: nat)
    requires Fresh(w0) && FixedSource(steps) && Run(steps, w0).Some? && Run(steps, w0).value.pass.Idle?
    requires LosesAt(steps, w0, d, i, m) && NotWrittenAfter(steps, w0, d, i, m)
    ensures CutOffAt(steps, w0, d, i, m)
  {
    OnlyCleared(steps, w0, d, i, m);
    PrefixRuns(steps, w0, m);
    PrefixRuns(steps, w0, m + 1);
    var w' := Run(steps[..m + 1], w0).value;
    ClearingRuns(Run(steps[..m], w0).value, steps[m], w', d, i);
    OnlyCutOff(steps, w0, d, i, m, w');
  }

  /**
   With the source fixed, between passes: a durable checkpoint lacks a shard exactly when a pass was cut off
   right after clearing it and none has written it since.
   */
  lemma {:induction false} FixedSourceLacksShardIff(steps: seq<Step>, w0: World, w: World, d: Destination, i: nat)
    requires Fresh(w0) && FixedSource(steps) && Run(steps, w0) == Some(w) && w.pass.Idle?
    requires w.disk.store.Some? && w.disk.store.value.InProgress? && w.disk.store.value.destination == d
    requires i < w.disk.store.value.cursor.nextBatch
    ensures (d, i) !in w.disk.shards <==>
              exists m: nat :: CutOffAt(steps, w0, d, i, m) && NotWrittenAfter(steps, w0, d, i, m)
  {
    CheckpointLacksShardIff(steps, w0, w, d, i);
    if m: nat :| LosesAt(steps, w0, d, i, m) && NotWrittenAfter(steps, w0, d, i, m) {
      LossIsCutOff(steps, w0, d, i, m);
    }
    if m: nat :| CutOffAt(steps, w0, d, i, m) && NotWrittenAfter(steps, w0, d, i, m) {
      assert LosesAt(steps, w0, d, i, m);
    }
  }
}
