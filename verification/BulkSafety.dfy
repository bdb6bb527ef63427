/** What every run of the bulk executor keeps, whatever the completion order, stops and crashes. */
module BulkSafety {
  import opened Wrappers
  import opened BulkMachine

  // ---------------------------------------------------------------- what the checkpoint sink holds

  function Lost(s: State): set<nat> {
    if s.phase.Broken? then s.phase.lost else {}
  }

  /** The receipts a resumption would start from: the last accepted checkpoint, else the input's. */
  function Durable(c: Config, s: State): map<nat, Receipt> {
    if s.persisted == [] then InputMap(c) else Settled(s.persisted[|s.persisted| - 1].receipts)
  }

  ghost function MissingIn(c: Config): seq<nat> {
    Missing(InputMap(c).Keys, |c.plan|)
  }

  ghost function Firsts(m: seq<nat>, k: nat): set<nat>
    requires k <= |m|
  {
    if k == 0 then {} else Firsts(m, k - 1) + {m[k - 1]}
  }

  // ---------------------------------------------------------------- the invariant

  /** Completed, pending and in-flight partition the plan; dispatch follows the missing indices in order. */
  ghost predicate Partitioned(c: Config, s: State) {
    && InOrder(MissingIn(c), s.progress.pending, s.dispatched, s.progress.dispatches)
    && Covers(s.progress.completed, s.inFlight, InputMap(c), Firsts(MissingIn(c), s.progress.dispatches),
              s.progress.dispatches)
  }

  ghost predicate InOrder(m: seq<nat>, pending: seq<nat>, dispatched: seq<nat>, d: nat)
    ensures InOrder(m, pending, dispatched, d) ==> d <= |m|
  {
    d <= |m| && pending == m[d..] && dispatched == m[..d]
  }

  /** What is settled or in flight is the input's part of the plan and what was dispatched. */
  ghost predicate Covers(completed: map<nat, Receipt>, inFlight: set<nat>, input: map<nat, Receipt>, sent: set<nat>,
                         d: nat) {
    && (forall i {:trigger i in inFlight} {:trigger i in completed} {:trigger i in sent} ::
          i in completed || i in inFlight <==> i in input || i in sent)
    && (forall i | i in inFlight :: i !in completed)
    && |completed| + |inFlight| == |input| + d
    && (forall i | i in input :: i in completed && completed[i] == input[i])
  }

  ghost predicate Bounded(c: Config, s: State) {
    && |s.inFlight| + |Lost(s)| <= c.parallelism
    && (s.phase.Settling? ==> s.phase.done != {} && s.phase.done <= s.inFlight)
    && (s.phase.Starting? || s.phase.Finishing? || s.phase.Summarizing? || s.phase.Ended? ==> s.inFlight == {})
    && (s.phase.Finishing? || s.phase.Summarizing? || s.phase.Ended? ==>
        s.progress.pending == [] || s.progress.stop.Some?)
    && Lost(s) <= s.progress.completed.Keys
  }

  /** What was handed out is the contiguous settled prefix, in index order, each receipt once. */
  ghost predicate EmitsInOrder(c: Config, s: State) {
    var p := s.progress;
    && p.nextEmit <= |c.plan|
    && (forall i | 0 <= i < p.nextEmit :: i in p.completed && i !in Lost(s))
    && (!s.phase.Closed? && !s.phase.Broken? ==> p.nextEmit == |c.plan| || p.nextEmit !in p.completed)
    && s.emitted + s.outbox == ReceiptsIn(p.completed, 0, p.nextEmit)
    && (s.phase.Ended? || s.phase.Finishing? ==> s.outbox == [])
  }

  /** With checkpoints required, the sink holds exactly what is settled, bar what broke the run. */
  ghost predicate SinkHolds(c: Config, s: State) {
    c.required ==> Durable(c, s) == s.progress.completed - Lost(s)
  }

  ghost predicate SinkWellFormed(c: Config, s: State) {
    forall i | 0 <= i < |s.persisted| :: s.persisted[i].plan == c.plan && WellFormed(s.persisted[i])
  }

  /** The last checkpoint carries the cancellation flag of the stop reason it was built under. */
  ghost predicate SinkFlag(c: Config, s: State) {
    c.required && !s.phase.Closed? && !s.phase.Broken? ==>
      var p := s.progress;
      if s.phase.Summarizing? || s.phase.Ended? then p.stop.Some? ==> Flagged(s, p.stop)
      else p.lastCount >= 0 ==> Flagged(s, p.lastStop)
  }

  ghost predicate Flagged(s: State, stop: Option<Stop>) {
    s.persisted != [] && s.persisted[|s.persisted| - 1].cancelled == (stop == Some(CancelRequested))
  }

  ghost predicate Checkpointed(c: Config, s: State) {
    SinkHolds(c, s) && SinkWellFormed(c, s) && SinkFlag(c, s)
  }

  ghost predicate Inv(c: Config, s: State) {
    Partitioned(c, s) && Bounded(c, s) && EmitsInOrder(c, s) && Checkpointed(c, s)
  }

  // ---------------------------------------------------------------- facts about the pure parts

  lemma {:induction false} MissingIsExact(settled: set<nat>, n: nat, m: seq<nat>)
    requires m == Missing(settled, n)
    ensures forall k | 0 <= k < |m| :: m[k] < n && m[k] !in settled
    ensures forall i | 0 <= i < n && i !in settled :: i in m
    ensures forall j, k | 0 <= j < k < |m| :: m[j] < m[k]
  {
    if n > 0 {
      MissingIsExact(settled, n - 1, Missing(settled, n - 1));
    }
  }

  lemma {:induction false} FirstsAreBelow(m: seq<nat>, d: nat)
    requires d <= |m| && forall j, k | 0 <= j < k < |m| :: m[j] < m[k]
    ensures forall x | x in Firsts(m, d) :: x in m
    ensures d < |m| ==> m[d] !in Firsts(m, d)
  {
    if d > 0 {
      FirstsAreBelow(m, d - 1);
      if d < |m| {
        FirstsMiss(m, d, d);
      }
    }
  }

  lemma {:induction false} FirstsMiss(m: seq<nat>, d: nat, k: nat)
    requires d <= k < |m| && forall j, l | 0 <= j < l < |m| :: m[j] < m[l]
    ensures m[k] !in Firsts(m, d)
  {
    if d > 0 {
      FirstsMiss(m, d - 1, k);
    }
  }

  lemma {:induction false} MinusNothing(m: map<nat, Receipt>)
    ensures m - {} == m
  {
  }

  lemma {:induction false} MinusNew(m: map<nat, Receipt>, i: nat, r: Receipt)
    requires i !in m
    ensures m[i := r] - {i} == m
  {
  }

  lemma {:induction false} SortedIsExact(completed: map<nat, Receipt>, n: nat, r: seq<ItemReceipt>)
    requires r == Sorted(completed, n)
    ensures forall k | 0 <= k < |r| ::
              r[k].index < n && r[k].index in completed && r[k].receipt == completed[r[k].index]
    ensures forall j, k | 0 <= j < k < |r| :: r[j].index < r[k].index
    ensures forall i | i in Settled(r) :: i < n && i in completed && Settled(r)[i] == completed[i]
    ensures forall i | i in completed && i < n :: i in Settled(r)
  {
    if n > 0 {
      SortedIsExact(completed, n - 1, Sorted(completed, n - 1));
      if n - 1 in completed {
        assert r[..|r| - 1] == Sorted(completed, n - 1);
      }
    }
  }

  /** A checkpoint that is built is well formed and holds exactly the settled receipts. */
  lemma {:induction false} BuiltCheckpoint(c: Config, completed: map<nat, Receipt>, cancelled: bool)
    requires forall i | i in completed :: i < |c.plan|
    ensures WellFormed(BuildCheckpoint(c, completed, cancelled))
    ensures Settled(BuildCheckpoint(c, completed, cancelled).receipts) == completed
  {
    SortedIsExact(completed, |c.plan|, Sorted(completed, |c.plan|));
  }

  lemma {:induction false} SettledKeys(receipts: seq<ItemReceipt>)
    ensures forall i | i in Settled(receipts) ::
              exists k :: 0 <= k < |receipts| && receipts[k].index == i && Settled(receipts)[i] == receipts[k].receipt
    ensures forall k | 0 <= k < |receipts| :: receipts[k].index in Settled(receipts)
  {
    if receipts != [] {
      var front := receipts[..|receipts| - 1];
      SettledKeys(front);
      forall i | i in Settled(receipts)
        ensures exists k :: 0 <= k < |receipts| && receipts[k].index == i && Settled(receipts)[i] == receipts[k].receipt
      {
        if i == receipts[|receipts| - 1].index {
          assert receipts[|receipts| - 1].index == i;
        } else {
          var k :| 0 <= k < |front| && front[k].index == i && Settled(front)[i] == front[k].receipt;
          assert receipts[k] == front[k];
        }
      }
    }
  }

  lemma {:induction false} InputInRange(c: Config)
    requires ValidConfig(c)
    ensures forall i | i in InputMap(c) :: i < |c.plan|
  {
    if c.input.Some? {
      SettledKeys(c.input.value.receipts);
    }
  }

  lemma {:induction false} ReceiptsInSame(a: map<nat, Receipt>, b: map<nat, Receipt>, lo: nat, hi: nat)
    requires forall i | lo <= i < hi :: i in a && i in b && a[i] == b[i]
    ensures ReceiptsIn(a, lo, hi) == ReceiptsIn(b, lo, hi)
    decreases hi
  {
    if lo < hi {
      ReceiptsInSame(a, b, lo, hi - 1);
    }
  }

  lemma {:induction false} ReceiptsInSplit(a: map<nat, Receipt>, lo: nat, mid: nat, hi: nat)
    requires lo <= mid <= hi && forall i | lo <= i < hi :: i in a
    ensures ReceiptsIn(a, lo, hi) == ReceiptsIn(a, lo, mid) + ReceiptsIn(a, mid, hi)
    decreases hi
  {
    if mid < hi {
      ReceiptsInSplit(a, lo, mid, hi - 1);
    }
  }

  lemma {:induction false} ReceiptsInAt(a: map<nat, Receipt>, hi: nat)
    requires forall i | 0 <= i < hi :: i in a
    ensures |ReceiptsIn(a, 0, hi)| == hi
    ensures forall i | 0 <= i < hi :: ReceiptsIn(a, 0, hi)[i] == ItemReceipt(i, a[i])
  {
    if hi > 0 {
      ReceiptsInAt(a, hi - 1);
    }
  }

  // ---------------------------------------------------------------- each step keeps the invariant

  /** Only plan indices are ever settled or in flight. */
  lemma {:induction false} InRange(c: Config, s: State)
    requires ValidConfig(c) && Partitioned(c, s)
    ensures forall i | i in s.progress.completed || i in s.inFlight :: i < |c.plan|
  {
    InputInRange(c);
    MissingIsExact(InputMap(c).Keys, |c.plan|, MissingIn(c));
    FirstsAreBelow(MissingIn(c), s.progress.dispatches);
    forall i | i in s.progress.completed || i in s.inFlight ensures i < |c.plan| {
    }
  }

  lemma {:induction false} InitialInv(c: Config, probe: Option<Stop>)
    requires ValidConfig(c)
    ensures Inv(c, Initial(c, probe))
  {
    var s := Initial(c, probe);
    GapIsSettled(InputMap(c).Keys, 0, |c.plan|);
    assert InputMap(c) - {} == InputMap(c);
    assert Firsts(MissingIn(c), 0) == {};
  }

  /** The next missing index is not in the input and has not been dispatched. */
  lemma {:induction false} NextIsNew(c: Config, d: nat)
    requires d < |MissingIn(c)|
    ensures MissingIn(c)[d] !in InputMap(c) && MissingIn(c)[d] !in Firsts(MissingIn(c), d)
  {
    MissingIsExact(InputMap(c).Keys, |c.plan|, MissingIn(c));
    FirstsAreBelow(MissingIn(c), d);
  }

  lemma {:induction false} CoversDispatched(completed: map<nat, Receipt>, inFlight: set<nat>, input: map<nat, Receipt>,
                                            m: seq<nat>, d: nat)
    requires d < |m| && m[d] !in input && m[d] !in Firsts(m, d)
    requires Covers(completed, inFlight, input, Firsts(m, d), d)
    ensures m[d] !in inFlight && Covers(completed, inFlight + {m[d]}, input, Firsts(m, d + 1), d + 1)
  {
  }

  lemma {:induction false} CoversSettled(completed: map<nat, Receipt>, inFlight: set<nat>, input: map<nat, Receipt>,
                                         sent: set<nat>, d: nat,
                                         i: nat, r: Receipt)
    requires Covers(completed, inFlight, input, sent, d) && i in inFlight
    ensures Covers(completed[i := r], inFlight - {i}, input, sent, d)
  {
  }

  lemma {:induction false} CoversDrained(completed: map<nat, Receipt>, inFlight: set<nat>, input: map<nat, Receipt>,
                                         sent: set<nat>, d: nat,
                                         results: map<nat, Receipt>)
    requires Covers(completed, inFlight, input, sent, d) && results.Keys == inFlight
    ensures Covers(completed + results, {}, input, sent, d)
  {
    Disjoint(completed, results);
  }

  lemma {:induction false} InOrderAdvances(m: seq<nat>, pending: seq<nat>, dispatched: seq<nat>, d: nat)
    requires InOrder(m, pending, dispatched, d) && pending != []
    ensures pending[0] == m[d] && InOrder(m, pending[1..], dispatched + [pending[0]], d + 1)
  {
  }

  lemma {:induction false} DispatchKeepsParts(c: Config, s: State, step: Step, t: State)
    requires Partitioned(c, s) && step.Dispatch? && Apply(c, step, s) == Some(t)
    ensures Partitioned(c, t)
  {
    if step.probe.None? {
      var m, d := MissingIn(c), s.progress.dispatches;
      InOrderAdvances(m, s.progress.pending, s.dispatched, d);
      NextIsNew(c, d);
      CoversDispatched(s.progress.completed, s.inFlight, InputMap(c), m, d);
      assert t.progress.completed == s.progress.completed && t.inFlight == s.inFlight + {m[d]};
      assert t.progress.dispatches == d + 1;
    }
  }

  lemma {:induction false} DispatchKeepsBound(c: Config, s: State, step: Step, t: State)
    requires Bounded(c, s) && step.Dispatch? && Apply(c, step, s) == Some(t)
    ensures Bounded(c, t)
  {
  }

  lemma {:induction false} DispatchKeepsLogs(c: Config, s: State, step: Step, t: State)
    requires EmitsInOrder(c, s) && Checkpointed(c, s) && step.Dispatch? && Apply(c, step, s) == Some(t)
    ensures EmitsInOrder(c, t) && Checkpointed(c, t)
  {
  }

  lemma {:induction false} OrderedEmits(c: Config, s: State, t: State)
    requires t == Ordered(c, s) && s.outbox == [] && s.progress.nextEmit <= |c.plan|
    requires !s.phase.Closed? && !s.phase.Broken? && !s.phase.Ended? && !s.phase.Finishing?
    requires forall i | 0 <= i < s.progress.nextEmit :: i in s.progress.completed
    requires s.emitted == ReceiptsIn(s.progress.completed, 0, s.progress.nextEmit)
    ensures EmitsInOrder(c, t)
  {
    var p := s.progress;
    GapIsSettled(p.completed.Keys, p.nextEmit, |c.plan|);
    ReceiptsInSplit(p.completed, 0, p.nextEmit, t.progress.nextEmit);
  }

  /** Settling one in-flight item keeps the partition. */
  lemma {:induction false} SettleKeepsParts(c: Config, s: State, step: Step, t: State)
    requires Partitioned(c, s) && Bounded(c, s) && step.Settle? && Apply(c, step, s) == Some(t)
    ensures Partitioned(c, t)
  {
    var d := s.progress.dispatches;
    CoversSettled(s.progress.completed, s.inFlight, InputMap(c), Firsts(MissingIn(c), d), d, step.index, step.receipt);
  }

  lemma {:induction false} SettleKeepsBound(c: Config, s: State, step: Step, t: State)
    requires Bounded(c, s) && step.Settle? && Apply(c, step, s) == Some(t)
    ensures Bounded(c, t)
  {
    assert |s.inFlight - {step.index}| == |s.inFlight| - 1;
  }

  lemma {:induction false} SettleKeepsEmission(c: Config, s: State, step: Step, t: State)
    requires Partitioned(c, s) && Bounded(c, s) && EmitsInOrder(c, s) && step.Settle? && Apply(c, step, s) == Some(t)
    ensures EmitsInOrder(c, t)
  {
    var p := Recorded(s, step);
    assert step.index in s.inFlight && step.index !in s.progress.completed;
    ReceiptsInSame(s.progress.completed, p.completed, 0, p.nextEmit);
    if !t.phase.Broken? {
      var u := s.(progress := t.progress.(nextEmit := p.nextEmit), phase := t.phase,
                  inFlight := t.inFlight, persisted := t.persisted);
      assert t == Ordered(c, u);
      OrderedEmits(c, u, t);
    }
  }

  lemma {:induction false} DurableAfter(c: Config, t: State, before: seq<Checkpoint>, cp: Checkpoint)
    requires t.persisted == before + [cp]
    ensures Durable(c, t) == Settled(cp.receipts)
  {
  }

  lemma {:induction false} SettleKeepsSink(c: Config, s: State, step: Step, t: State)
    requires SinkHolds(c, s) && Lost(s) == {} && step.Settle? && Apply(c, step, s) == Some(t)
    requires step.index !in s.progress.completed && forall i | i in t.progress.completed :: i < |c.plan|
    ensures SinkHolds(c, t)
  {
    var p := Recorded(s, step);
    MinusNothing(s.progress.completed);
    if t.phase.Broken? {
      MinusNew(s.progress.completed, step.index, step.receipt);
    } else if c.required {
      var flag := p.stop == Some(CancelRequested);
      BuiltCheckpoint(c, p.completed, flag);
      DurableAfter(c, t, s.persisted, BuildCheckpoint(c, p.completed, flag));
      MinusNothing(p.completed);
    }
  }

  lemma {:induction false} SettleKeepsFlags(c: Config, s: State, step: Step, t: State)
    requires SinkWellFormed(c, s) && SinkFlag(c, s) && step.Settle? && Apply(c, step, s) == Some(t)
    requires forall i | i in t.progress.completed :: i < |c.plan|
    ensures SinkWellFormed(c, t) && SinkFlag(c, t)
  {
    var p := Recorded(s, step);
    BuiltCheckpoint(c, p.completed, p.stop == Some(CancelRequested));
  }

  lemma {:induction false} SettleKeeps(c: Config, s: State, step: Step, t: State)
    requires ValidConfig(c) && Inv(c, s) && step.Settle? && Apply(c, step, s) == Some(t)
    ensures Inv(c, t)
  {
    SettleKeepsParts(c, s, step, t);
    SettleKeepsBound(c, s, step, t);
    SettleKeepsEmission(c, s, step, t);
    InRange(c, t);
    SettleKeepsSink(c, s, step, t);
    SettleKeepsFlags(c, s, step, t);
  }

  lemma {:induction false} FinishKeepsSink(c: Config, s: State, step: Step, t: State)
    requires SinkHolds(c, s) && step.Finish? && Apply(c, step, s) == Some(t)
    requires forall i | i in s.progress.completed :: i < |c.plan|
    ensures SinkHolds(c, t)
  {
    var p := t.progress;
    BuiltCheckpoint(c, p.completed, p.stop == Some(CancelRequested));
    MinusNothing(p.completed);
  }

  lemma {:induction false} FinishKeepsFlags(c: Config, s: State, step: Step, t: State)
    requires SinkWellFormed(c, s) && SinkFlag(c, s) && step.Finish? && Apply(c, step, s) == Some(t)
    requires forall i | i in s.progress.completed :: i < |c.plan|
    ensures SinkWellFormed(c, t) && SinkFlag(c, t)
  {
    BuiltCheckpoint(c, t.progress.completed, t.progress.stop == Some(CancelRequested));
  }

  lemma {:induction false} FinishKeepsCheckpoints(c: Config, s: State, step: Step, t: State)
    requires Checkpointed(c, s) && step.Finish? && Apply(c, step, s) == Some(t)
    requires forall i | i in s.progress.completed :: i < |c.plan|
    ensures Checkpointed(c, t)
  {
    FinishKeepsSink(c, s, step, t);
    FinishKeepsFlags(c, s, step, t);
  }

  lemma {:induction false} FinishKeepsEmission(c: Config, s: State, step: Step, t: State)
    requires EmitsInOrder(c, s) && step.Finish? && Apply(c, step, s) == Some(t)
    ensures EmitsInOrder(c, t)
  {
    if !t.phase.Broken? {
      var u := s.(progress := t.progress.(nextEmit := s.progress.nextEmit), phase := Summarizing,
                  persisted := t.persisted);
      assert t == Ordered(c, u);
      OrderedEmits(c, u, t);
    }
  }

  lemma {:induction false} FinishKeepsParts(c: Config, s: State, step: Step, t: State)
    requires Partitioned(c, s) && Bounded(c, s) && step.Finish? && Apply(c, step, s) == Some(t)
    ensures Partitioned(c, t)
  {
  }

  lemma {:induction false} FinishKeepsBound(c: Config, s: State, step: Step, t: State)
    requires Bounded(c, s) && step.Finish? && Apply(c, step, s) == Some(t)
    ensures Bounded(c, t)
  {
  }

  lemma {:induction false} Disjoint(a: map<nat, Receipt>, b: map<nat, Receipt>)
    requires a.Keys !! b.Keys
    ensures |a + b| == |a| + |b| && (a + b).Keys == a.Keys + b.Keys && (a + b) - b.Keys == a
  {
    assert |(a + b).Keys| == |a.Keys| + |b.Keys|;
  }

  lemma {:induction false} CloseKeepsParts(c: Config, s: State, step: Step, t: State)
    requires Partitioned(c, s) && Bounded(c, s) && step.Close? && Apply(c, step, s) == Some(t)
    ensures Partitioned(c, t)
  {
    var d := s.progress.dispatches;
    CoversDrained(s.progress.completed, s.inFlight, InputMap(c), Firsts(MissingIn(c), d), d, step.results);
  }

  lemma {:induction false} CloseKeepsBound(c: Config, s: State, step: Step, t: State)
    requires Bounded(c, s) && step.Close? && Apply(c, step, s) == Some(t)
    ensures Bounded(c, t)
  {
  }

  lemma {:induction false} CloseKeepsEmission(c: Config, s: State, step: Step, t: State)
    requires EmitsInOrder(c, s) && (forall i | i in s.inFlight :: i !in s.progress.completed) && step.Close?
    requires Apply(c, step, s) == Some(t)
    ensures EmitsInOrder(c, t)
  {
    ReceiptsInSame(s.progress.completed, t.progress.completed, 0, s.progress.nextEmit);
  }

  lemma {:induction false} CloseKeepsSink(c: Config, s: State, step: Step, t: State)
    requires SinkHolds(c, s) && (forall i | i in s.inFlight :: i !in s.progress.completed) && step.Close?
    requires Apply(c, step, s) == Some(t)
    requires forall i | i in t.progress.completed :: i < |c.plan|
    ensures SinkHolds(c, t)
  {
    MinusNothing(s.progress.completed);
    MinusNothing(t.progress.completed);
    if c.required && step.accepted {
      BuiltCheckpoint(c, t.progress.completed, true);
      DurableAfter(c, t, s.persisted, BuildCheckpoint(c, t.progress.completed, true));
    } else {
      Disjoint(s.progress.completed, step.results);
    }
  }

  lemma {:induction false} CloseKeepsFlags(c: Config, s: State, step: Step, t: State)
    requires SinkWellFormed(c, s) && step.Close? && Apply(c, step, s) == Some(t)
    requires forall i | i in t.progress.completed :: i < |c.plan|
    ensures SinkWellFormed(c, t) && SinkFlag(c, t)
  {
    BuiltCheckpoint(c, t.progress.completed, true);
  }

  lemma {:induction false} CloseKeeps(c: Config, s: State, step: Step, t: State)
    requires ValidConfig(c) && Inv(c, s) && step.Close? && Apply(c, step, s) == Some(t)
    ensures Inv(c, t)
  {
    CloseKeepsParts(c, s, step, t);
    CloseKeepsBound(c, s, step, t);
    CloseKeepsEmission(c, s, step, t);
    InRange(c, t);
    CloseKeepsSink(c, s, step, t);
    CloseKeepsFlags(c, s, step, t);
  }

  predicate Quiet(step: Step) {
    !step.Dispatch? && !step.Settle? && !step.Finish? && !step.Close?
  }

  lemma {:induction false} QuietKeepsParts(c: Config, s: State, step: Step, t: State)
    requires Partitioned(c, s) && Bounded(c, s) && Quiet(step) && Apply(c, step, s) == Some(t)
    ensures Partitioned(c, t)
  {
  }

  lemma {:induction false} QuietKeepsBound(c: Config, s: State, step: Step, t: State)
    requires c.parallelism >= 1 && Bounded(c, s) && Quiet(step) && Apply(c, step, s) == Some(t)
    ensures Bounded(c, t)
  {
  }

  lemma {:induction false} QuietKeepsLogs(c: Config, s: State, step: Step, t: State)
    requires EmitsInOrder(c, s) && Checkpointed(c, s) && Quiet(step) && Apply(c, step, s) == Some(t)
    ensures EmitsInOrder(c, t) && Checkpointed(c, t)
  {
    if step.Yield? {
      assert t.emitted + t.outbox == s.emitted + s.outbox;
    }
  }

  lemma {:induction false} StepKeepsInv(c: Config, s: State, step: Step, t: State)
    requires ValidConfig(c) && Inv(c, s) && Apply(c, step, s) == Some(t)
    ensures Inv(c, t)
  {
    if step.Dispatch? {
      DispatchKeepsParts(c, s, step, t);
      DispatchKeepsBound(c, s, step, t);
      DispatchKeepsLogs(c, s, step, t);
    } else if step.Settle? {
      SettleKeeps(c, s, step, t);
    } else if step.Finish? {
      FinishKeepsParts(c, s, step, t);
      FinishKeepsBound(c, s, step, t);
      FinishKeepsEmission(c, s, step, t);
      InRange(c, s);
      FinishKeepsCheckpoints(c, s, step, t);
    } else if step.Close? {
      CloseKeeps(c, s, step, t);
    } else {
      QuietKeepsParts(c, s, step, t);
      QuietKeepsBound(c, s, step, t);
      QuietKeepsLogs(c, s, step, t);
    }
  }

  lemma {:induction false} RunKeepsInv(c: Config, steps: seq<Step>, probe: Option<Stop>)
    requires ValidConfig(c) && Run(c, steps, Initial(c, probe)).Some?
    ensures Inv(c, Run(c, steps, Initial(c, probe)).value)
  {
    if steps == [] {
      InitialInv(c, probe);
    } else {
      RunKeepsInv(c, steps[..|steps| - 1], probe);
      StepKeepsInv(c, Run(c, steps[..|steps| - 1], Initial(c, probe)).value, steps[|steps| - 1],
                   Run(c, steps, Initial(c, probe)).value);
    }
  }
}
