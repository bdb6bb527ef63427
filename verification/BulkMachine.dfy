/**
 The bounded bulk executor as a machine. Completion order, stop signals and the checkpoint sink are
 the environment's choice; the machine keeps logs of what was dispatched, emitted and persisted.
 */
module BulkMachine {
  import opened Wrappers

  type Item(==, !new)
  type Detail(==, !new)

  datatype OutcomeKind = Succeeded | Rejected | Failed | Cancelled | Ambiguous | Skipped
  datatype Receipt = Receipt(target: Item, outcome: OutcomeKind, detail: Detail)
  datatype ItemReceipt = ItemReceipt(index: nat, receipt: Receipt)

  datatype Checkpoint = Checkpoint(plan: seq<Item>, receipts: seq<ItemReceipt>, cancelled: bool)

  datatype Stop = CancelRequested | BudgetExhausted

  datatype Config = Config(plan: seq<Item>, parallelism: nat, required: bool, input: Option<Checkpoint>)

  datatype Progress = Progress(
    completed: map<nat, Receipt>,
    pending: seq<nat>,
    stop: Option<Stop>,
    itemBudget: bool,
    dispatches: nat,
    nextEmit: nat,
    lastCount: int,
    lastStop: Option<Stop>)

  datatype Summary = Summary(
    total: nat, succeeded: nat, failed: nat, skipped: nat, settled: nat, outstanding: int,
    dispatches: nat, cancelled: bool, budgetExhausted: bool)

  datatype Phase =
    | Starting                     // emitting what the input checkpoint already holds
    | Dispatching                  // the head of the loop
    | Settling(done: set<nat>)     // inside one batch of finished futures
    | Finishing
    | Summarizing
    | Ended(summary: Summary)
    | Closed                       // the consumer closed the stream
    | Broken(lost: set<nat>)       // the sink raised; `lost` settled in memory only

  datatype State = State(
    progress: Progress,
    inFlight: set<nat>,
    phase: Phase,
    outbox: seq<ItemReceipt>,
    emitted: seq<ItemReceipt>,
    persisted: seq<Checkpoint>,
    dispatched: seq<nat>)

  datatype Step =
    | Yield
    | StartLoop
    | Dispatch(probe: Option<Stop>)
    | Await(ready: set<nat>)
    | Settle(index: nat, receipt: Receipt, overran: bool, probe: Option<Stop>, accepted: bool)
    | LeaveLoop
    | Finish(cancelled: bool, accepted: bool)
    | Summarize
    | Close(results: map<nat, Receipt>, accepted: bool)
    | CloseQuietly

  // ---------------------------------------------------------------- pure parts

  /** The indices below `n` that are not settled, in order. */
  function Missing(settled: set<nat>, n: nat): seq<nat> {
    if n == 0 then []
    else if n - 1 in settled then Missing(settled, n - 1)
    else Missing(settled, n - 1) + [n - 1]
  }

  /** The first index from `from` on that is not settled, or `n`. */
  function FirstGap(settled: set<nat>, from: nat, n: nat): nat
    decreases n - from
  {
    if from < n && from in settled then FirstGap(settled, from + 1, n) else from
  }

  function ReceiptsIn(completed: map<nat, Receipt>, lo: nat, hi: nat): seq<ItemReceipt>
    requires forall i | lo <= i < hi :: i in completed
    decreases hi
  {
    if lo >= hi then [] else ReceiptsIn(completed, lo, hi - 1) + [ItemReceipt(hi - 1, completed[hi - 1])]
  }

  /** The settled receipts in index order. */
  function Sorted(completed: map<nat, Receipt>, n: nat): seq<ItemReceipt> {
    if n == 0 then []
    else if n - 1 in completed then Sorted(completed, n - 1) + [ItemReceipt(n - 1, completed[n - 1])]
    else Sorted(completed, n - 1)
  }

  function BuildCheckpoint(config: Config, completed: map<nat, Receipt>, cancelled: bool): Checkpoint {
    Checkpoint(config.plan, Sorted(completed, |config.plan|), cancelled)
  }

  function CountOf(completed: map<nat, Receipt>, kind: OutcomeKind, n: nat): nat {
    if n == 0 then 0
    else CountOf(completed, kind, n - 1) + if n - 1 in completed && completed[n - 1].outcome == kind then 1 else 0
  }

  function Summarized(config: Config, p: Progress): Summary {
    var n := |config.plan|;
    Summary(n, CountOf(p.completed, Succeeded, n), CountOf(p.completed, Failed, n), CountOf(p.completed, Skipped, n),
            |p.completed|, n - |p.completed|, p.dispatches,
            p.stop == Some(CancelRequested), p.stop == Some(BudgetExhausted) || p.itemBudget)
  }

  /** `BulkCheckpoint.__post_init__`: indices ascend without repetition and fall inside the plan. */
  ghost predicate WellFormed(cp: Checkpoint) {
    && (forall i, j | 0 <= i < j < |cp.receipts| :: cp.receipts[i].index < cp.receipts[j].index)
    && (forall i | 0 <= i < |cp.receipts| :: cp.receipts[i].index < |cp.plan|)
  }

  function Settled(receipts: seq<ItemReceipt>): map<nat, Receipt> {
    if receipts == [] then map[]
    else Settled(receipts[..|receipts| - 1])[receipts[|receipts| - 1].index := receipts[|receipts| - 1].receipt]
  }

  function InputMap(config: Config): map<nat, Receipt> {
    if config.input.Some? then Settled(config.input.value.receipts) else map[]
  }

  ghost predicate DistinctItems(plan: seq<Item>) {
    forall i, j | 0 <= i < j < |plan| :: plan[i] != plan[j]
  }

  /** `_validate_plan` accepts. */
  ghost predicate Accepts(plan: seq<Item>, input: Option<Checkpoint>) {
    && DistinctItems(plan)
    && (input.Some? ==>
          && input.value.plan == plan
          && forall i | 0 <= i < |input.value.receipts| ::
               input.value.receipts[i].index < |plan|
               && input.value.receipts[i].receipt.target == plan[input.value.receipts[i].index])
  }

  ghost predicate ValidConfig(c: Config) {
    1 <= c.parallelism <= 32 && Accepts(c.plan, c.input) && (c.input.Some? ==> WellFormed(c.input.value))
  }

  // ---------------------------------------------------------------- the machine

  function Initial(c: Config, probe: Option<Stop>): State {
    var completed, n := InputMap(c), |c.plan|;
    var pending := Missing(completed.Keys, n);
    var stop := if pending == [] && probe == Some(BudgetExhausted) then None else probe;
    var next := FirstGap(completed.Keys, 0, n);
    GapIsSettled(completed.Keys, 0, n);
    State(Progress(completed, pending, stop, false, 0, next, -1, None), {}, Starting,
          ReceiptsIn(completed, 0, next), [], [], [])
  }

  lemma {:induction false} GapIsSettled(settled: set<nat>, from: nat, n: nat)
    ensures forall i | from <= i < FirstGap(settled, from, n) :: i in settled
    ensures FirstGap(settled, from, n) < n ==> FirstGap(settled, from, n) !in settled
    ensures from <= FirstGap(settled, from, n) && (from <= n ==> FirstGap(settled, from, n) <= n)
    decreases n - from
  {
    if from < n && from in settled {
      GapIsSettled(settled, from + 1, n);
    }
  }

  /** `_refresh_stop_state`: a reason once set stays. */
  function Refreshed(stop: Option<Stop>, probe: Option<Stop>, checkBudget: bool): Option<Stop> {
    if stop.Some? then stop
    else if probe == Some(BudgetExhausted) && !checkBudget then None
    else probe
  }

  /** `ordered_receipts`: hand out what has become contiguous. */
  function Ordered(c: Config, s: State): State {
    var p := s.progress;
    var next := FirstGap(p.completed.Keys, p.nextEmit, |c.plan|);
    GapIsSettled(p.completed.Keys, p.nextEmit, |c.plan|);
    s.(progress := p.(nextEmit := next), outbox := ReceiptsIn(p.completed, p.nextEmit, next))
  }

  /** The dispatch loop has nothing more to do before the next wait. */
  predicate Saturated(c: Config, s: State) {
    s.progress.pending == [] || |s.inFlight| >= c.parallelism || s.progress.stop.Some?
  }

  function Dispatched(c: Config, s: State, probe: Option<Stop>): State
    requires s.progress.pending != []
  {
    var p := s.progress;
    if probe.Some? then s.(progress := p.(stop := probe))
    else s.(progress := p.(pending := p.pending[1..], dispatches := p.dispatches + 1),
            inFlight := s.inFlight + {p.pending[0]}, dispatched := s.dispatched + [p.pending[0]])
  }

  function Recorded(s: State, step: Step): Progress
    requires step.Settle?
  {
    var p := s.progress;
    p.(completed := p.completed[step.index := step.receipt],
       itemBudget := p.itemBudget || step.overran,
       stop := Refreshed(p.stop, step.probe, p.pending != []))
  }

  function SettledOne(c: Config, s: State, step: Step): State
    requires step.Settle? && s.phase.Settling?
  {
    var p := Recorded(s, step);
    var t := s.(progress := p, inFlight := s.inFlight - {step.index});
    if c.required && !step.accepted then t.(phase := Broken({step.index}))
    else
      var rest := s.phase.done - {step.index};
      var persisted := if c.required
                       then s.persisted + [BuildCheckpoint(c, p.completed, p.stop == Some(CancelRequested))]
                       else s.persisted;
      Ordered(c, t.(progress := p.(lastCount := |p.completed|, lastStop := p.stop),
                    persisted := persisted, phase := if rest == {} then Dispatching else Settling(rest)))
  }

  function Finished(c: Config, s: State, step: Step): State
    requires step.Finish?
  {
    var p := s.progress.(
      stop := Refreshed(s.progress.stop, if step.cancelled then Some(CancelRequested) else None, false));
    var t := s.(progress := p);
    if p.stop.Some? && (p.lastCount != |p.completed| || p.lastStop != p.stop) && c.required then
      if step.accepted then
        Ordered(c, t.(persisted := s.persisted + [BuildCheckpoint(c, p.completed, p.stop == Some(CancelRequested))],
                      phase := Summarizing))
      else t.(phase := Broken({}))
    else Ordered(c, t.(phase := Summarizing))
  }

  /** `_drain_sync` after the consumer closed the stream inside the loop. */
  function Drained(c: Config, s: State, step: Step): State
    requires step.Close?
  {
    var completed := s.progress.completed + step.results;
    var t := s.(progress := s.progress.(completed := completed), inFlight := {});
    if !c.required then t.(phase := Closed)
    else if step.accepted then
      t.(phase := Closed, persisted := s.persisted + [BuildCheckpoint(c, completed, true)])
    else t.(phase := Broken(s.inFlight))
  }

  function Apply(c: Config, step: Step, s: State): Option<State> {
    match step
    case Yield =>
      if s.outbox != [] && (s.phase.Starting? || s.phase.Dispatching? || s.phase.Settling? || s.phase.Summarizing?)
      then Some(s.(outbox := s.outbox[1..], emitted := s.emitted + [s.outbox[0]])) else None
    case StartLoop =>
      if s.phase.Starting? && s.outbox == [] then Some(s.(phase := Dispatching)) else None
    case Dispatch(probe) =>
      if s.phase.Dispatching? && s.outbox == [] && !Saturated(c, s) then Some(Dispatched(c, s, probe)) else None
    case Await(ready) =>
      if s.phase.Dispatching? && s.outbox == [] && Saturated(c, s) && ready != {} && ready <= s.inFlight
      then Some(s.(phase := Settling(ready))) else None
    case Settle(index, _, _, _, _) =>
      if s.phase.Settling? && s.outbox == [] && index in s.phase.done then Some(SettledOne(c, s, step)) else None
    case LeaveLoop =>
      if s.phase.Dispatching? && s.outbox == [] && Saturated(c, s) && s.inFlight == {}
      then Some(s.(phase := Finishing)) else None
    case Finish(_, _) => if s.phase.Finishing? then Some(Finished(c, s, step)) else None
    case Summarize =>
      if s.phase.Summarizing? && s.outbox == [] then Some(s.(phase := Ended(Summarized(c, s.progress)))) else None
    case Close(results, _) =>
      if (s.phase.Dispatching? || s.phase.Settling?) && results.Keys == s.inFlight then Some(Drained(c, s, step))
          else None
    case CloseQuietly =>
      if s.phase.Starting? || s.phase.Summarizing? then Some(s.(phase := Closed)) else None
  }

  ghost function Run(c: Config, steps: seq<Step>, s: State): Option<State> {
    if steps == [] then Some(s) else
    match Run(c, steps[..|steps| - 1], s)
    case None => None
    case Some(t) => Apply(c, steps[|steps| - 1], t)
  }
}
