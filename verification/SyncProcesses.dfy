/**
 Sync passes of several processes over one state key: the steps of SyncProtocol taken by any of them in
 any order. A commit is a conditional put over the state its pass last read or wrote, and the shards of an
 artifact are gathered one at a time. Whether a lock keeps the passes apart is a parameter. Where none does,
 nothing ties a comparison to its write either: a commit may then also overwrite whatever is there, as it
 always does in a store that does not compare.
 */
module SyncProcesses {
  import opened Wrappers
  import opened RowGroups
  import opened SyncProtocol
  import opened SyncSafety

  type Process(==, !new)

  /** A process with its pass, the state its pass last read or wrote, and the shards gathered so far. */
  datatype Proc = Proc(pass: Pass, known: Option<SyncState>, gathered: seq<Batch>)

  datatype State = State(
    disk: Disk,
    source: Source,
    seen: set<Source>,
    log: seq<Outcome>,
    conflicts: seq<Process>,     // passes that ended because their commit lost a race
    holder: Option<Process>,     // of the key lock
    procs: map<Process, Proc>)

  datatype Move =
    | By(process: Process, step: Step)
    | Gather(process: Process)
    | Overwrite(process: Process, step: Step)    // a commit that compared earlier, or not at all

  const Resting := Proc(Idle, None, [])

  ghost function ProcOf(s: State, p: Process): Proc {
    if p in s.procs then s.procs[p] else Resting
  }

  /** The world as one process sees it. */
  ghost function View(s: State, p: Process): World {
    World(s.disk, s.source, s.seen, ProcOf(s, p).pass, s.log)
  }

  /** A pass holds the lock from its beginning to its end. */
  ghost function Holder(s: State, p: Process, pass: Pass): Option<Process> {
    if pass.Running? then Some(p) else if s.holder == Some(p) then None else s.holder
  }

  ghost function With(s: State, p: Process, w: World, known: Option<SyncState>, gathered: seq<Batch>): State {
    State(w.disk, w.source, w.seen, w.log, s.conflicts, Holder(s, p, w.pass),
          s.procs[p := Proc(w.pass, known, gathered)])
  }

  /** The step writes the state record. */
  ghost predicate Commits(step: Step, w: World) {
    w.pass.Running? &&
    match step
    case CommitCursor => w.pass.stage.Written?
    case CommitCompleted => w.pass.stage.Verified?
    case PlainFinish =>
      w.pass.stage.PlainPublished? && !(w.pass.context.prior.Some?
                                        && w.pass.context.prior.value.rows == w.pass.stage.rows)
    case _ => false
  }

  /** Reading the next staged shard; a missing one ends the pass. */
  ghost function GatherOne(s: State, p: Process): Option<State> {
    var l := ProcOf(s, p);
    if !(l.pass.Running? && l.pass.stage.Staged? && |l.gathered| < l.pass.stage.shardCount) then None
    else if (l.pass.context.destination, |l.gathered|) in s.disk.shards then
      Some(With(s, p, View(s, p), l.known, l.gathered + [s.disk.shards[(l.pass.context.destination, |l.gathered|)]]))
    else Some(With(s, p, Finish(View(s, p), Raised(MissingShard)), l.known, []))
  }

  /** Publishing what was gathered. */
  ghost function PublishGathered(s: State, p: Process): Option<State> {
    var l := ProcOf(s, p);
    if l.pass.Running? && l.pass.stage.Staged? && |l.gathered| == l.pass.stage.shardCount then
      var rows := Concat(l.gathered);
      Some(With(s, p, At(WithFile(View(s, p), l.pass.context.destination, rows), Published(rows)), l.known, []))
    else None
  }

  /** Any other step, its commit refused when the record is not the one known. */
  ghost function StepOne(s: State, p: Process, step: Step): Option<State> {
    var l, w := ProcOf(s, p), View(s, p);
    if Commits(step, w) && l.known != s.disk.store then
      Some(With(s, p, w.(pass := Idle), l.known, []).(conflicts := s.conflicts + [p]))
    else
      match Apply(step, w)
      case None => None
      case Some(w') =>
        Some(With(s, p, w', if step.Begin? || Commits(step, w) then w'.disk.store else l.known,
                  if step.ChangeSource? then l.gathered else []))
  }

  /** The step with its commit written over any record. */
  ghost function StepOver(s: State, p: Process, step: Step): Option<State> {
    match Apply(step, View(s, p))
    case None => None
    case Some(w') => Some(With(s, p, w', w'.disk.store, []))
  }

  /** The state after one move, or `None` when it is not enabled. */
  ghost function Take(exclusive: bool, move: Move, s: State): Option<State> {
    match move
    case Gather(p) => GatherOne(s, p)
    case Overwrite(p, step) => if exclusive || !Commits(step, View(s, p)) then None else StepOver(s, p, step)
    case By(p, step) =>
      if step.Begin? && exclusive && s.holder.Some? then None
      else if step.Publish? then PublishGathered(s, p)
      else StepOne(s, p, step)
  }

  ghost function TakeAll(exclusive: bool, moves: seq<Move>, s: State): Option<State> {
    if moves == [] then Some(s) else
    match TakeAll(exclusive, moves[..|moves| - 1], s)
    case None => None
    case Some(t) => Take(exclusive, moves[|moves| - 1], t)
  }

  /** No pass has begun; shards and files may be left over from anything. */
  ghost predicate Untouched(s: State) {
    && s.procs == map[] && s.holder.None? && s.conflicts == [] && s.log == []
    && s.disk.store.None? && s.seen == {s.source}
  }

  ghost predicate SameSource(moves: seq<Move>) {
    forall m | m in moves && m.By? :: !m.step.ChangeSource?
  }

  ghost predicate AllResume(moves: seq<Move>) {
    forall m | m in moves && m.By? && m.step.Begin? :: m.step.resume
  }

  // ---------------------------------------------------------------- under the lock: one pass at a time

  /** The single pass that SyncProtocol speaks of is the lock holder's. */
  ghost function Project(s: State): World {
    World(s.disk, s.source, s.seen, if s.holder.Some? then ProcOf(s, s.holder.value).pass else Idle, s.log)
  }

  /** What the holder knows is what is on disk. */
  ghost predicate UpToDate(s: State, l: Proc) {
    && l.pass.Running? && l.known == s.disk.store
    && (l.pass.stage.Staged? ==>
          && HasShards(s.disk, l.pass.context.destination, l.pass.stage.shardCount)
          && |l.gathered| <= l.pass.stage.shardCount
          && forall i | 0 <= i < |l.gathered| :: l.gathered[i] == s.disk.shards[(l.pass.context.destination, i)])
    && (!l.pass.stage.Staged? ==> l.gathered == [])
  }

  ghost predicate Alone(s: State) {
    && (forall p | p in s.procs && s.procs[p].pass.Running? :: s.holder == Some(p))
    && (s.holder.Some? ==> UpToDate(s, ProcOf(s, s.holder.value)))
    && s.conflicts == []
  }

  /** The move changes nothing that SyncProtocol sees, or is a step of it. */
  ghost predicate Follows(move: Move, w: World, w': World) {
    w' == w || (move.By? && Apply(move.step, w) == Some(w'))
  }

  lemma {:induction false} GatherFollows(s: State, move: Move, t: State)
    requires Alone(s) && move.Gather? && Take(true, move, s) == Some(t)
    ensures Alone(t) && Follows(move, Project(s), Project(t))
  {
    assert s.holder == Some(move.process);
  }

  lemma {:induction false} PublishFollows(s: State, move: Move, t: State)
    requires Alone(s) && move.By? && move.step.Publish? && Take(true, move, s) == Some(t)
    ensures Alone(t) && Follows(move, Project(s), Project(t))
  {
    assert s.holder == Some(move.process);
    var l := ProcOf(s, move.process);
    assert l.gathered == StagedShards(s.disk, l.pass.context.destination, l.pass.stage.shardCount);
  }

  /** A process without a pass begins one, or crashes, or sees the source change. */
  lemma {:induction false} IdleFollows(s: State, move: Move, t: State)
    requires Alone(s) && move.By? && !move.step.Publish? && Take(true, move, s) == Some(t)
    requires ProcOf(s, move.process).pass.Idle?
    ensures Alone(t) && Follows(move, Project(s), Project(t))
  {
    assert s.holder != Some(move.process);
  }

  lemma {:induction false} RunningFollows(s: State, move: Move, t: State)
    requires Alone(s) && move.By? && !move.step.Publish? && Take(true, move, s) == Some(t)
    requires ProcOf(s, move.process).pass.Running?
    ensures Alone(t) && Follows(move, Project(s), Project(t))
  {
    assert s.holder == Some(move.process);
    assert View(s, move.process) == Project(s);
  }

  lemma {:induction false} MoveFollows(s: State, move: Move, t: State)
    requires Alone(s) && Take(true, move, s) == Some(t)
    ensures Alone(t) && Follows(move, Project(s), Project(t))
  {
    if move.Gather? {
      GatherFollows(s, move, t);
    } else if move.step.Publish? {
      PublishFollows(s, move, t);
    } else if ProcOf(s, move.process).pass.Idle? {
      IdleFollows(s, move, t);
    } else {
      RunningFollows(s, move, t);
    }
  }

  /**
   Under the key lock any interleaving of any number of processes is one run of SyncProtocol, made of
   steps those processes took, and no commit ever conflicts.
   */
  lemma {:induction false} LockedRunIsOneRun(moves: seq<Move>, s0: State, s: State) returns (steps: seq<Step>)
    requires Untouched(s0) && TakeAll(true, moves, s0) == Some(s)
    ensures Run(steps, Project(s0)) == Some(Project(s)) && s.conflicts == [] && Alone(s)
    ensures forall step | step in steps :: exists p :: By(p, step) in moves
  {
    steps := [];
    if moves != [] {
      var front, last := moves[..|moves| - 1], moves[|moves| - 1];
      var t := TakeAll(true, front, s0).value;
      steps := LockedRunIsOneRun(front, s0, t);
      assert forall m | m in front :: m in moves;
      MoveFollows(t, last, s);
      if Project(s) != Project(t) {
        assert (steps + [last.step])[..|steps|] == steps;
        steps := steps + [last.step];
        assert By(last.process, last.step) in moves;
      }
    }
  }

  /**
   So the guarantees of one pass at a time are those of many processes: with the source fixed every
   published file is the whole source, every success left it in place, and no pass of a resuming fleet
   raises or loses a race.
   */
  lemma {:induction false} LockedProcessesPublishWholeSource(moves: seq<Move>, s0: State, s: State)
    requires Untouched(s0) && SameSource(moves) && TakeAll(true, moves, s0) == Some(s)
    ensures forall d | d in s.disk.files && !(d in s0.disk.files && s.disk.files[d] == s0.disk.files[d]) ::
              s.disk.files[d] == AllRows(s0.source)
    ensures forall o | o in s.log && !o.Raised? ::
              && o.artifact.rows == AllRows(s0.source)
              && o.artifact.destination in s.disk.files && s.disk.files[o.artifact.destination] == AllRows(s0.source)
    ensures s.conflicts == []
    ensures AllResume(moves) ==> forall o | o in s.log :: !o.Raised?
  {
    var steps := LockedRunIsOneRun(moves, s0, s);
    assert FixedSource(steps);
    PublishesWholeSource(steps, Project(s0));
    if AllResume(moves) {
      assert AlwaysResumes(steps);
      CheckpointsAreBacked(steps, Project(s0));
    }
  }
}
