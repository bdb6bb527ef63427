/**
 Passes that no lock keeps apart: over a store that does not compare and writes unconditionally, or over
 in-process storage that two stores spell differently. They interleave freely, and a commit may be refused
 or overwrite another's. With the source fixed they may raise, lose races and lose each other's records,
 but they still publish nothing but the whole source.
 */
module SyncUnlocked {
  import opened Wrappers
  import opened RowGroups
  import opened SyncProtocol
  import opened SyncSafety
  import opened SyncProcesses

  /** The artifact is the whole source and lies at its destination. */
  ghost predicate Lies(disk: Disk, source: Source, a: Artifact) {
    a.rows == AllRows(source) && a.destination in disk.files && disk.files[a.destination] == a.rows
  }

  /** Some shards the cursor counts may be missing; those that exist are right. */
  ghost predicate Counted(disk: Disk, source: Source, d: Destination, c: Cursor) {
    CursorRight(source, c) && ShardsRight(disk, d, source, c.nextBatch)
  }

  ghost predicate Fetched(disk: Disk, source: Source, d: Destination, count: nat, index: nat, batch: Batch,
                          after: Cursor) {
    && count == |source| && CursorRight(source, after) && after.nextBatch == index + 1
    && index < Count(source, |source|) && Shard(source, index) == batch && ShardsRight(disk, d, source, index)
  }

  ghost predicate StageFits(disk: Disk, source: Source, d: Destination, stage: Stage) {
    match stage
    case Loaded => true
    case Streaming(count, next) => count == |source| && Counted(disk, source, d, next)
    case Holding(count, index, batch, after) => Fetched(disk, source, d, count, index, batch, after)
    case Cleared(count, index, batch, after) => Fetched(disk, source, d, count, index, batch, after)
    case Written(count, after) => count == |source| && Counted(disk, source, d, after)
    case Staged(n) => n == Count(source, |source|) && ShardsRight(disk, d, source, n)
    case Published(rows) => Lies(disk, source, Artifact(d, rows))
    case Verified(rows) => Lies(disk, source, Artifact(d, rows))
    case CleaningUp(rows) => Lies(disk, source, Artifact(d, rows))
    case Mismatched => false
    case PlainReading(count, group, rows) => count == |source| && group <= count && rows == RowsUpTo(source, group)
    case PlainPublished(rows) => Lies(disk, source, Artifact(d, rows))
  }

  ghost predicate ContextFits(disk: Disk, source: Source, c: Context) {
    && Matches(c.version, source)
    && (c.checkpoint.Some? ==> Counted(disk, source, c.destination, c.checkpoint.value))
    && (c.prior.Some? ==> Lies(disk, source, c.prior.value))
  }

  ghost predicate PassFits(disk: Disk, source: Source, pass: Pass) {
    pass.Running? ==>
      ContextFits(disk, source, pass.context) && StageFits(disk, source, pass.context.destination, pass.stage)
  }

  /** What was gathered are the first shards of the source, whatever has become of them since. */
  ghost predicate GatheredFits(source: Source, l: Proc) {
    if l.pass.Running? && l.pass.stage.Staged? then
      && |l.gathered| <= l.pass.stage.shardCount == Count(source, |source|)
      && forall i | 0 <= i < |l.gathered| :: l.gathered[i] == Shard(source, i)
    else l.gathered == []
  }

  ghost predicate StoreFits(disk: Disk, source: Source) {
    disk.store.Some? ==>
      match disk.store.value
      case InProgress(cursor, version, d) => Matches(version, source) && Counted(disk, source, d, cursor)
      case Completed(artifact, version) => Matches(version, source) && Lies(disk, source, artifact)
  }

  /** What a single process relies on, and what is recorded and reported. */
  ghost predicate WorldFits(w: World) {
    && StoreFits(w.disk, w.source) && PassFits(w.disk, w.source, w.pass)
    && forall o | o in w.log && !o.Raised? :: Lies(w.disk, w.source, o.artifact)
  }

  /** What every step leaves: shards stay or become right, and whole files stay. */
  ghost predicate Grows(before: Disk, after: Disk, source: Source) {
    && (forall d: Destination, i: nat | (d, i) in after.shards ::
          ((d, i) in before.shards && after.shards[(d, i)] == before.shards[(d, i)])
          || (i < Count(source, |source|) && after.shards[(d, i)] == Shard(source, i)))
    && (forall d | d in after.files ::
          (d in before.files && after.files[d] == before.files[d]) || after.files[d] == AllRows(source))
    && (forall d | d in before.files :: d in after.files)
  }

  lemma {:induction false} GrowsKeepsPass(before: Disk, after: Disk, source: Source, pass: Pass)
    requires Grows(before, after, source) && PassFits(before, source, pass)
    ensures PassFits(after, source, pass)
  {
  }

  lemma {:induction false} GrowsKeepsLies(before: Disk, after: Disk, source: Source, a: Artifact)
    requires Grows(before, after, source) && Lies(before, source, a)
    ensures Lies(after, source, a)
  {
  }

  // ---------------------------------------------------------------- one step of one process

  lemma {:induction false} BeginFits(w: World, step: Step, w': World)
    requires WorldFits(w) && step.Begin? && Apply(step, w) == Some(w')
    ensures WorldFits(w') && Grows(w.disk, w'.disk, w.source)
  {
  }

  lemma {:induction false} OpenFits(w: World, step: Step, w': World)
    requires WorldFits(w) && step.Open? && Apply(step, w) == Some(w')
    ensures WorldFits(w') && Grows(w.disk, w'.disk, w.source)
  {
  }

  lemma {:induction false} ReadFits(w: World, step: Step, w': World)
    requires WorldFits(w) && step.ReadGroup? && Apply(step, w) == Some(w')
    ensures WorldFits(w') && Grows(w.disk, w'.disk, w.source)
  {
    if w.pass.stage.Streaming? && w.pass.stage.next.rowGroup < |w.source| {
      CountStep(w.source, w.pass.stage.next.rowGroup);
    }
  }

  lemma {:induction false} ShardFits(w: World, step: Step, w': World)
    requires WorldFits(w) && (step.ClearShard? || step.WriteShard?) && Apply(step, w) == Some(w')
    ensures WorldFits(w') && Grows(w.disk, w'.disk, w.source)
  {
    if step.WriteShard? {
      CountMonotone(w.source, w.pass.stage.after.rowGroup, |w.source|);
    }
  }

  lemma {:induction false} RecordFits(w: World, step: Step, w': World)
    requires WorldFits(w) && (step.CommitCursor? || step.CommitCompleted?) && Apply(step, w) == Some(w')
    ensures WorldFits(w') && Grows(w.disk, w'.disk, w.source)
  {
  }

  lemma {:induction false} EndFits(w: World, step: Step, w': World)
    requires WorldFits(w) && (step.PostCheck? || step.CleanUp?) && Apply(step, w) == Some(w')
    ensures WorldFits(w') && Grows(w.disk, w'.disk, w.source)
  {
  }

  lemma {:induction false} PlainFits(w: World, step: Step, w': World)
    requires WorldFits(w) && (step.PlainPublish? || step.PlainFinish? || step.Crash?) && Apply(step, w) == Some(w')
    ensures WorldFits(w') && Grows(w.disk, w'.disk, w.source)
  {
  }

  lemma {:induction false} StepFits(w: World, step: Step, w': World)
    requires WorldFits(w) && !step.Publish? && !step.ChangeSource? && Apply(step, w) == Some(w')
    ensures WorldFits(w') && Grows(w.disk, w'.disk, w.source) && w'.source == w.source
  {
    match step
    case Begin(_, _, _) => BeginFits(w, step, w');
    case Open => OpenFits(w, step, w');
    case ReadGroup => ReadFits(w, step, w');
    case ClearShard => ShardFits(w, step, w');
    case WriteShard => ShardFits(w, step, w');
    case CommitCursor => RecordFits(w, step, w');
    case CommitCompleted => RecordFits(w, step, w');
    case PostCheck(_) => EndFits(w, step, w');
    case CleanUp(_) => EndFits(w, step, w');
    case PlainPublish => PlainFits(w, step, w');
    case PlainFinish => PlainFits(w, step, w');
    case Crash => PlainFits(w, step, w');
    case _ =>
  }

  // ---------------------------------------------------------------- one move of any process

  ghost predicate Fits(s: State) {
    && StoreFits(s.disk, s.source)
    && (forall o | o in s.log && !o.Raised? :: Lies(s.disk, s.source, o.artifact))
    && forall p | p in s.procs :: PassFits(s.disk, s.source, s.procs[p].pass) && GatheredFits(s.source, s.procs[p])
  }

  /** A move that leaves the world of its own process right leaves every other process right as well. */
  lemma {:induction false} OthersFit(s: State, p: Process, w': World, known: Option<SyncState>, gathered: seq<Batch>)
    requires Fits(s) && WorldFits(w') && Grows(s.disk, w'.disk, s.source) && w'.source == s.source
    requires GatheredFits(s.source, Proc(w'.pass, known, gathered))
    ensures Fits(With(s, p, w', known, gathered))
  {
    var t := With(s, p, w', known, gathered);
    forall q | q in t.procs ensures PassFits(t.disk, t.source, t.procs[q].pass) && GatheredFits(t.source, t.procs[q]) {
      if q != p {
        GrowsKeepsPass(s.disk, t.disk, s.source, s.procs[q].pass);
      }
    }
  }

  lemma {:induction false} GatherFits(s: State, p: Process, t: State)
    requires Fits(s) && GatherOne(s, p) == Some(t)
    ensures Fits(t) && Grows(s.disk, t.disk, s.source) && t.source == s.source
  {
    var l := ProcOf(s, p);
    var at := (l.pass.context.destination, |l.gathered|);
    if at in s.disk.shards {
      OthersFit(s, p, View(s, p), l.known, l.gathered + [s.disk.shards[at]]);
    } else {
      OthersFit(s, p, Finish(View(s, p), Raised(MissingShard)), l.known, []);
    }
  }

  lemma {:induction false} PublishFits(s: State, p: Process, t: State)
    requires Fits(s) && PublishGathered(s, p) == Some(t)
    ensures Fits(t) && Grows(s.disk, t.disk, s.source) && t.source == s.source
  {
    var l := ProcOf(s, p);
    ShardRows(s.source, |s.source|, l.gathered);
    var rows := AllRows(s.source);
    var w' := At(WithFile(View(s, p), l.pass.context.destination, rows), Published(rows));
    PublishKeepsWorld(View(s, p), w');
    OthersFit(s, p, w', l.known, []);
  }

  lemma {:induction false} PublishKeepsWorld(w: World, w': World)
    requires WorldFits(w) && w.pass.Running?
    requires w' == At(WithFile(w, w.pass.context.destination, AllRows(w.source)), Published(AllRows(w.source)))
    ensures WorldFits(w') && Grows(w.disk, w'.disk, w.source)
  {
    assert Grows(w.disk, w'.disk, w.source);
    forall o | o in w'.log && !o.Raised? ensures Lies(w'.disk, w'.source, o.artifact) {
      GrowsKeepsLies(w.disk, w'.disk, w.source, o.artifact);
    }
  }

  lemma {:induction false} StepOneFits(s: State, p: Process, step: Step, t: State)
    requires Fits(s) && !step.Publish? && !step.ChangeSource? && StepOne(s, p, step) == Some(t)
    ensures Fits(t) && Grows(s.disk, t.disk, s.source) && t.source == s.source
  {
    var l, w := ProcOf(s, p), View(s, p);
    if Commits(step, w) && l.known != s.disk.store {
      OthersFit(s, p, w.(pass := Idle), l.known, []);
    } else {
      var w' := Apply(step, w).value;
      StepFits(w, step, w');
      OthersFit(s, p, w', if step.Begin? || Commits(step, w) then w'.disk.store else l.known, []);
    }
  }

  lemma {:induction false} StepOverFits(s: State, p: Process, step: Step, t: State)
    requires Fits(s) && Commits(step, View(s, p)) && StepOver(s, p, step) == Some(t)
    ensures Fits(t) && Grows(s.disk, t.disk, s.source) && t.source == s.source
  {
    var w' := Apply(step, View(s, p)).value;
    StepFits(View(s, p), step, w');
    OthersFit(s, p, w', w'.disk.store, []);
  }

  lemma {:induction false} MoveFits(exclusive: bool, s: State, move: Move, t: State)
    requires Fits(s) && (move.By? ==> !move.step.ChangeSource?) && Take(exclusive, move, s) == Some(t)
    ensures Fits(t) && Grows(s.disk, t.disk, s.source) && t.source == s.source
  {
    if move.Gather? {
      GatherFits(s, move.process, t);
    } else if move.Overwrite? {
      StepOverFits(s, move.process, move.step, t);
    } else if move.step.Publish? {
      PublishFits(s, move.process, t);
    } else {
      StepOneFits(s, move.process, move.step, t);
    }
  }

  // ---------------------------------------------------------------- whole runs

  ghost predicate WholeOrUntouched(disk: Disk, first: Disk, source: Source) {
    forall d | d in disk.files ::
      disk.files[d] == AllRows(source) || (d in first.files && disk.files[d] == first.files[d])
  }

  lemma {:induction false} MovesFit(exclusive: bool, moves: seq<Move>, s0: State, s: State)
    requires Untouched(s0) && SameSource(moves) && TakeAll(exclusive, moves, s0) == Some(s)
    ensures Fits(s) && s.source == s0.source && WholeOrUntouched(s.disk, s0.disk, s0.source)
  {
    if moves != [] {
      var front, last := moves[..|moves| - 1], moves[|moves| - 1];
      var t := TakeAll(exclusive, front, s0).value;
      MovesFit(exclusive, front, s0, t);
      assert last in moves;
      MoveFits(exclusive, t, last, s);
    }
  }

  /**
   With the source fixed and no lock at all, however the passes of any number of processes interleave,
   crash, overtake each other and overwrite each other's records: every published file is untouched or all
   row groups in order, every reported success left that file at its destination, and a recorded completion
   is one of those.
   */
  lemma {:induction false} UnlockedProcessesPublishWholeSource(exclusive: bool, moves: seq<Move>, s0: State, s: State)
    requires Untouched(s0) && SameSource(moves) && TakeAll(exclusive, moves, s0) == Some(s)
    ensures forall d | d in s.disk.files && !(d in s0.disk.files && s.disk.files[d] == s0.disk.files[d]) ::
              s.disk.files[d] == AllRows(s0.source)
    ensures forall o | o in s.log && !o.Raised? ::
              && o.artifact.rows == AllRows(s0.source)
              && o.artifact.destination in s.disk.files && s.disk.files[o.artifact.destination] == AllRows(s0.source)
    ensures s.disk.store.Some? && s.disk.store.value.Completed? ==>
              && s.disk.store.value.artifact.rows == AllRows(s0.source)
              && s.disk.store.value.artifact.destination in s.disk.files
              && s.disk.files[s.disk.store.value.artifact.destination] == AllRows(s0.source)
  {
    MovesFit(exclusive, moves, s0, s);
  }

  // ---------------------------------------------------------------- what the lock adds

  ghost predicate Reached(s0: State, s: State) {
    exists moves :: TakeAll(false, moves, s0) == Some(s) && SameSource(moves)
  }

  lemma {:induction false} Moves(s0: State, s: State, move: Move) returns (t: State)
    requires Reached(s0, s) && Take(false, move, s).Some? && (move.By? ==> !move.step.ChangeSource?)
    ensures Reached(s0, t) && Take(false, move, s) == Some(t)
  {
    var moves :| TakeAll(false, moves, s0) == Some(s) && SameSource(moves);
    assert (moves + [move])[..|moves|] == moves;
    t := Take(false, move, s).value;
    assert TakeAll(false, moves + [move], s0) == Some(t) && SameSource(moves + [move]);
  }

  /** The other processes are where they were. */
  ghost predicate OthersStay(s: State, t: State, p: Process) {
    forall q | q != p :: ProcOf(t, q) == ProcOf(s, q)
  }

  lemma {:induction false} StartsStreaming(s0: State, s: State, p: Process, c: Context) returns (t: State)
    requires Reached(s0, s) && ProcOf(s, p).pass.Idle? && s.disk.store.None?
    requires c == Context(c.destination, true, Some(s.source), None, None, false)
    ensures Reached(s0, t) && t.disk == s.disk && t.source == s.source && t.conflicts == s.conflicts
        && OthersStay(s, t, p)
    ensures ProcOf(t, p) == Proc(Running(c, Streaming(|s.source|, Cursor(0, 0))), None, [])
  {
    t := Moves(s0, s, By(p, Begin(c.destination, true, true)));
    assert ProcOf(t, p) == Proc(Running(c, Loaded), None, []);
    t := Moves(s0, t, By(p, Open));
  }

  lemma {:induction false} WritesShard(s0: State, s: State, p: Process, c: Context, a: Row) returns (t: State)
    requires Reached(s0, s) && s.source == [[a]]
    requires ProcOf(s, p) == Proc(Running(c, Streaming(1, Cursor(0, 0))), None, [])
    ensures Reached(s0, t) && t.disk.store == s.disk.store && t.source == s.source && t.conflicts == s.conflicts
    ensures ProcOf(t, p) == Proc(Running(c, Written(1, Cursor(1, 1))), None, []) && OthersStay(s, t, p)
  {
    t := Acts(s0, s, p, ReadGroup, Holding(1, 0, [a], Cursor(1, 1)), s.disk);
    var cleared := s.disk.(shards := Without(s.disk.shards, c.destination, {0}));
    t := Acts(s0, t, p, ClearShard, Cleared(1, 0, [a], Cursor(1, 1)), cleared);
    t := Acts(s0, t, p, WriteShard, Written(1, Cursor(1, 1)),
              cleared.(shards := cleared.shards[(c.destination, 0) := [a]]));
  }

  /** A step that only touches the shards moves its own pass on. */
  lemma {:induction false} Acts(s0: State, s: State, p: Process, step: Step, stage: Stage, disk: Disk)
    returns (t: State)
    requires Reached(s0, s) && ProcOf(s, p).pass.Running? && (step.ReadGroup? || step.ClearShard? || step.WriteShard?)
    requires Apply(step, View(s, p)) == Some(At(View(s, p).(disk := disk), stage))
    ensures Reached(s0, t) && t.disk == disk && t.source == s.source && t.conflicts == s.conflicts
        && OthersStay(s, t, p)
    ensures ProcOf(t, p) == Proc(Running(ProcOf(s, p).pass.context, stage), ProcOf(s, p).known, [])
  {
    t := Moves(s0, s, By(p, step));
  }

  /** Two passes over one fresh key: the second commit finds the first one's record and is refused. */
  lemma {:induction false} WithoutLockAPassConflicts(s0: State, p: Process, q: Process, d: Destination, a: Row)
    returns (s: State)
    requires Untouched(s0) && s0.source == [[a]] && p != q
    ensures Reached(s0, s) && s.conflicts == [q]
  {
    var c := Context(d, true, Some(s0.source), None, None, false);
    assert TakeAll(false, [], s0) == Some(s0) && SameSource([]);
    s := StartsStreaming(s0, s0, p, c);
    s := StartsStreaming(s0, s, q, c);
    s := WritesShard(s0, s, p, c, a);
    s := WritesShard(s0, s, q, c, a);
    s := Moves(s0, s, By(p, CommitCursor));
    s := Moves(s0, s, By(q, CommitCursor));
  }

  // ---------------------------------------------------------------- when a commit is refused

  /** The move leaves a record behind. */
  ghost predicate Records(s: State, move: Move) {
    match move
    case Gather(_) => false
    case By(p, step) => Commits(step, View(s, p)) && ProcOf(s, p).known == s.disk.store
    case Overwrite(p, step) => Commits(step, View(s, p))
  }

  /** The record that the last commit among the moves left, if there was one. */
  ghost function LastRecord(exclusive: bool, moves: seq<Move>, s0: State): Option<SyncState>
    requires TakeAll(exclusive, moves, s0).Some?
  {
    if moves == [] then None
    else
      var front, last := moves[..|moves| - 1], moves[|moves| - 1];
      if Records(TakeAll(exclusive, front, s0).value, last) then TakeAll(exclusive, moves, s0).value.disk.store
      else LastRecord(exclusive, front, s0)
  }

  lemma {:induction false} StoreAfterMove(exclusive: bool, s: State, move: Move, t: State)
    requires Take(exclusive, move, s) == Some(t)
    ensures if Records(s, move) then t.disk.store.Some? else t.disk.store == s.disk.store
  {
  }

  lemma {:induction false} StoreIsLastRecord(exclusive: bool, moves: seq<Move>, s0: State, s: State)
    requires TakeAll(exclusive, moves, s0) == Some(s)
    ensures var last := LastRecord(exclusive, moves, s0); s.disk.store == if last.Some? then last else s0.disk.store
  {
    if moves != [] {
      var front, last := moves[..|moves| - 1], moves[|moves| - 1];
      var t := TakeAll(exclusive, front, s0).value;
      StoreIsLastRecord(exclusive, front, s0, t);
      StoreAfterMove(exclusive, t, last, s);
    }
  }

  /**
   A commit that compares is refused exactly when, since its pass last read or wrote the record, some other
   commit was made and the last of them left another record than the one known.
   */
  lemma {:induction false} CommitRefusedIff(exclusive: bool, since: seq<Move>, s0: State, s: State, p: Process,
                                            step: Step)
    requires ProcOf(s0, p).known == s0.disk.store && TakeAll(exclusive, since, s0) == Some(s)
    requires ProcOf(s, p).known == ProcOf(s0, p).known && Commits(step, View(s, p))
    ensures var t, last := Take(exclusive, By(p, step), s), LastRecord(exclusive, since, s0);
      && t.Some?
      && (t.value.conflicts == s.conflicts + [p] <==> last.Some? && last != s0.disk.store)
  {
    StoreIsLastRecord(exclusive, since, s0, s);
    assert |s.conflicts + [p]| != |s.conflicts|;
  }
}
