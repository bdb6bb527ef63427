/** What every run of the checkpointed synchronisation keeps, whatever crashes. */
module SyncSafety {
  import opened Wrappers
  import opened RowGroups
  import opened SyncProtocol

  // ---------------------------------------------------------------- the invariant

  /** A version that a checkpoint of this source would be resumed under. */
  ghost predicate Matches(version: Version, source: Source) {
    version.None? || version.value == source
  }

  ghost predicate CursorRight(source: Source, c: Cursor) {
    c.rowGroup <= |source| && c.nextBatch == Count(source, c.rowGroup)
  }

  /** Whichever of the first `k` shards exist are the source's own non-empty row groups, in order. */
  ghost predicate ShardsRight(disk: Disk, d: Destination, source: Source, k: nat) {
    && k <= Count(source, |source|)
    && forall i | 0 <= i < k && (d, i) in disk.shards :: disk.shards[(d, i)] == Shard(source, i)
  }

  ghost predicate StoreRight(w: World) {
    w.disk.store.Some? && w.disk.store.value.InProgress? && Matches(w.disk.store.value.version, w.source) ==>
      var state := w.disk.store.value;
      CursorRight(w.source, state.cursor) && ShardsRight(w.disk, state.destination, w.source, state.cursor.nextBatch)
  }

  /** The rows of some version of the source, whole: no row lost, repeated or taken from another version. */
  ghost predicate Whole(rows: seq<Row>, seen: set<Source>) {
    exists v | v in seen :: rows == AllRows(v)
  }

  ghost predicate WholeUnder(rows: seq<Row>, version: Version, seen: set<Source>) {
    Whole(rows, seen) && (version.Some? ==> rows == AllRows(version.value))
  }

  ghost predicate RecordsRight(w: World) {
    w.disk.store.Some? && w.disk.store.value.Completed? ==>
      WholeUnder(w.disk.store.value.artifact.rows, w.disk.store.value.version, w.seen)
  }

  ghost predicate LogRight(w: World) {
    forall o | o in w.log && !o.Raised? :: Whole(o.artifact.rows, w.seen)
  }

  ghost predicate Known(w: World) {
    && w.source in w.seen
    && (w.disk.store.Some? && w.disk.store.value.version.Some? ==> w.disk.store.value.version.value in w.seen)
    && (w.pass.Running? && w.pass.context.version.Some? ==> w.pass.context.version.value in w.seen)
    && (w.pass.Running? && w.pass.context.prior.Some? ==> Whole(w.pass.context.prior.value.rows, w.seen))
  }

  /** What a pass over the current source knows at each stage. */
  ghost predicate StageRight(w: World, c: Context, stage: Stage) {
    var d, src := c.destination, w.source;
    match stage
    case Loaded =>
      c.checkpoint.Some? ==>
        && w.disk.store.Some? && w.disk.store.value.InProgress?
        && w.disk.store.value.cursor == c.checkpoint.value && w.disk.store.value.destination == d
        && Matches(w.disk.store.value.version, src)
    case Streaming(count, next) =>
      count == |src| && CursorRight(src, next) && HasShards(w.disk, d, next.nextBatch)
        && ShardsRight(w.disk, d, src, next.nextBatch)
    case Holding(count, index, batch, after) => HoldingRight(w, c, count, index, batch, after)
    case Cleared(count, index, batch, after) => HoldingRight(w, c, count, index, batch, after)
    case Written(count, after) =>
      count == |src| && CursorRight(src, after) && HasShards(w.disk, d, after.nextBatch)
        && ShardsRight(w.disk, d, src, after.nextBatch)
    case Staged(n) =>
      n == Count(src, |src|) && HasShards(w.disk, d, n) && ShardsRight(w.disk, d, src, n)
    case Published(rows) => rows == AllRows(src)
    case PlainReading(count, group, rows) => count == |src| && group <= count && rows == RowsUpTo(src, group)
    case _ => true
  }

  ghost predicate HoldingRight(w: World, c: Context, count: nat, index: nat, batch: Batch, after: Cursor) {
    && count == |w.source| && CursorRight(w.source, after) && after.nextBatch == index + 1
    && index < Count(w.source, |w.source|) && Shard(w.source, index) == batch
    && HasShards(w.disk, c.destination, index) && ShardsRight(w.disk, c.destination, w.source, index)
  }

  ghost predicate PassRight(w: World) {
    w.pass.Running? ==>
      var c, stage := w.pass.context, w.pass.stage;
      && (Matches(c.version, w.source) ==> StageRight(w, c, stage))
      && (!Matches(c.version, w.source) ==>
            && (w.disk.store.Some? && w.disk.store.value.InProgress? ==> !Matches(w.disk.store.value.version, w.source))
            && !stage.PlainReading? && (stage.Loaded? ==> UseCheckpointed(c)))
      && (stage.Verified? || stage.CleaningUp? || stage.PlainPublished? ==> WholeUnder(stage.rows, c.version, w.seen))
      && (stage.PlainReading? || stage.PlainPublished? ==> !UseCheckpointed(c))
  }

  ghost predicate Sound(w: World) {
    Known(w) && StoreRight(w) && RecordsRight(w) && LogRight(w) && PassRight(w)
  }

  // ---------------------------------------------------------------- the discipline

  /** No digest vouches for the checkpoint in use, so a later source cannot be told from this one. */
  ghost predicate Blind(w: World) {
    || (w.disk.store.Some? && w.disk.store.value.InProgress? && w.disk.store.value.version.None?)
    || (w.pass.Running? && w.pass.context.version.None?)
  }

  /** A pass that re-reads a source whose last artifact is healthy; it has no post-publication check. */
  ghost predicate ReadingPlainly(w: World) {
    w.pass.Running? && !UseCheckpointed(w.pass.context) && (w.pass.stage.Loaded? || w.pass.stage.PlainReading?)
  }

  /**
   The environment steps under which recorded artifacts are whole: a changed source is a version not
   seen before and arrives when a digest protects the checkpoint and no unchecked pass is reading;
   a digest that fails to compute does so only while the source is unchanged.
   */
  ghost predicate Disciplined(step: Step, w: World) {
    match step
    case ChangeSource(newSource) => newSource !in w.seen && !Blind(w) && !ReadingPlainly(w)
    case Begin(_, _, readable) =>
      readable || !(w.disk.store.Some? && w.disk.store.value.InProgress?)
        || Matches(w.disk.store.value.version, w.source)
    case PostCheck(readable) => readable || !w.pass.Running? || Matches(w.pass.context.version, w.source)
    case _ => true
  }

  /** Every step of a run is disciplined where it is taken. */
  ghost predicate DisciplinedRun(steps: seq<Step>, w: World)
    requires Run(steps, w).Some?
  {
    steps == [] ||
    (DisciplinedRun(steps[..|steps| - 1], w)
     && Disciplined(steps[|steps| - 1], Run(steps[..|steps| - 1], w).value))
  }

  // ---------------------------------------------------------------- one step

  lemma {:induction false} ShardsConcatenate(disk: Disk, d: Destination, source: Source)
    requires HasShards(disk, d, Count(source, |source|)) && ShardsRight(disk, d, source, Count(source, |source|))
    ensures Concat(StagedShards(disk, d, Count(source, |source|))) == AllRows(source)
  {
    ShardRows(source, |source|, StagedShards(disk, d, Count(source, |source|)));
  }

  lemma {:induction false} BeginKeeps(w: World, step: Step, w': World)
    requires Sound(w) && step.Begin? && Disciplined(step, w) && Apply(step, w) == Some(w')
    ensures Sound(w')
  {
  }

  lemma {:induction false} OpenKeeps(w: World, step: Step, w': World)
    requires Sound(w) && step.Open? && Apply(step, w) == Some(w')
    ensures Sound(w')
  {
  }

  lemma {:induction false} ReadKeeps(w: World, step: Step, w': World)
    requires Sound(w) && step.ReadGroup? && Apply(step, w) == Some(w')
    ensures Sound(w')
  {
    if w.pass.stage.Streaming? && w.pass.stage.next.rowGroup < |w.source| {
      if Matches(w.pass.context.version, w.source) {
        CountStep(w.source, w.pass.stage.next.rowGroup);
      }
    }
  }

  lemma {:induction false} ClearKeeps(w: World, step: Step, w': World)
    requires Sound(w) && step.ClearShard? && Apply(step, w) == Some(w')
    ensures Sound(w')
  {
  }

  lemma {:induction false} WriteKeeps(w: World, step: Step, w': World)
    requires Sound(w) && step.WriteShard? && Apply(step, w) == Some(w')
    ensures Sound(w')
  {
    if Matches(w.pass.context.version, w.source) {
      CountMonotone(w.source, w.pass.stage.after.rowGroup, |w.source|);
    }
  }

  lemma {:induction false} CommitKeeps(w: World, step: Step, w': World)
    requires Sound(w) && (step.CommitCursor? || step.CommitCompleted?) && Apply(step, w) == Some(w')
    ensures Sound(w')
  {
  }

  lemma {:induction false} PublishKeeps(w: World, step: Step, w': World)
    requires Sound(w) && (step.Publish? || step.PlainPublish? || step.PlainFinish?) && Apply(step, w) == Some(w')
    ensures Sound(w')
  {
    if step.Publish? && Matches(w.pass.context.version, w.source) {
      ShardsConcatenate(w.disk, w.pass.context.destination, w.source);
    }
  }

  lemma {:induction false} EndKeeps(w: World, step: Step, w': World)
    requires Sound(w) && (step.PostCheck? || step.CleanUp? || step.Crash?)
    requires Disciplined(step, w) && Apply(step, w) == Some(w')
    ensures Sound(w')
  {
  }

  lemma {:induction false} ChangeKeeps(w: World, step: Step, w': World)
    requires Sound(w) && step.ChangeSource? && Disciplined(step, w) && Apply(step, w) == Some(w')
    ensures Sound(w')
  {
    assert forall rows | Whole(rows, w.seen) :: Whole(rows, w'.seen);
  }

  lemma {:induction false} StepKeepsSound(w: World, step: Step, w': World)
    requires Sound(w) && Disciplined(step, w) && Apply(step, w) == Some(w')
    ensures Sound(w')
  {
    match step
    case Begin(_, _, _) => BeginKeeps(w, step, w');
    case Open => OpenKeeps(w, step, w');
    case ReadGroup => ReadKeeps(w, step, w');
    case ClearShard => ClearKeeps(w, step, w');
    case WriteShard => WriteKeeps(w, step, w');
    case CommitCursor => CommitKeeps(w, step, w');
    case CommitCompleted => CommitKeeps(w, step, w');
    case ChangeSource(_) => ChangeKeeps(w, step, w');
    case Publish => PublishKeeps(w, step, w');
    case PlainPublish => PublishKeeps(w, step, w');
    case PlainFinish => PublishKeeps(w, step, w');
    case PostCheck(_) => EndKeeps(w, step, w');
    case CleanUp(_) => EndKeeps(w, step, w');
    case Crash => EndKeeps(w, step, w');
  }

  // ---------------------------------------------------------------- whole runs

  /** No state is recorded yet; shards and files may be left over from anything. */
  ghost predicate Fresh(w: World) {
    w.pass.Idle? && w.disk.store.None? && w.log == [] && w.seen == {w.source}
  }

  lemma {:induction false} RunKeepsSound(steps: seq<Step>, w0: World)
    requires Sound(w0) && Run(steps, w0).Some? && DisciplinedRun(steps, w0)
    ensures Sound(Run(steps, w0).value)
  {
    if steps != [] {
      RunKeepsSound(steps[..|steps| - 1], w0);
      StepKeepsSound(Run(steps[..|steps| - 1], w0).value, steps[|steps| - 1], Run(steps, w0).value);
    }
  }

  /**
   Over any disciplined run, crashes included, with the source replaced between and during passes:
   a recorded completion names exactly the rows of the version it records, every reported artifact is
   some whole version, and a checkpoint that would be resumed counts shards that are right.
   */
  lemma {:induction false} RecordedArtifactsAreWhole(steps: seq<Step>, w0: World)
    requires Fresh(w0) && Run(steps, w0).Some? && DisciplinedRun(steps, w0)
    ensures RecordsRight(Run(steps, w0).value)
    ensures LogRight(Run(steps, w0).value)
    ensures StoreRight(Run(steps, w0).value)
  {
    RunKeepsSound(steps, w0);
  }

  ghost predicate FixedSource(steps: seq<Step>) {
    forall s | s in steps :: !s.ChangeSource?
  }

  lemma {:induction false} LoneVersionStep(w: World, step: Step, w': World)
    requires Sound(w) && w.seen == {w.source} && !step.ChangeSource? && Apply(step, w) == Some(w')
    ensures Disciplined(step, w) && w'.source == w.source && w'.seen == w.seen
  {
  }

  /** With the source fixed every step is disciplined, whether or not digests can be computed. */
  lemma {:induction false} FixedSourceIsDisciplined(steps: seq<Step>, w0: World)
    requires Sound(w0) && w0.seen == {w0.source} && FixedSource(steps) && Run(steps, w0).Some?
    ensures DisciplinedRun(steps, w0)
    ensures var w := Run(steps, w0).value; Sound(w) && w.source == w0.source && w.seen == w0.seen
  {
    if steps != [] {
      var front, last := steps[..|steps| - 1], steps[|steps| - 1];
      FixedSourceIsDisciplined(front, w0);
      LoneVersionStep(Run(front, w0).value, last, Run(steps, w0).value);
      StepKeepsSound(Run(front, w0).value, last, Run(steps, w0).value);
    }
  }

  /** What a fixed source adds: everything published, recorded or reported is the source itself. */
  ghost predicate Delivered(w: World, w0: World) {
    && (forall d | d in w.disk.files ::
          w.disk.files[d] == AllRows(w.source) || (d in w0.disk.files && w.disk.files[d] == w0.disk.files[d]))
    && (w.disk.store.Some? && w.disk.store.value.Completed? ==> Holds(w, w.disk.store.value.artifact))
    && (forall o | o in w.log && !o.Raised? :: Holds(w, o.artifact))
    && (w.pass.Running? ==>
          var c, stage := w.pass.context, w.pass.stage;
          && (c.healthy ==> c.prior.Some? && c.prior.value.destination == c.destination)
          && (stage.Published? || stage.Verified? || stage.CleaningUp? || stage.PlainPublished? ==>
                Holds(w, Artifact(c.destination, stage.rows))))
  }

  /** The artifact is the whole source, and the published file at its destination has those bytes. */
  ghost predicate Holds(w: World, a: Artifact) {
    a.rows == AllRows(w.source) && a.destination in w.disk.files && w.disk.files[a.destination] == a.rows
  }

  /** Publishing the whole source, in either kind of pass. */
  lemma {:induction false} FileDelivers(w0: World, w: World, stage: Stage)
    requires Delivered(w, w0) && w.pass.Running? && (stage.Published? || stage.PlainPublished?)
    requires stage.rows == AllRows(w.source)
    ensures Delivered(At(WithFile(w, w.pass.context.destination, stage.rows), stage), w0)
  {
    var w' := At(WithFile(w, w.pass.context.destination, stage.rows), stage);
    assert forall a | Holds(w, a) :: Holds(w', a);
  }

  lemma {:induction false} PublishDelivers(w0: World, w: World, w': World)
    requires Sound(w) && Delivered(w, w0) && w.seen == {w.source} && Apply(Publish, w) == Some(w')
    ensures Delivered(w', w0)
  {
    PublishesStaged(w);
    FileDelivers(w0, w, Published(AllRows(w.source)));
  }

  /** When only one source was ever seen, the staged shards are all of it. */
  lemma {:induction false} PublishesStaged(w: World)
    requires Sound(w) && w.seen == {w.source} && Apply(Publish, w).Some?
    ensures Concat(StagedShards(w.disk, w.pass.context.destination, w.pass.stage.shardCount)) == AllRows(w.source)
  {
    ShardsConcatenate(w.disk, w.pass.context.destination, w.source);
  }

  lemma {:induction false} PlainPublishDelivers(w0: World, w: World, w': World)
    requires Sound(w) && Delivered(w, w0) && w.seen == {w.source} && Apply(PlainPublish, w) == Some(w')
    ensures Delivered(w', w0)
  {
    FileDelivers(w0, w, w'.pass.stage);
  }

  lemma {:induction false} ReportDelivers(w0: World, w: World, step: Step, w': World)
    requires Sound(w) && Delivered(w, w0) && w.seen == {w.source} && Apply(step, w) == Some(w')
    requires step.Begin? || step.PlainFinish? || step.CleanUp?
    ensures Delivered(w', w0)
  {
    assert forall a | Holds(w, a) :: Holds(w', a);
    if step.PlainFinish? {
      assert Holds(w, Artifact(w.pass.context.destination, w.pass.stage.rows));
    }
  }

  lemma {:induction false} StepDelivers(w0: World, w: World, step: Step, w': World)
    requires Sound(w) && Delivered(w, w0) && w.seen == {w.source} && !step.ChangeSource? && Apply(step, w) == Some(w')
    ensures Delivered(w', w0)
  {
    if step.Publish? {
      PublishDelivers(w0, w, w');
    } else if step.PlainPublish? {
      PlainPublishDelivers(w0, w, w');
    } else if step.Begin? || step.PlainFinish? || step.CleanUp? {
      ReportDelivers(w0, w, step, w');
    } else {
      StageDelivers(w0, w, step, w');
    }
  }

  lemma {:induction false} StageDelivers(w0: World, w: World, step: Step, w': World)
    requires Delivered(w, w0) && Apply(step, w) == Some(w')
    requires step.Open? || step.ReadGroup? || step.ClearShard? || step.WriteShard? || step.CommitCursor?
             || step.PostCheck? || step.CommitCompleted? || step.Crash?
    ensures Delivered(w', w0)
  {
    assert w'.disk.files == w.disk.files && w'.source == w.source;
    assert forall a | Holds(w, a) :: Holds(w', a);
  }

  lemma {:induction false} RunDelivers(steps: seq<Step>, w0: World)
    requires Fresh(w0) && FixedSource(steps) && Run(steps, w0).Some?
    ensures Delivered(Run(steps, w0).value, w0)
  {
    if steps != [] {
      var front := steps[..|steps| - 1];
      RunDelivers(front, w0);
      FixedSourceIsDisciplined(front, w0);
      StepDelivers(w0, Run(front, w0).value, steps[|steps| - 1], Run(steps, w0).value);
    }
  }

  /**
   Crash safety. With the source fixed, after any number of passes in any mix of resume modes and
   destinations, each crashing anywhere: every published file is either untouched or exactly the rows
   of all row groups in order, and every reported success left that file at its destination.
   */
  lemma {:induction false} PublishesWholeSource(steps: seq<Step>, w0: World)
    requires Fresh(w0) && FixedSource(steps) && Run(steps, w0).Some?
    ensures var w := Run(steps, w0).value;
      && (forall d | d in w.disk.files && !(d in w0.disk.files && w.disk.files[d] == w0.disk.files[d]) ::
            w.disk.files[d] == AllRows(w0.source))
      && (forall o | o in w.log && !o.Raised? ::
            && o.artifact.rows == AllRows(w0.source)
            && o.artifact.destination in w.disk.files
            && w.disk.files[o.artifact.destination] == AllRows(w0.source))
  {
    RunDelivers(steps, w0);
    FixedSourceIsDisciplined(steps, w0);
  }

  // ---------------------------------------------------------------- runs that always resume

  ghost predicate AlwaysResumes(steps: seq<Step>) {
    forall s | s in steps && s.Begin? :: s.resume
  }

  /** The durable checkpoint names shards that all exist, and the running pass never steps below it. */
  ghost predicate Backed(w: World) {
    && (w.disk.store.Some? && w.disk.store.value.InProgress? ==>
          HasShards(w.disk, w.disk.store.value.destination, w.disk.store.value.cursor.nextBatch))
    && (forall o | o in w.log :: !o.Raised?)
    && (w.pass.Running? ==> w.pass.context.resume && AtLeast(w, w.pass.context, w.pass.stage))
  }

  /** The cursor of a checkpoint committed for this pass's destination, if that is what is stored. */
  ghost function Floor(w: World, c: Context): Option<Cursor> {
    if w.disk.store.Some? && w.disk.store.value.InProgress? && w.disk.store.value.destination == c.destination
    then Some(w.disk.store.value.cursor) else None
  }

  ghost predicate AtLeast(w: World, c: Context, stage: Stage) {
    match stage
    case Loaded => Floor(w, c) == c.checkpoint && !(c.prior.Some? && c.healthy)
    case Streaming(_, next) => Floor(w, c).Some? ==> Floor(w, c).value.nextBatch <= next.nextBatch
    case Holding(_, index, _, _) => Floor(w, c).Some? ==> Floor(w, c).value.nextBatch <= index
    case Cleared(_, index, _, _) => Floor(w, c).Some? ==> Floor(w, c).value.nextBatch <= index
    case Written(_, after) => Floor(w, c).Some? ==> Floor(w, c).value.nextBatch <= after.nextBatch
    case CleaningUp(_) => Floor(w, c).None?
    case Mismatched => false
    case PlainReading(_, _, _) => false
    case PlainPublished(_) => false
    case _ => true
  }

  lemma {:induction false} ShardStepKeepsBacked(w: World, step: Step, w': World)
    requires Sound(w) && Backed(w) && w.seen == {w.source} && Apply(step, w) == Some(w')
    requires step.ReadGroup? || step.ClearShard? || step.WriteShard? || step.CommitCursor?
    ensures Backed(w')
  {
    if step.ReadGroup? && w.pass.stage.Streaming? && w.pass.stage.next.rowGroup < |w.source| {
      CountStep(w.source, w.pass.stage.next.rowGroup);
    }
  }

  lemma {:induction false} OtherStepKeepsBacked(w: World, step: Step, w': World)
    requires Sound(w) && Backed(w) && w.seen == {w.source} && Apply(step, w) == Some(w')
    requires !(step.ReadGroup? || step.ClearShard? || step.WriteShard? || step.CommitCursor?)
    requires !step.ChangeSource? && (step.Begin? ==> step.resume)
    ensures Backed(w')
  {
  }

  lemma {:induction false} StepKeepsBacked(w: World, step: Step, w': World)
    requires Sound(w) && Backed(w) && w.seen == {w.source} && Apply(step, w) == Some(w')
    requires !step.ChangeSource? && (step.Begin? ==> step.resume)
    ensures Backed(w')
  {
    if step.ReadGroup? || step.ClearShard? || step.WriteShard? || step.CommitCursor? {
      ShardStepKeepsBacked(w, step, w');
    } else {
      OtherStepKeepsBacked(w, step, w');
    }
  }

  lemma {:induction false} RunKeepsBacked(steps: seq<Step>, w0: World)
    requires Fresh(w0) && FixedSource(steps) && AlwaysResumes(steps) && Run(steps, w0).Some?
    ensures Backed(Run(steps, w0).value)
  {
    if steps != [] {
      var front := steps[..|steps| - 1];
      RunKeepsBacked(front, w0);
      FixedSourceIsDisciplined(front, w0);
      StepKeepsBacked(Run(front, w0).value, steps[|steps| - 1], Run(steps, w0).value);
    }
  }

  /**
   When every pass resumes, no pass ever raises, and at every step the durable checkpoint (k, r) has
   shards 0..k-1 on disk, equal to the non-empty groups among the first r in order.
   */
  lemma {:induction false} CheckpointsAreBacked(steps: seq<Step>, w0: World)
    requires Fresh(w0) && FixedSource(steps) && AlwaysResumes(steps) && Run(steps, w0).Some?
    ensures var w := Run(steps, w0).value;
      && (forall o | o in w.log :: !o.Raised?)
      && (w.disk.store.Some? && w.disk.store.value.InProgress? ==>
            var state := w.disk.store.value;
            && state.cursor.rowGroup <= |w0.source|
            && state.cursor.nextBatch == Count(w0.source, state.cursor.rowGroup)
            && HasShards(w.disk, state.destination, state.cursor.nextBatch)
            && forall i | 0 <= i < state.cursor.nextBatch ::
                 w.disk.shards[(state.destination, i)] == NonEmpty(w0.source, 0, state.cursor.rowGroup)[i].1)
  {
    RunKeepsBacked(steps, w0);
    FixedSourceIsDisciplined(steps, w0);
    var w := Run(steps, w0).value;
    if w.disk.store.Some? && w.disk.store.value.InProgress? {
      CountMonotone(w0.source, w.disk.store.value.cursor.rowGroup, |w0.source|);
    }
  }
}
