/**
 The pass itself, written over the mutable disk as the program writes it. Each durable write is one
 step of the protocol, so a session is a run of the machine and inherits everything proved of runs.
 */
module SyncSession {
  import opened Wrappers
  import opened RowGroups
  import opened SyncProtocol
  import opened SyncSafety
  import opened SyncDecisions

  class Session {
    const source: Source
    var store: Option<SyncState>
    var shards: map<(Destination, nat), Batch>
    var files: map<Destination, seq<Row>>

    // The protocol's view of this session: where it began, the steps taken, where it is.
    ghost const start: World
    ghost var trace: seq<Step>
    ghost var world: World

    ghost predicate Valid()
      reads this
    {
      && world.disk == Disk(store, shards, files)
      && world.source == source
      && Run(trace, start) == Some(world)
      && FixedSource(trace)
    }

    /** A pass of this destination is at the given stage. */
    ghost predicate In(c: Context, stage: Stage)
      reads this
    {
      Valid() && world.pass == Running(c, stage)
    }

    /** Nothing reported since `before`, and no further pass begun. */
    ghost predicate KeptTrace(before: World, resumed: bool)
      reads this
    {
      world.log == before.log && AlwaysResumes(trace) == resumed
    }

    constructor (source: Source, files: map<Destination, seq<Row>>, shards: map<(Destination, nat), Batch>)
      ensures Valid() && Fresh(start) && trace == [] && world == start
      ensures this.source == source && this.files == files && this.shards == shards && store == None
    {
      this.source, this.files, this.shards, this.store := source, files, shards, None;
      start := World(Disk(None, shards, files), source, {source}, Idle, []);
      trace := [];
      world := World(Disk(None, shards, files), source, {source}, Idle, []);
    }

    ghost method Take(step: Step)
      requires Run(trace, start) == Some(world) && FixedSource(trace) && !step.ChangeSource?
      requires Apply(step, world).Some?
      modifies `trace, `world
      ensures world == Apply(step, old(world)).value && trace == old(trace) + [step]
      ensures Run(trace, start) == Some(world) && FixedSource(trace)
      ensures AlwaysResumes(trace) <==> old(AlwaysResumes(trace)) && (step.Begin? ==> step.resume)
    {
      assert (trace + [step])[..|trace|] == trace;
      world := Apply(step, world).value;
      trace := trace + [step];
    }

    method RequireCheckpointShards(destination: Destination, count: nat) returns (ok: bool)
      ensures ok <==> HasShards(Disk(store, shards, files), destination, count)
    {
      for i := 0 to count
        invariant HasShards(Disk(store, shards, files), destination, i)
      {
        if (destination, i) !in shards {
          return false;
        }
      }
      ok := true;
    }

    method CheckpointBatches(destination: Destination, count: nat) returns (rows: seq<Row>)
      requires HasShards(Disk(store, shards, files), destination, count)
      ensures rows == Concat(StagedShards(Disk(store, shards, files), destination, count))
    {
      rows := [];
      for i := 0 to count
        invariant rows == Concat(StagedShards(Disk(store, shards, files), destination, i))
      {
        rows := rows + shards[(destination, i)];
      }
    }

    method PublishBatchShard(c: Context, count: nat, index: nat, batch: Batch, after: Cursor)
      requires In(c, Holding(count, index, batch, after))
      modifies `shards, `trace, `world
      ensures In(c, Written(count, after))
      ensures KeptTrace(old(world), old(AlwaysResumes(trace)))
      ensures shards == old(shards)[(c.destination, index) := batch]
    {
      if (c.destination, index) in shards {
        shards := shards - {(c.destination, index)};
      }
      Take(ClearShard);
      assert (set i | i in {index} :: (c.destination, i)) == {(c.destination, index)};
      assert shards == world.disk.shards;
      shards := shards[(c.destination, index) := batch];
      Take(WriteShard);
      assert shards == old(shards)[(c.destination, index) := batch];
    }

    method PersistBatchState(c: Context, count: nat, after: Cursor)
      requires In(c, Written(count, after))
      modifies `store, `trace, `world
      ensures In(c, Streaming(count, after))
      ensures KeptTrace(old(world), old(AlwaysResumes(trace)))
      ensures store == Some(InProgress(after, c.version, c.destination))
    {
      store := Some(InProgress(after, c.version, c.destination));
      Take(CommitCursor);
    }

    /** Read one physical row group; stage and commit it when it is not empty. */
    method StageNext(c: Context, next: Cursor) returns (after: Cursor)
      requires In(c, Streaming(|source|, next)) && next.rowGroup < |source|
      modifies `shards, `store, `trace, `world
      ensures In(c, Streaming(|source|, after)) && after.rowGroup == next.rowGroup + 1
      ensures KeptTrace(old(world), old(AlwaysResumes(trace)))
    {
      var batch := source[next.rowGroup];
      Take(ReadGroup);
      if |batch| > 0 {
        after := Cursor(next.nextBatch + 1, next.rowGroup + 1);
        PublishBatchShard(c, |source|, next.nextBatch, batch, after);
        PersistBatchState(c, |source|, after);
      } else {
        after := Cursor(next.nextBatch, next.rowGroup + 1);
      }
    }

    /** Stage every remaining batch, then publish one file; `None` when a shard is missing. */
    method MaterializeCheckpointed(c: Context) returns (rows: Option<seq<Row>>)
      requires In(c, Streaming(|source|, StartCursor(c)))
      modifies this
      ensures Valid() && AlwaysResumes(trace) == old(AlwaysResumes(trace))
      ensures rows.None? ==>
                world.pass.Idle? && world.log == old(world.log) + [Raised(MissingShard)] && files == old(files)
      ensures rows.Some? ==>
                In(c, Published(rows.value)) && world.log == old(world.log)
                  && files == old(files)[c.destination := rows.value]
    {
      var next := StartCursor(c);
      while next.rowGroup < |source|
        invariant In(c, Streaming(|source|, next)) && files == old(files)
        invariant KeptTrace(old(world), old(AlwaysResumes(trace)))
        decreases |source| - next.rowGroup
      {
        next := StageNext(c, next);
      }
      rows := PublishStaged(c, next);
    }

    method PublishStaged(c: Context, next: Cursor) returns (rows: Option<seq<Row>>)
      requires In(c, Streaming(|source|, next)) && next.rowGroup >= |source|
      modifies this
      ensures Valid() && AlwaysResumes(trace) == old(AlwaysResumes(trace))
      ensures rows.None? ==>
                world.pass.Idle? && world.log == old(world.log) + [Raised(MissingShard)] && files == old(files)
      ensures rows.Some? ==>
                In(c, Published(rows.value)) && world.log == old(world.log)
                  && files == old(files)[c.destination := rows.value]
    {
      var ok := RequireCheckpointShards(c.destination, next.nextBatch);
      Take(ReadGroup);
      if !ok {
        return None;
      }
      var content := CheckpointBatches(c.destination, next.nextBatch);
      files := files[c.destination := content];
      Take(Publish);
      rows := Some(content);
    }

    /** `materialize` for a source whose last artifact is healthy: read straight through, then publish. */
    method Materialize(c: Context) returns (rows: seq<Row>)
      requires In(c, PlainReading(|source|, 0, []))
      modifies this
      ensures In(c, PlainPublished(rows)) && KeptTrace(old(world), old(AlwaysResumes(trace)))
      ensures rows == AllRows(source) && files == old(files)[c.destination := rows] && store == old(store)
    {
      rows := [];
      for i := 0 to |source|
        invariant In(c, PlainReading(|source|, i, rows)) && rows == RowsUpTo(source, i)
        invariant files == old(files) && store == old(store)
        invariant KeptTrace(old(world), old(AlwaysResumes(trace)))
      {
        ReadPlainly(c, i, rows);
        rows := rows + source[i];
      }
      files := files[c.destination := rows];
      Take(PlainPublish);
    }

    ghost method ReadPlainly(c: Context, i: nat, rows: seq<Row>)
      requires In(c, PlainReading(|source|, i, rows)) && i < |source|
      modifies `trace, `world
      ensures In(c, PlainReading(|source|, i + 1, rows + source[i]))
      ensures KeptTrace(old(world), old(AlwaysResumes(trace)))
    {
      Take(ReadGroup);
    }

    ghost predicate NoShardsOf(destination: Destination)
      reads `shards
    {
      forall i :: (destination, i) !in shards
    }

    /** Removing the shard directory may fail, and then stops anywhere; what is left is harmless. */
    method CleanupCheckpointed(destination: Destination, fails: bool) returns (removed: set<nat>)
      requires Valid()
      modifies `shards
      ensures shards == Without(old(shards), destination, removed)
      ensures !fails ==> NoShardsOf(destination)
    {
      removed := {};
      var left := set shard | shard in shards && shard.0 == destination :: shard.1;
      while left != {}
        invariant shards == Without(old(shards), destination, removed)
        invariant forall i | (destination, i) in shards :: i in left
        decreases left
      {
        var reached: bool := *;
        if fails && !reached {
          return;
        }
        var i :| i in left;
        shards := shards - {(destination, i)};
        left, removed := left - {i}, removed + {i};
      }
    }

    /** The answer the transaction gives without reading the source, if it gives one. */
    ghost predicate AnswersAtOnce(before: World, destination: Destination, resume: bool, readable: bool,
                                  outcome: Outcome)
      reads this
    {
      var at := before.disk.store;
      && at.Some? && at.value.Completed? && Intact(before, at.value.artifact, destination)
      && (resume || (readable && at.value.version == Some(source)))
      && world.disk == before.disk
      && outcome == if resume then Resumed(at.value.artifact) else SkippedUnchanged(at.value.artifact)
    }

    /** The answer it gives after reading the source plainly over an intact artifact. */
    ghost predicate AnswersPlainly(before: World, destination: Destination, resume: bool, readable: bool,
                                   outcome: Outcome)
      reads this
    {
      var at := before.disk.store;
      && at.Some? && at.value.Completed? && Intact(before, at.value.artifact, destination)
      && !resume && !(readable && at.value.version == Some(source))
      && files == before.disk.files[destination := AllRows(source)]
      && if at.value.artifact.rows == AllRows(source)
         then outcome == SkippedUnchanged(at.value.artifact) && store == at
         else
           && outcome == Materialized(Artifact(destination, AllRows(source)))
           && store == Some(Completed(outcome.artifact, if readable then Some(source) else None))
    }

    /** The answer it gives after going through shards: an error, or an artifact now published and recorded. */
    ghost predicate AnswersThroughShards(before: World, destination: Destination, resume: bool, readable: bool,
                                         removalFails: bool, outcome: Outcome)
      reads this
    {
      var at := before.disk.store;
      var goesOn := resume && exists c, v :: Usable(before, c, v, destination, readable);
      && !(at.Some? && at.value.Completed? && Intact(before, at.value.artifact, destination))
      && (!outcome.Raised? ==>
            && (if goesOn then outcome.Resumed? else outcome.Materialized?)
            && outcome.artifact.destination == destination
            && files == before.disk.files[destination := outcome.artifact.rows]
            && store == Some(Completed(outcome.artifact, if readable then Some(source) else None))
            && (!removalFails ==> NoShardsOf(destination)))
    }

    /**
     One transaction of `sync_resources` for one resource, holding the key lock throughout; `readable` says
     whether the source's digest could be computed at its beginning, `removalFails` whether the shards could
     not all be removed.
     */
    method SyncResource(destination: Destination, resume: bool, readable: bool, removalFails: bool)
      returns (outcome: Outcome)
      requires Valid() && world.pass.Idle?
      modifies this
      ensures Valid() && world.pass.Idle?
      ensures world.log == old(world.log) + [outcome]
      ensures AlwaysResumes(trace) <==> old(AlwaysResumes(trace)) && resume
      ensures || AnswersAtOnce(old(world), destination, resume, readable, outcome)
              || AnswersPlainly(old(world), destination, resume, readable, outcome)
              || AnswersThroughShards(old(world), destination, resume, readable, removalFails, outcome)
      ensures Fresh(start) && !outcome.Raised? ==>
                && outcome.artifact.rows == AllRows(source)
                && outcome.artifact.destination in files && files[outcome.artifact.destination] == AllRows(source)
      ensures Fresh(start) && AlwaysResumes(old(trace)) && resume ==> !outcome.Raised?
    {
      outcome := Transact(destination, resume, readable, removalFails);
      if Fresh(start) {
        PublishesWholeSource(trace, start);
        FixedSourceIsDisciplined(trace, start);
        if AlwaysResumes(old(trace)) && resume {
          CheckpointsAreBacked(trace, start);
        }
        assert world.log[|world.log| - 1] == outcome;
      }
    }

    method Transact(destination: Destination, resume: bool, readable: bool, removalFails: bool)
      returns (outcome: Outcome)
      requires Valid() && world.pass.Idle?
      modifies this
      ensures Valid() && world.pass.Idle?
      ensures world.log == old(world.log) + [outcome]
      ensures AlwaysResumes(trace) <==> old(AlwaysResumes(trace)) && resume
      ensures || AnswersAtOnce(old(world), destination, resume, readable, outcome)
              || AnswersPlainly(old(world), destination, resume, readable, outcome)
              || AnswersThroughShards(old(world), destination, resume, readable, removalFails, outcome)
    {
      ghost var before := world;
      var loading := Load(Disk(store, shards, files), if readable then Some(source) else None, destination, resume);
      Take(Begin(destination, resume, readable));
      if loading.Done? {
        return loading.outcome;
      }
      UsableIff(before, destination, resume, readable, loading.context);
      if UseCheckpointed(loading.context) {
        outcome := TransactCheckpointed(loading.context, removalFails);
      } else {
        outcome := TransactPlainly(loading.context);
      }
    }

    /** What the loaded context carries on, in terms of what lay on disk. */
    lemma UsableIff(before: World, destination: Destination, resume: bool, readable: bool, c: Context)
      requires before.source == source
      requires Load(before.disk, if readable then Some(source) else None, destination, resume) == Proceed(c)
      ensures c.destination == destination && c.resume == resume && c.version == if readable then Some(source) else None
      ensures c.checkpoint.Some? <==> exists cursor, v :: Usable(before, cursor, v, destination, readable)
      ensures var at := before.disk.store;
        if at.Some? && at.value.Completed? && Intact(before, at.value.artifact, destination)
        then c.prior == Some(at.value.artifact) && c.healthy && c.checkpoint.None?
             && !resume && !(readable && at.value.version == Some(source))
        else UseCheckpointed(c)
    {
      var at := before.disk.store;
      if c.checkpoint.Some? {
        assert Usable(before, at.value.cursor, at.value.version, destination, readable);
      }
    }

    method TransactPlainly(c: Context) returns (outcome: Outcome)
      requires In(c, Loaded) && !UseCheckpointed(c)
      modifies this
      ensures Valid() && world.pass.Idle?
      ensures world.log == old(world.log) + [outcome] && AlwaysResumes(trace) == old(AlwaysResumes(trace))
      ensures files == old(files)[c.destination := AllRows(source)]
      ensures if c.prior.value.rows == AllRows(source)
              then outcome == SkippedUnchanged(c.prior.value) && store == old(store)
              else outcome == Materialized(Artifact(c.destination, AllRows(source)))
                   && store == Some(Completed(outcome.artifact, c.version))
    {
      Take(Open);
      var plain := Materialize(c);
      if c.prior.value.rows == plain {
        outcome := SkippedUnchanged(c.prior.value);
      } else {
        outcome := Materialized(Artifact(c.destination, plain));
        store := Some(Completed(Artifact(c.destination, plain), c.version));
      }
      Take(PlainFinish);
    }

    /** The artifact is recorded, and called resumed exactly when the pass went on from a checkpoint. */
    ghost predicate Records(c: Context, outcome: Outcome)
      requires !outcome.Raised?
      reads this
    {
      && store == Some(Completed(outcome.artifact, c.version))
      && (if c.resume && c.checkpoint.Some? then outcome.Resumed? else outcome.Materialized?)
    }

    ghost predicate Delivers(c: Context, before: map<Destination, seq<Row>>, outcome: Outcome)
      requires !outcome.Raised?
      reads this
    {
      && Records(c, outcome) && outcome.artifact.destination == c.destination
      && files == before[c.destination := outcome.artifact.rows]
    }

    method TransactCheckpointed(c: Context, removalFails: bool) returns (outcome: Outcome)
      requires In(c, Loaded) && UseCheckpointed(c)
      modifies this
      ensures Valid() && world.pass.Idle?
      ensures world.log == old(world.log) + [outcome] && AlwaysResumes(trace) == old(AlwaysResumes(trace))
      ensures !outcome.Raised? ==> Delivers(c, old(files), outcome)
      ensures !outcome.Raised? && !removalFails ==> NoShardsOf(c.destination)
    {
      var first := StartCursor(c);
      var ok := RequireCheckpointShards(c.destination, first.nextBatch);
      Take(Open);
      if first.rowGroup > |source| {
        return Raised(BeyondFooter);
      }
      if !ok {
        return Raised(MissingShard);
      }
      var rows := MaterializeCheckpointed(c);
      if rows.None? {
        return Raised(MissingShard);
      }
      outcome := Settle(c, rows.value, removalFails);
    }

    /** The post-publication digest, then the recorded completion, then the shards' removal. */
    method Settle(c: Context, rows: seq<Row>, removalFails: bool) returns (outcome: Outcome)
      requires In(c, Published(rows))
      modifies this
      ensures Valid() && world.pass.Idle?
      ensures world.log == old(world.log) + [outcome] && AlwaysResumes(trace) == old(AlwaysResumes(trace))
      ensures files == old(files)
      ensures !outcome.Raised? ==> outcome.artifact == Artifact(c.destination, rows) && Records(c, outcome)
      ensures !removalFails ==> NoShardsOf(c.destination)
    {
      var readable := *;
      Take(PostCheck(readable));
      if readable && c.version.Some? && c.version.value != source {
        var removed := CleanupCheckpointed(c.destination, removalFails);
        Take(CleanUp(removed));
        outcome := Raised(SourceChanged);
      } else {
        outcome := Complete(c, rows, removalFails);
      }
    }

    method Complete(c: Context, rows: seq<Row>, removalFails: bool) returns (outcome: Outcome)
      requires In(c, Verified(rows))
      modifies this
      ensures Valid() && world.pass.Idle?
      ensures world.log == old(world.log) + [outcome] && AlwaysResumes(trace) == old(AlwaysResumes(trace))
      ensures files == old(files)
      ensures !outcome.Raised? && outcome.artifact == Artifact(c.destination, rows) && Records(c, outcome)
      ensures !removalFails ==> NoShardsOf(c.destination)
    {
      var artifact := Artifact(c.destination, rows);
      store := Some(Completed(artifact, c.version));
      Take(CommitCompleted);
      var removed := CleanupCheckpointed(c.destination, removalFails);
      Take(CleanUp(removed));
      outcome := if c.resume && c.checkpoint.Some? then Resumed(artifact) else Materialized(artifact);
    }
  }

  /** The artifact of any successful resumed pass is the artifact of one uncut pass over the same source. */
  method ResumedEqualsUncut(source: Source, destination: Destination, interrupted: seq<Step>) returns (uncut: Outcome)
    ensures uncut == Materialized(Artifact(destination, AllRows(source)))
    ensures forall w0, o | Fresh(w0) && w0.source == source && FixedSource(interrupted) && Run(interrupted, w0).Some?
                           && o in Run(interrupted, w0).value.log && !o.Raised?
                             && o.artifact.destination == destination ::
              && o.artifact == uncut.artifact
              && destination in Run(interrupted, w0).value.disk.files
              && Run(interrupted, w0).value.disk.files[destination] == AllRows(source)
  {
    var session := new Session(source, map[], map[]);
    uncut := session.SyncResource(destination, true, true, false);
    forall w0 | Fresh(w0) && w0.source == source && FixedSource(interrupted) && Run(interrupted, w0).Some? {
      PublishesWholeSource(interrupted, w0);
    }
  }
}
