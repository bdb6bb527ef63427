/**
 Checkpointed synchronisation of one Parquet resource, as a machine whose steps are the durable
 writes of a pass. A crash may fall between any two of them and loses everything but the disk:
 the state record, the staged shards and the published files. The per-key lock lets one pass
 run at a time. A digest is injective, so a source version is represented by the source itself.
 */
module SyncProtocol {
  import opened Wrappers
  import opened RowGroups

  /** A canonical destination identity. */
  type Destination(==, !new)
  type Source = seq<Batch>
  /** `None` when the source digest could not be computed. */
  type Version = Option<Source>

  datatype Artifact = Artifact(destination: Destination, rows: seq<Row>)

  datatype SyncState =
    | InProgress(cursor: Cursor, version: Version, destination: Destination)
    | Completed(artifact: Artifact, version: Version)

  datatype Disk = Disk(
    store: Option<SyncState>,
    shards: map<(Destination, nat), Batch>,
    files: map<Destination, seq<Row>>)

  /** What `_load_sync_context` carries through a pass. */
  datatype Context = Context(
    destination: Destination,
    resume: bool,
    version: Version,
    checkpoint: Option<Cursor>,
    prior: Option<Artifact>,
    healthy: bool)

  datatype Stage =
    | Loaded
    | Streaming(count: nat, next: Cursor)                     // between row groups
    | Holding(count: nat, index: nat, batch: Batch, after: Cursor)  // a batch is read
    | Cleared(count: nat, index: nat, batch: Batch, after: Cursor)  // an old shard of that index is gone
    | Written(count: nat, after: Cursor)                      // the shard is in place, its cursor is not committed
    | Staged(shardCount: nat)
    | Published(rows: seq<Row>)
    | Verified(rows: seq<Row>)
    | CleaningUp(rows: seq<Row>)
    | Mismatched
    | PlainReading(count: nat, group: nat, rows: seq<Row>)
    | PlainPublished(rows: seq<Row>)

  datatype Pass = Idle | Running(context: Context, stage: Stage)

  datatype Error = BeyondFooter | MissingShard | ReadFailed | SourceChanged

  datatype Outcome =
    | Resumed(artifact: Artifact)
    | SkippedUnchanged(artifact: Artifact)
    | Materialized(artifact: Artifact)
    | Raised(error: Error)

  datatype World = World(disk: Disk, source: Source, seen: set<Source>, pass: Pass, log: seq<Outcome>)

  datatype Step =
    | Begin(destination: Destination, resume: bool, readable: bool)
    | Open
    | ReadGroup
    | ClearShard
    | WriteShard
    | CommitCursor
    | Publish
    | PostCheck(readable: bool)
    | CommitCompleted
    | CleanUp(removed: set<nat>)
    | PlainPublish
    | PlainFinish
    | Crash
    | ChangeSource(newSource: Source)

  // ---------------------------------------------------------------- decisions of one pass

  predicate Healthy(disk: Disk, artifact: Artifact, destination: Destination) {
    && artifact.destination == destination
    && destination in disk.files
    && disk.files[destination] == artifact.rows
  }

  predicate Stale(state: SyncState, version: Version, destination: Destination)
    requires state.InProgress?
  {
    || (version.Some? && state.version.Some? && version != state.version)
    || state.destination != destination
  }

  datatype Loading = Done(outcome: Outcome) | Proceed(context: Context)

  /** `_load_sync_context` for a local Parquet resource. */
  function Load(disk: Disk, version: Version, destination: Destination, resume: bool): Loading {
    var checkpointed := disk.store.Some? && disk.store.value.InProgress?;
    var completed := disk.store.Some? && disk.store.value.Completed?;
    if resume && completed && Healthy(disk, disk.store.value.artifact, destination) then
      Done(Resumed(disk.store.value.artifact))
    else if checkpointed then
      if Stale(disk.store.value, version, destination) then
        Proceed(Context(destination, resume, version, None, None, false))
      else
        Proceed(Context(destination, resume, version, Some(disk.store.value.cursor), None, false))
    else if completed then
      var artifact := disk.store.value.artifact;
      var healthy := Healthy(disk, artifact, destination);
      if healthy && version.Some? && disk.store.value.version == version then
        Done(SkippedUnchanged(artifact))
      else
        Proceed(Context(destination, resume, version, None, Some(artifact), healthy))
    else
      Proceed(Context(destination, resume, version, None, None, false))
  }

  predicate UseCheckpointed(c: Context) {
    c.checkpoint.Some? || c.prior.None? || !c.healthy
  }

  function StartCursor(c: Context): Cursor {
    if c.resume && c.checkpoint.Some? then c.checkpoint.value else Cursor(0, 0)
  }

  predicate HasShards(disk: Disk, destination: Destination, count: nat) {
    forall i | 0 <= i < count :: (destination, i) in disk.shards
  }

  ghost function StagedShards(disk: Disk, destination: Destination, count: nat): (r: seq<Batch>)
    requires HasShards(disk, destination, count)
    ensures |r| == count
    ensures forall i | 0 <= i < count :: r[i] == disk.shards[(destination, i)]
  {
    if count == 0 then []
    else StagedShards(disk, destination, count - 1) + [disk.shards[(destination, count - 1)]]
  }

  // ---------------------------------------------------------------- the steps

  ghost function At(w: World, stage: Stage): World
    requires w.pass.Running?
  {
    w.(pass := Running(w.pass.context, stage))
  }

  ghost function Finish(w: World, outcome: Outcome): World {
    w.(pass := Idle, log := w.log + [outcome])
  }

  ghost function OpenStream(w: World): World
    requires w.pass.Running?
  {
    var c := w.pass.context;
    var start := StartCursor(c);
    if !UseCheckpointed(c) then At(w, PlainReading(|w.source|, 0, []))
    else if start.rowGroup > |w.source| then Finish(w, Raised(BeyondFooter))
    else if !HasShards(w.disk, c.destination, start.nextBatch) then Finish(w, Raised(MissingShard))
    else At(w, Streaming(|w.source|, start))
  }

  /** Read the next physical row group; an empty one only moves the position. */
  ghost function Read(w: World): World
    requires w.pass.Running? && (w.pass.stage.Streaming? || w.pass.stage.PlainReading?)
  {
    var stage := w.pass.stage;
    match stage
    case Streaming(count, next) =>
      if next.rowGroup >= count then
        if HasShards(w.disk, w.pass.context.destination, next.nextBatch) then At(w, Staged(next.nextBatch))
        else Finish(w, Raised(MissingShard))
      else if next.rowGroup >= |w.source| then Finish(w, Raised(ReadFailed))
      else if w.source[next.rowGroup] == [] then
        At(w, Streaming(count, Cursor(next.nextBatch, next.rowGroup + 1)))
      else
        At(w, Holding(count, next.nextBatch, w.source[next.rowGroup], Cursor(next.nextBatch + 1, next.rowGroup + 1)))
    case PlainReading(count, group, rows) =>
      if group >= count then w
      else if group >= |w.source| then Finish(w, Raised(ReadFailed))
      else At(w, PlainReading(count, group + 1, rows + w.source[group]))
  }

  ghost function WithStore(w: World, state: SyncState): World {
    w.(disk := w.disk.(store := Some(state)))
  }

  ghost function WithFile(w: World, destination: Destination, rows: seq<Row>): World {
    w.(disk := w.disk.(files := w.disk.files[destination := rows]))
  }

  ghost function Without(shards: map<(Destination, nat), Batch>, d: Destination, removed: set<nat>)
    : map<(Destination, nat), Batch>
  {
    shards - (set i | i in removed :: (d, i))
  }

  ghost function WithoutShards(w: World, destination: Destination, removed: set<nat>): World {
    w.(disk := w.disk.(shards := Without(w.disk.shards, destination, removed)))
  }

  /** The world after one step, or `None` when the step is not enabled. */
  ghost function Apply(step: Step, w: World): Option<World> {
    match step
    case Begin(destination, resume, readable) =>
      if !w.pass.Idle? then None else
      (match Load(w.disk, if readable then Some(w.source) else None, destination, resume)
       case Done(outcome) => Some(Finish(w, outcome))
       case Proceed(context) => Some(w.(pass := Running(context, Loaded))))
    case Open =>
      if w.pass.Running? && w.pass.stage.Loaded? then Some(OpenStream(w)) else None
    case ReadGroup =>
      if w.pass.Running? && (w.pass.stage.Streaming?
                             || (w.pass.stage.PlainReading? && w.pass.stage.group < w.pass.stage.count))
      then Some(Read(w)) else None
    case ClearShard =>
      if w.pass.Running? && w.pass.stage.Holding? then
        var s := w.pass.stage;
        Some(At(WithoutShards(w, w.pass.context.destination, {s.index}), Cleared(s.count, s.index, s.batch, s.after)))
      else None
    case WriteShard =>
      if w.pass.Running? && w.pass.stage.Cleared? then
        var s := w.pass.stage;
        var shards := w.disk.shards[(w.pass.context.destination, s.index) := s.batch];
        Some(At(w.(disk := w.disk.(shards := shards)), Written(s.count, s.after)))
      else None
    case CommitCursor =>
      if w.pass.Running? && w.pass.stage.Written? then
        var s, c := w.pass.stage, w.pass.context;
        Some(At(WithStore(w, InProgress(s.after, c.version, c.destination)), Streaming(s.count, s.after)))
      else None
    case Publish =>
      if w.pass.Running? && w.pass.stage.Staged? && HasShards(w.disk, w.pass.context.destination,
                                                              w.pass.stage.shardCount) then
        var rows := Concat(StagedShards(w.disk, w.pass.context.destination, w.pass.stage.shardCount));
        Some(At(WithFile(w, w.pass.context.destination, rows), Published(rows)))
      else None
    case PostCheck(readable) =>
      if w.pass.Running? && w.pass.stage.Published? then
        if readable && w.pass.context.version.Some? && w.pass.context.version.value != w.source
        then Some(At(w, Mismatched))
        else Some(At(w, Verified(w.pass.stage.rows)))
      else None
    case CommitCompleted =>
      if w.pass.Running? && w.pass.stage.Verified? then
        var c, rows := w.pass.context, w.pass.stage.rows;
        Some(At(WithStore(w, Completed(Artifact(c.destination, rows), c.version)), CleaningUp(rows)))
      else None
    case CleanUp(removed) =>
      if w.pass.Running? && w.pass.stage.Mismatched? then
        Some(Finish(WithoutShards(w, w.pass.context.destination, removed), Raised(SourceChanged)))
      else if w.pass.Running? && w.pass.stage.CleaningUp? then
        var artifact := Artifact(w.pass.context.destination, w.pass.stage.rows);
        var resumed := w.pass.context.resume && w.pass.context.checkpoint.Some?;
        Some(Finish(WithoutShards(w, w.pass.context.destination, removed),
                    if resumed then Resumed(artifact) else Materialized(artifact)))
      else None
    case PlainPublish =>
      if w.pass.Running? && w.pass.stage.PlainReading? && w.pass.stage.group >= w.pass.stage.count then
        var rows := w.pass.stage.rows;
        Some(At(WithFile(w, w.pass.context.destination, rows), PlainPublished(rows)))
      else None
    case PlainFinish =>
      if w.pass.Running? && w.pass.stage.PlainPublished? then
        var c, rows := w.pass.context, w.pass.stage.rows;
        if c.prior.Some? && c.prior.value.rows == rows then Some(Finish(w, SkippedUnchanged(c.prior.value)))
        else
          var artifact := Artifact(c.destination, rows);
          Some(Finish(WithStore(w, Completed(artifact, c.version)), Materialized(artifact)))
      else None
    case Crash => Some(w.(pass := Idle))
    case ChangeSource(newSource) => Some(w.(source := newSource, seen := w.seen + {newSource}))
  }

  /** The world after a whole run, or `None` when some step of it is not enabled. */
  ghost function Run(steps: seq<Step>, w: World): Option<World> {
    if steps == [] then Some(w) else
    match Run(steps[..|steps| - 1], w)
    case None => None
    case Some(before) => Apply(steps[|steps| - 1], before)
  }
}
