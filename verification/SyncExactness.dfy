/**
 When a recorded artifact is exactly the version recorded with it, over every run, disciplined or not:
 it is decided by the row groups the pass laid end to end, each as the source held it when it was read.
 */
module SyncExactness {
  import opened Wrappers
  import opened RowGroups
  import opened SyncProtocol

  // ---------------------------------------------------------------- where a shard comes from

  /** The step reads a row group for a shard. */
  ghost predicate ReadsShard(w: World, step: Step) {
    && step.ReadGroup? && w.pass.Running? && w.pass.stage.Streaming?
    && w.pass.stage.next.rowGroup < w.pass.stage.count && w.pass.stage.next.rowGroup < |w.source|
  }

  /** The group it reads, as the source holds it now. */
  ghost function GroupRead(w: World): Batch
    requires ReadsShard(w, ReadGroup)
  {
    w.source[w.pass.stage.next.rowGroup]
  }

  /** The step puts a shard in place. */
  ghost predicate WritesShard(w: World, step: Step, d: Destination, i: nat) {
    && step.WriteShard? && w.pass.Running? && w.pass.stage.Cleared?
    && w.pass.context.destination == d && w.pass.stage.index == i
  }

  /** The group read last. */
  ghost function LastRead(steps: seq<Step>, w0: World): Batch
    requires Run(steps, w0).Some?
  {
    if steps == [] then []
    else
      var front, step := steps[..|steps| - 1], steps[|steps| - 1];
      var w := Run(front, w0).value;
      if ReadsShard(w, step) then GroupRead(w) else LastRead(front, w0)
  }

  /** For each shard the group last read for it before it was last written, or what lay there at first. */
  ghost function AsRead(steps: seq<Step>, w0: World): map<(Destination, nat), Batch>
    requires Run(steps, w0).Some?
  {
    if steps == [] then w0.disk.shards
    else
      var front, step := steps[..|steps| - 1], steps[|steps| - 1];
      var w := Run(front, w0).value;
      if step.WriteShard? && w.pass.Running? && w.pass.stage.Cleared?
      then AsRead(front, w0)[(w.pass.context.destination, w.pass.stage.index) := LastRead(front, w0)]
      else AsRead(front, w0)
  }

  ghost predicate InHand(w: World) {
    w.pass.Running? && (w.pass.stage.Holding? || w.pass.stage.Cleared?)
  }

  /** A batch in hand is the last one read, and every shard on disk is what was read for it. */
  ghost predicate Provenance(w: World, lastRead: Batch, asRead: map<(Destination, nat), Batch>) {
    && (InHand(w) ==> w.pass.stage.batch == lastRead)
    && forall d: Destination, i: nat | (d, i) in w.disk.shards ::
         (d, i) in asRead && w.disk.shards[(d, i)] == asRead[(d, i)]
  }

  lemma {:induction false} StepKeepsProvenance(w: World, step: Step, w': World, lastRead: Batch,
                                               asRead: map<(Destination, nat), Batch>)
    requires Provenance(w, lastRead, asRead) && Apply(step, w) == Some(w')
    ensures Provenance(w', if ReadsShard(w, step) then GroupRead(w) else lastRead,
                       if step.WriteShard? && w.pass.Running? && w.pass.stage.Cleared?
                       then asRead[(w.pass.context.destination, w.pass.stage.index) := lastRead] else asRead)
  {
  }

  lemma {:induction false} RunKeepsProvenance(steps: seq<Step>, w0: World)
    requires w0.pass.Idle? && Run(steps, w0).Some?
    ensures Provenance(Run(steps, w0).value, LastRead(steps, w0), AsRead(steps, w0))
  {
    if steps != [] {
      var front := steps[..|steps| - 1];
      RunKeepsProvenance(front, w0);
      StepKeepsProvenance(Run(front, w0).value, steps[|steps| - 1], Run(steps, w0).value,
                          LastRead(front, w0), AsRead(front, w0));
    }
  }

  ghost predicate ReadAt(steps: seq<Step>, w0: World, r: nat) {
    r < |steps| && Run(steps[..r], w0).Some? && ReadsShard(Run(steps[..r], w0).value, steps[r])
  }

  ghost predicate WrittenAt(steps: seq<Step>, w0: World, d: Destination, i: nat, m: nat) {
    m < |steps| && Run(steps[..m], w0).Some? && WritesShard(Run(steps[..m], w0).value, steps[m], d, i)
  }

  /** The group read last, by its position: read there, and none after it. */
  ghost predicate IsLastRead(steps: seq<Step>, w0: World, r: nat, batch: Batch) {
    && ReadAt(steps, w0, r) && batch == GroupRead(Run(steps[..r], w0).value)
    && forall n: nat | r < n :: !ReadAt(steps, w0, n)
  }

  lemma {:induction false} LastReadAt(steps: seq<Step>, w0: World, w: World) returns (r: nat)
    requires w0.pass.Idle? && Run(steps, w0) == Some(w) && InHand(w)
    ensures IsLastRead(steps, w0, r, LastRead(steps, w0))
  {
    var k := |steps| - 1;
    var front := steps[..k];
    var before := Run(front, w0).value;
    if ReadsShard(before, steps[k]) {
      r := k;
    } else {
      HeldBefore(before, steps[k], w);
      r := LastReadAt(front, w0, before);
      ReadBefore(steps, w0, before, r, LastRead(front, w0));
    }
  }

  /** A step that reads no group leaves the last read where it was. */
  lemma {:induction false} ReadBefore(steps: seq<Step>, w0: World, w: World, r: nat, batch: Batch)
    requires steps != [] && Run(steps[..|steps| - 1], w0) == Some(w) && !ReadsShard(w, steps[|steps| - 1])
    requires IsLastRead(steps[..|steps| - 1], w0, r, batch)
    ensures IsLastRead(steps, w0, r, batch)
  {
    var k := |steps| - 1;
    var front := steps[..k];
    forall n: nat | n < k ensures ReadAt(steps, w0, n) == ReadAt(front, w0, n) && steps[..n] == front[..n] {
      assert steps[..n] == front[..n];
    }
    assert !ReadAt(steps, w0, k);
  }

  /** Only a read puts a batch in hand. */
  lemma {:induction false} HeldBefore(w: World, step: Step, w': World)
    requires Apply(step, w) == Some(w') && InHand(w') && !ReadsShard(w, step)
    ensures InHand(w)
  {
  }

  /**
   Each shard on disk lies there from the beginning, or is the row group that was read last before the last
   write of that shard, as the source held it at that time.
   */
  lemma {:induction false} ShardProvenance(steps: seq<Step>, w0: World, w: World, d: Destination, i: nat)
    returns (m: nat, read: nat)
    requires w0.pass.Idle? && Run(steps, w0) == Some(w) && (d, i) in w.disk.shards
    ensures IsLastWrite(steps, w0, d, i, m, read, w.disk.shards[(d, i)])
  {
    RunKeepsProvenance(steps, w0);
    m, read := WrittenLast(steps, w0, d, i);
  }

  /** The last write of a shard, by its position, and the read before it. */
  ghost predicate IsLastWrite(steps: seq<Step>, w0: World, d: Destination, i: nat, m: nat, read: nat, batch: Batch) {
    && (forall n: nat | m < n :: !WrittenAt(steps, w0, d, i, n))
    && if WrittenAt(steps, w0, d, i, m) then IsLastRead(steps[..m], w0, read, batch)
       else m == 0 && (d, i) in w0.disk.shards && batch == w0.disk.shards[(d, i)]
  }

  lemma {:induction false} WrittenLast(steps: seq<Step>, w0: World, d: Destination, i: nat) returns (m: nat, read: nat)
    requires w0.pass.Idle? && Run(steps, w0).Some? && (d, i) in AsRead(steps, w0)
    ensures IsLastWrite(steps, w0, d, i, m, read, AsRead(steps, w0)[(d, i)])
  {
    m, read := 0, 0;
    if steps != [] {
      var k := |steps| - 1;
      var front := steps[..k];
      if WritesShard(Run(front, w0).value, steps[k], d, i) {
        m := k;
        read := LastReadAt(front, w0, Run(front, w0).value);
      } else {
        m, read := WrittenLast(front, w0, d, i);
        WrittenBefore(steps, w0, d, i, m, read, AsRead(front, w0)[(d, i)]);
      }
    }
  }

  /** A step that does not write the shard leaves its last write where it was. */
  lemma {:induction false} WrittenBefore(steps: seq<Step>, w0: World, d: Destination, i: nat, m: nat, read: nat,
                                         batch: Batch)
    requires steps != [] && Run(steps, w0).Some?
    requires !WritesShard(Run(steps[..|steps| - 1], w0).value, steps[|steps| - 1], d, i)
    requires IsLastWrite(steps[..|steps| - 1], w0, d, i, m, read, batch)
    ensures IsLastWrite(steps, w0, d, i, m, read, batch)
  {
    var k := |steps| - 1;
    var front := steps[..k];
    forall n: nat | n < k
      ensures WrittenAt(steps, w0, d, i, n) == WrittenAt(front, w0, d, i, n) && steps[..n] == front[..n]
    {
      assert steps[..n] == front[..n];
    }
    assert !WrittenAt(steps, w0, d, i, k);
  }

  // ---------------------------------------------------------------- what a pass lays end to end

  /**
   The batches that the artifact of the running pass is made of, each as the source held it when it was
   read: for a plain pass the row groups, for a checkpointed one what was read for its shards.
   */
  ghost function Content(steps: seq<Step>, w0: World): seq<Batch>
    requires Run(steps, w0).Some?
  {
    if steps == [] then []
    else
      var front, step := steps[..|steps| - 1], steps[|steps| - 1];
      ContentAfter(Content(front, w0), AsRead(front, w0), step, Run(front, w0).value)
  }

  /** What was read for the first `n` shards. */
  ghost function ReadFor(asRead: map<(Destination, nat), Batch>, d: Destination, n: nat): (r: seq<Batch>)
    ensures |r| == n
    ensures forall i | 0 <= i < n && (d, i) in asRead :: r[i] == asRead[(d, i)]
  {
    seq(n, i requires 0 <= i < n => if (d, i) in asRead then asRead[(d, i)] else [])
  }

  ghost function ContentAfter(content: seq<Batch>, asRead: map<(Destination, nat), Batch>, step: Step, w: World)
    : seq<Batch>
  {
    match step
    case Open => []
    case ReadGroup =>
      if w.pass.Running? && w.pass.stage.PlainReading? && w.pass.stage.group < |w.source|
      then content + [w.source[w.pass.stage.group]] else content
    case Publish =>
      if w.pass.Running? && w.pass.stage.Staged? then
          ReadFor(asRead, w.pass.context.destination, w.pass.stage.shardCount)
      else content
    case _ => content
  }

  /** The rows a pass carries are its batches end to end. */
  ghost predicate Carries(w: World, content: seq<Batch>) {
    w.pass.Running? ==>
      match w.pass.stage
      case PlainReading(_, group, rows) => rows == Concat(content) && |content| == group
      case PlainPublished(rows) => rows == Concat(content)
      case Published(rows) => rows == Concat(content)
      case Verified(rows) => rows == Concat(content)
      case CleaningUp(rows) => rows == Concat(content)
      case _ => true
  }

  lemma {:induction false} ConcatAppend(content: seq<Batch>, batch: Batch)
    ensures Concat(content + [batch]) == Concat(content) + batch
  {
    assert (content + [batch])[..|content|] == content;
  }

  lemma {:induction false} StepCarries(content: seq<Batch>, lastRead: Batch, asRead: map<(Destination, nat), Batch>,
                                       w: World, step: Step, w': World)
    requires Carries(w, content) && Provenance(w, lastRead, asRead) && Apply(step, w) == Some(w')
    ensures Carries(w', ContentAfter(content, asRead, step, w))
  {
    if step.ReadGroup? && w.pass.stage.PlainReading? && w.pass.stage.group < |w.source| {
      ConcatAppend(content, w.source[w.pass.stage.group]);
    } else if step.Publish? {
      var d, n := w.pass.context.destination, w.pass.stage.shardCount;
      assert StagedShards(w.disk, d, n) == ReadFor(asRead, d, n);
    }
  }

  lemma {:induction false} RunCarries(steps: seq<Step>, w0: World)
    requires w0.pass.Idle? && Run(steps, w0).Some?
    ensures Carries(Run(steps, w0).value, Content(steps, w0))
  {
    if steps != [] {
      var front := steps[..|steps| - 1];
      RunCarries(front, w0);
      RunKeepsProvenance(front, w0);
      StepCarries(Content(front, w0), LastRead(front, w0), AsRead(front, w0),
                  Run(front, w0).value, steps[|steps| - 1], Run(steps, w0).value);
    }
  }

  // ---------------------------------------------------------------- batches in their places

  /** The row at which the i-th batch starts. */
  ghost function Offset(content: seq<Batch>, i: nat): nat
    requires i <= |content|
  {
    if i == 0 then 0 else Offset(content, i - 1) + |content[i - 1]|
  }

  /** The i-th batch holds the rows that belong at its place. */
  ghost predicate InPlace(content: seq<Batch>, rows: seq<Row>, i: nat)
    requires i < |content|
  {
    Offset(content, i + 1) <= |rows| && content[i] == rows[Offset(content, i)..Offset(content, i + 1)]
  }

  ghost predicate AllInPlace(content: seq<Batch>, rows: seq<Row>) {
    Offset(content, |content|) == |rows| && forall i | 0 <= i < |content| :: InPlace(content, rows, i)
  }

  lemma {:induction false} OffsetPrefix(content: seq<Batch>, n: nat, i: nat)
    requires i <= n <= |content|
    ensures Offset(content[..n], i) == Offset(content, i) <= Offset(content, n)
  {
    if i < n {
      OffsetPrefix(content, n - 1, i);
      OffsetSame(content, n, i);
    } else if i > 0 {
      OffsetSame(content, n, i);
    }
  }

  lemma {:induction false} OffsetSame(content: seq<Batch>, n: nat, i: nat)
    requires i <= n <= |content|
    ensures Offset(content[..n], i) == Offset(content, i)
  {
    if i > 0 {
      OffsetSame(content, n, i - 1);
    }
  }

  lemma {:induction false} ConcatLength(content: seq<Batch>)
    ensures |Concat(content)| == Offset(content, |content|)
  {
    if content != [] {
      var n := |content| - 1;
      ConcatLength(content[..n]);
      OffsetSame(content, n, n);
    }
  }

  /** Batches laid end to end are given rows exactly when each of them is in its place. */
  lemma {:induction false} ConcatIff(content: seq<Batch>, rows: seq<Row>)
    ensures Concat(content) == rows <==> AllInPlace(content, rows)
  {
    ConcatLength(content);
    if content != [] && |Concat(content)| == |rows| {
      var n := |content| - 1;
      var front, cut := content[..n], Offset(content, n);
      OffsetPrefix(content, |content|, n);
      assert content[..|content|] == content;
      ConcatLength(front);
      OffsetSame(content, n, n);
      ConcatIff(front, rows[..cut]);
      FrontInPlace(content, rows);
      assert rows == rows[..cut] + rows[cut..];
    }
  }

  lemma {:induction false} FrontInPlace(content: seq<Batch>, rows: seq<Row>)
    requires content != [] && Offset(content, |content|) == |rows|
    ensures Offset(content, |content| - 1) <= |rows|
    ensures AllInPlace(content, rows) <==>
              AllInPlace(content[..|content| - 1], rows[..Offset(content, |content| - 1)])
              && content[|content| - 1] == rows[Offset(content, |content| - 1)..]
  {
    var n := |content| - 1;
    var front, cut := content[..n], Offset(content, n);
    OffsetSame(content, n, n);
    forall i | 0 <= i < n ensures InPlace(content, rows, i) <==> InPlace(front, rows[..cut], i) {
      OffsetSame(content, n, i);
      OffsetSame(content, n, i + 1);
      OffsetPrefix(content, n, i + 1);
      OffsetPrefix(content, i + 1, i);
      assert rows[..cut][Offset(content, i)..Offset(content, i + 1)]
          == rows[Offset(content, i)..Offset(content, i + 1)];
    }
    assert rows[cut..|rows|] == rows[cut..];
    assert InPlace(content, rows, n) <==> content[n] == rows[cut..];
  }

  // ---------------------------------------------------------------- the exact condition

  /** The step records a completed state. */
  ghost predicate Records(w: World, step: Step, w': World) {
    && Apply(step, w) == Some(w') && w.pass.Running?
    && (step.CommitCompleted? || (step.PlainFinish? && w'.log != [] && w'.log[|w'.log| - 1].Materialized?))
  }

  /**
   Over any run, whatever the sources and digests do: a completion recorded with a version holds exactly
   that version's rows if and only if each batch of its pass, as the source held it when it was read, is the
   rows that version has at the batch's place, and together they reach its end.
   */
  lemma {:induction false} RecordedIsWholeIff(steps: seq<Step>, w0: World, w: World, step: Step, w': World,
                                              version: Source)
    requires w0.pass.Idle? && Run(steps, w0) == Some(w)
    requires Records(w, step, w') && w.pass.context.version == Some(version)
    ensures w'.disk.store.Some? && w'.disk.store.value.Completed? && w'.disk.store.value.version == Some(version)
    ensures w'.disk.store.value.artifact == Artifact(w.pass.context.destination, Concat(Content(steps, w0)))
    ensures w'.disk.store.value.artifact.rows == AllRows(version) <==> AllInPlace(Content(steps, w0), AllRows(version))
  {
    RunCarries(steps, w0);
    ConcatIff(Content(steps, w0), AllRows(version));
  }

  lemma {:induction false} AllRowsIsConcat(groups: seq<Batch>, n: nat)
    requires n <= |groups|
    ensures RowsUpTo(groups, n) == Concat(groups[..n])
  {
    if n > 0 {
      AllRowsIsConcat(groups, n - 1);
      assert groups[..n][..n - 1] == groups[..n - 1];
    }
  }

  lemma {:induction false} AppendSame(p: seq<Row>, x: Batch, q: seq<Row>, y: Batch)
    requires |x| == |y|
    ensures p + x == q + y <==> p == q && x == y
  {
    if p + x == q + y {
      assert |p + x| == |p| + |x| && |q + y| == |q| + |y|;
      assert p == (p + x)[..|p|] && q == (q + y)[..|p|];
      assert x == (p + x)[|p|..] && y == (q + y)[|p|..];
    }
  }

  /** Batches of pairwise equal sizes laid end to end are the same rows exactly when they are the same batches. */
  lemma {:induction false} SameBatches(a: seq<Batch>, b: seq<Batch>)
    requires |a| == |b| && forall i | 0 <= i < |a| :: |a[i]| == |b[i]|
    ensures Concat(a) == Concat(b) <==> a == b
  {
    if a != [] {
      var n := |a| - 1;
      SameBatches(a[..n], b[..n]);
      AppendSame(Concat(a[..n]), a[n], Concat(b[..n]), b[n]);
      assert a == a[..n] + [a[n]] && b == b[..n] + [b[n]];
    }
  }

  /**
   A plain pass whose row groups kept their sizes records the version exactly when every group held, when
   it was read, the rows the version has in that group.
   */
  lemma {:induction false} PlainPassIsWholeIff(steps: seq<Step>, w0: World, w: World, w': World, version: Source)
    requires w0.pass.Idle? && Run(steps, w0) == Some(w)
    requires Records(w, PlainFinish, w') && w.pass.context.version == Some(version)
    requires |Content(steps, w0)| == |version|
    requires forall i | 0 <= i < |version| :: |Content(steps, w0)[i]| == |version[i]|
    ensures w'.disk.store.Some? && w'.disk.store.value.Completed? && w'.disk.store.value.version == Some(version)
    ensures w'.disk.store.value.artifact.rows == AllRows(version) <==>
              forall i | 0 <= i < |version| :: Content(steps, w0)[i] == version[i]
  {
    RecordedIsWholeIff(steps, w0, w, PlainFinish, w', version);
    AllRowsIsConcat(version, |version|);
    assert version[..|version|] == version;
    SameBatches(Content(steps, w0), version);
  }

  /**
   A checkpointed pass whose shards have the sizes of the version's non-empty groups records the version's
   rows exactly when the group read for each shard, as the source held it then, was the version's.
   */
  lemma {:induction false} CheckpointedPassIsWholeIff(steps: seq<Step>, w0: World, w: World, w': World, version: Source)
    requires w0.pass.Idle? && Run(steps, w0) == Some(w)
    requires Records(w, CommitCompleted, w') && w.pass.context.version == Some(version)
    requires |Content(steps, w0)| == Count(version, |version|)
    requires forall i | 0 <= i < |Content(steps, w0)| :: |Content(steps, w0)[i]| == |Shard(version, i)|
    ensures w'.disk.store.Some? && w'.disk.store.value.Completed? && w'.disk.store.value.version == Some(version)
    ensures w'.disk.store.value.artifact.rows == AllRows(version) <==>
              forall i | 0 <= i < |Content(steps, w0)| :: Content(steps, w0)[i] == Shard(version, i)
  {
    RecordedIsWholeIff(steps, w0, w, CommitCompleted, w', version);
    var shards := seq(Count(version, |version|), i requires 0 <= i < Count(version, |version|) => Shard(version, i));
    ShardRows(version, |version|, shards);
    SameBatches(Content(steps, w0), shards);
  }

  lemma {:induction false} Extends(steps: seq<Step>, w0: World, w: World, step: Step, w': World)
    returns (longer: seq<Step>)
    requires Run(steps, w0) == Some(w) && Apply(step, w) == Some(w')
    ensures Run(longer, w0) == Some(w')
    ensures Content(longer, w0) == ContentAfter(Content(steps, w0), AsRead(steps, w0), step, w)
  {
    longer := steps + [step];
    assert longer[..|longer| - 1] == steps;
  }

  /**
   Sizes matter: a plain pass may read no group as the version has it and still record the version's
   rows, when the rows only moved from one group to the other while it ran.
   */
  lemma {:induction false} MovedRowsStayWhole(d: Destination, w0: World, earlier: Row, a: Row, b: Row)
    returns (steps: seq<Step>, w: World)
    requires w0.pass.Idle? && w0.source == [[a], [b]]
    requires w0.disk.store == Some(Completed(Artifact(d, [earlier]), Some([[earlier]])))
    requires d in w0.disk.files && w0.disk.files[d] == [earlier]
    ensures Run(steps, w0) == Some(w) && Apply(PlainFinish, w).Some? && Content(steps, w0) == [[a, b], []]
    ensures Apply(PlainFinish, w).value.disk.store == Some(Completed(Artifact(d, [a, b]), Some([[a], [b]])))
  {
    var c := Context(d, false, Some(w0.source), None, Some(Artifact(d, [earlier])), true);
    steps, w := OpensPlainly(d, w0, earlier, c);
    var moved: Source := [[a, b], []];
    steps := Extends(steps, w0, w, ChangeSource(moved), w.(source := moved, seen := w.seen + {moved}));
    w := w.(source := moved, seen := w.seen + {moved});
    steps, w := ReadsMoved(steps, w0, w, c, a, b);
    steps, w := PublishesPlainly(steps, w0, w, c, [a, b]);
    RecordsChanged(w, c, [a, b]);
  }

  /** A pass over a changed source whose last artifact is healthy loads and opens its plain stream. */
  lemma {:induction false} OpensPlainly(d: Destination, w0: World, earlier: Row, c: Context)
    returns (steps: seq<Step>, w: World)
    requires w0.pass.Idle? && |w0.source| == 2
    requires w0.disk.store == Some(Completed(Artifact(d, [earlier]), Some([[earlier]])))
    requires d in w0.disk.files && w0.disk.files[d] == [earlier]
    requires c == Context(d, false, Some(w0.source), None, Some(Artifact(d, [earlier])), true)
    ensures Run(steps, w0) == Some(w) && w == w0.(pass := Running(c, PlainReading(2, 0, [])))
        && Content(steps, w0) == []
  {
    assert |w0.source| != |[[earlier]]|;
    assert Load(w0.disk, Some(w0.source), d, false) == Proceed(c);
    var loaded := w0.(pass := Running(c, Loaded));
    steps := Extends([], w0, w0, Begin(d, false, true), loaded);
    w := At(loaded, PlainReading(2, 0, []));
    steps := Extends(steps, w0, loaded, Open, w);
  }

  lemma {:induction false} PublishesPlainly(steps: seq<Step>, w0: World, w: World, c: Context, rows: seq<Row>)
    returns (longer: seq<Step>, w': World)
    requires Run(steps, w0) == Some(w) && w.pass == Running(c, PlainReading(2, 2, rows))
    ensures Run(longer, w0) == Some(w') && w'.pass == Running(c, PlainPublished(rows))
    ensures Content(longer, w0) == Content(steps, w0)
  {
    w' := At(WithFile(w, c.destination, rows), PlainPublished(rows));
    longer := Extends(steps, w0, w, PlainPublish, w');
  }

  lemma {:induction false} RecordsChanged(w: World, c: Context, rows: seq<Row>)
    requires w.pass == Running(c, PlainPublished(rows)) && c.prior.Some? && c.prior.value.rows != rows
    ensures Apply(PlainFinish, w).Some?
    ensures Apply(PlainFinish, w).value.disk.store == Some(Completed(Artifact(c.destination, rows), c.version))
  {
  }

  lemma {:induction false} ReadsMoved(steps: seq<Step>, w0: World, w: World, c: Context, a: Row, b: Row)
    returns (longer: seq<Step>, w': World)
    requires Run(steps, w0) == Some(w) && w.pass == Running(c, PlainReading(2, 0, [])) && w.source == [[a, b], []]
    requires Content(steps, w0) == []
    ensures Run(longer, w0) == Some(w') && w' == At(w, PlainReading(2, 2, [a, b]))
        && Content(longer, w0) == [[a, b], []]
  {
    w' := At(w, PlainReading(2, 1, [] + w.source[0]));
    longer := Extends(steps, w0, w, ReadGroup, w');
    var w'' := At(w, PlainReading(2, 2, [] + w.source[0] + w.source[1]));
    longer := Extends(longer, w0, w', ReadGroup, w'');
    w' := w'';
    assert [] + w.source[0] + w.source[1] == [a, b];
  }
}
