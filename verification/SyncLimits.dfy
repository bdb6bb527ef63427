/**
 Runs outside the discipline of SyncSafety, one for each condition it makes: a change while the
 checkpoint or the pass has no digest, a change while a plain pass reads, a change back, and a digest that
 fails at resumption or after publication. Each shows that the condition it breaks cannot be dropped.
 */
module SyncLimits {
  import opened Wrappers
  import opened RowGroups
  import opened SyncProtocol
  import opened SyncSafety

  /** Some run leads from `w0` to `w`; when `fixed`, one in which the source never changes. */
  ghost predicate Reaches(w0: World, w: World, fixed: bool) {
    exists steps :: Run(steps, w0) == Some(w) && (fixed ==> FixedSource(steps))
  }

  lemma {:induction false} Starts(w0: World)
    ensures Reaches(w0, w0, true)
  {
    assert Run([], w0) == Some(w0);
  }

  lemma {:induction false} Takes(w0: World, w: World, fixed: bool, step: Step)
    requires Reaches(w0, w, fixed) && Apply(step, w).Some?
    ensures Reaches(w0, Apply(step, w).value, fixed && !step.ChangeSource?)
  {
    var steps :| Run(steps, w0) == Some(w) && (fixed ==> FixedSource(steps));
    var longer := steps + [step];
    assert longer[..|longer| - 1] == steps;
    assert Run(longer, w0) == Apply(step, w);
    assert fixed && !step.ChangeSource? ==> FixedSource(longer);
  }

  /** A pass that loads `c` and opens its stream. */
  lemma {:induction false} Opens(w0: World, w: World, fixed: bool, begin: Step, c: Context)
    requires Reaches(w0, w, fixed) && w.pass.Idle? && begin.Begin?
    requires Load(w.disk, if begin.readable then Some(w.source) else None, begin.destination, begin.resume)
        == Proceed(c)
    ensures Reaches(w0, OpenStream(w.(pass := Running(c, Loaded))), fixed)
  {
    Takes(w0, w, fixed, begin);
    Takes(w0, w.(pass := Running(c, Loaded)), fixed, Open);
  }

  /** The world after one non-empty row group is staged and its cursor committed. */
  ghost function StagedOne(w: World, batch: Batch): World
    requires w.pass.Running? && w.pass.stage.Streaming?
  {
    var d, next := w.pass.context.destination, w.pass.stage.next;
    var after := Cursor(next.nextBatch + 1, next.rowGroup + 1);
    World(Disk(Some(InProgress(after, w.pass.context.version, d)), w.disk.shards[(d, next.nextBatch) := batch],
               w.disk.files),
          w.source, w.seen, Running(w.pass.context, Streaming(w.pass.stage.count, after)), w.log)
  }

  lemma {:induction false} StagesOne(w0: World, w: World, fixed: bool, batch: Batch)
    requires Reaches(w0, w, fixed) && w.pass.Running? && w.pass.stage.Streaming?
    requires w.pass.stage.next.rowGroup < w.pass.stage.count <= |w.source|
    requires w.source[w.pass.stage.next.rowGroup] == batch != []
    ensures Reaches(w0, StagedOne(w, batch), fixed)
  {
    var next := w.pass.stage.next;
    var w1 := At(w, Holding(w.pass.stage.count, next.nextBatch, batch, Cursor(next.nextBatch + 1, next.rowGroup + 1)));
    Takes(w0, w, fixed, ReadGroup);
    StagesHeld(w0, w1, fixed);
    assert w1.pass.stage.count == w.pass.stage.count;
  }

  lemma {:induction false} StagesHeld(w0: World, w1: World, fixed: bool)
    requires Reaches(w0, w1, fixed) && w1.pass.Running? && w1.pass.stage.Holding?
    ensures var s, c := w1.pass.stage, w1.pass.context;
            Reaches(w0, World(Disk(Some(InProgress(s.after, c.version, c.destination)),
                                   w1.disk.shards[(c.destination, s.index) := s.batch], w1.disk.files),
                              w1.source, w1.seen, Running(c, Streaming(s.count, s.after)), w1.log), fixed)
  {
    var d, s := w1.pass.context.destination, w1.pass.stage;
    var w2 := Apply(ClearShard, w1).value;
    Takes(w0, w1, fixed, ClearShard);
    var w3 := Apply(WriteShard, w2).value;
    Takes(w0, w2, fixed, WriteShard);
    Takes(w0, w3, fixed, CommitCursor);
    assert w3.disk.shards == w1.disk.shards[(d, s.index) := s.batch];
  }

  /** Reading past the last group, publishing, checking and committing two staged shards of one row each. */
  lemma {:induction false} CompletesTwo(w0: World, w: World, fixed: bool, a: Row, b: Row, readable: bool)
    requires Reaches(w0, w, fixed) && w.pass.Running? && w.pass.stage == Streaming(2, Cursor(2, 2))
    requires HasShards(w.disk, w.pass.context.destination, 2)
    requires readable ==> Matches(w.pass.context.version, w.source)
    requires w.disk.shards[(w.pass.context.destination, 0)] == [a]
    requires w.disk.shards[(w.pass.context.destination, 1)] == [b]
    ensures exists w' ::
      && Reaches(w0, w', fixed) && w'.source == w.source && w'.seen == w.seen
      && w'.disk.store == Some(Completed(Artifact(w.pass.context.destination, [a, b]), w.pass.context.version))
  {
    TwoShards(w.disk, w.pass.context.destination, a, b);
    var w1 := At(w, Staged(2));
    Takes(w0, w, fixed, ReadGroup);
    var w2 := Apply(Publish, w1).value;
    Takes(w0, w1, fixed, Publish);
    var w3 := Apply(PostCheck(readable), w2).value;
    Takes(w0, w2, fixed, PostCheck(readable));
    Takes(w0, w3, fixed, CommitCompleted);
  }

  lemma {:induction false} TwoShards(disk: Disk, d: Destination, a: Row, b: Row)
    requires HasShards(disk, d, 2) && disk.shards[(d, 0)] == [a] && disk.shards[(d, 1)] == [b]
    ensures Concat(StagedShards(disk, d, 2)) == [a, b]
  {
    var staged := StagedShards(disk, d, 2);
    assert staged == [[a], [b]];
    var one: seq<Batch> := [[a]];
    assert one[..0] == [] && Concat(one) == Concat([]) + [a];
    assert staged[..1] == one;
  }

  lemma {:induction false} RowsOfTwo(a: Row, b: Row)
    ensures AllRows([[a], [b]]) == [a, b]
  {
    assert RowsUpTo([[a], [b]], 1) == [a];
  }

  lemma {:induction false} RowsOfOne(a: Row)
    ensures AllRows([[a]]) == [a]
  {
    assert RowsUpTo([[a]], 1) == [a];
  }

  ghost function FreshWorld(source: Source): World {
    World(Disk(None, map[], map[]), source, {source}, Idle, [])
  }

  /** The first row group staged, then a crash, then a different source. */
  lemma {:induction false} Interrupted(one: Source, two: Source, d: Destination, readable: bool) returns (w: World)
    requires |one| == 2 && one[0] != []
    ensures Reaches(FreshWorld(one), w, false)
    ensures w == World(Disk(Some(InProgress(Cursor(1, 1), if readable then Some(one) else None, d)),
                            map[(d, 0) := one[0]], map[]),
                       two, {one, two}, Idle, [])
  {
    var w0 := FreshWorld(one);
    var c := Context(d, true, if readable then Some(one) else None, None, None, false);
    Starts(w0);
    Opens(w0, w0, true, Begin(d, true, readable), c);
    var w1 := w0.(pass := Running(c, Streaming(2, Cursor(0, 0))));
    StagesOne(w0, w1, true, one[0]);
    var w2 := StagedOne(w1, one[0]);
    Takes(w0, w2, true, Crash);
    var w3 := Apply(Crash, w2).value;
    Takes(w0, w3, true, ChangeSource(two));
    w := Apply(ChangeSource(two), w3).value;
  }

  /**
   No digest at resumption: a checkpoint of an earlier version is resumed over the new one, and the
   recorded completion takes its first row from one version and its last from the other.
   */
  lemma {:induction false} BlindResumptionMixes(d: Destination, a: Row, b: Row, e: Row)
    requires a != b && b != e
    ensures exists w ::
      && Reaches(FreshWorld([[a], [b]]), w, false) && w.seen == {[[a], [b]], [[b], [e]]}
      && w.disk.store == Some(Completed(Artifact(d, [a, e]), None)) && !Whole([a, e], w.seen)
  {
    var one: Source, two: Source := [[a], [b]], [[b], [e]];
    var w0 := FreshWorld(one);
    var w := Interrupted(one, two, d, true);
    var c := Context(d, true, None, Some(Cursor(1, 1)), None, false);
    Opens(w0, w, false, Begin(d, true, false), c);
    var w1 := w.(pass := Running(c, Streaming(2, Cursor(1, 1))));
    StagesOne(w0, w1, false, [e]);
    CompletesTwo(w0, StagedOne(w1, [e]), false, a, e, true);
    MixIsNotWhole(a, b, e);
  }

  /**
   A change while the checkpoint on disk has no digest: a later pass that can compute one resumes over the
   new version, and even the version it records is not the one its first row is from.
   */
  lemma {:induction false} UndatedCheckpointMixes(d: Destination, a: Row, b: Row, e: Row)
    requires a != b && b != e
    ensures exists w ::
      && Reaches(FreshWorld([[a], [b]]), w, false) && w.seen == {[[a], [b]], [[b], [e]]}
      && w.disk.store == Some(Completed(Artifact(d, [a, e]), Some([[b], [e]]))) && !Whole([a, e], w.seen)
  {
    var one: Source, two: Source := [[a], [b]], [[b], [e]];
    var w0 := FreshWorld(one);
    var w := Interrupted(one, two, d, false);
    var c := Context(d, true, Some(two), Some(Cursor(1, 1)), None, false);
    Opens(w0, w, false, Begin(d, true, true), c);
    var w1 := w.(pass := Running(c, Streaming(2, Cursor(1, 1))));
    StagesOne(w0, w1, false, [e]);
    CompletesTwo(w0, StagedOne(w1, [e]), false, a, e, true);
    MixIsNotWhole(a, b, e);
  }

  /** A fresh pass that stages one version's first group and, after a change, the other's second. */
  lemma {:induction false} StagesAcross(d: Destination, a: Row, b: Row, e: Row, readable: bool) returns (w: World)
    ensures Reaches(FreshWorld([[a], [b]]), w, false) && w.source == [[b], [e]] && w.seen == {[[a], [b]], [[b], [e]]}
    ensures w.pass == Running(Context(d, true, if readable then Some([[a], [b]]) else None, None, None, false),
                              Streaming(2, Cursor(2, 2)))
    ensures HasShards(w.disk, d, 2) && w.disk.shards[(d, 0)] == [a] && w.disk.shards[(d, 1)] == [e]
  {
    var one: Source, two: Source := [[a], [b]], [[b], [e]];
    var w0 := FreshWorld(one);
    var c := Context(d, true, if readable then Some(one) else None, None, None, false);
    Starts(w0);
    Opens(w0, w0, true, Begin(d, true, readable), c);
    var w1 := w0.(pass := Running(c, Streaming(2, Cursor(0, 0))));
    StagesOne(w0, w1, true, one[0]);
    var w2 := StagedOne(w1, one[0]);
    Takes(w0, w2, true, ChangeSource(two));
    var w3 := Apply(ChangeSource(two), w2).value;
    StagesOne(w0, w3, false, two[1]);
    w := StagedOne(w3, two[1]);
  }

  /** A change while the running pass has no digest: nothing it commits says which version it staged. */
  lemma {:induction false} ChangeWhileBlindMixes(d: Destination, a: Row, b: Row, e: Row)
    requires a != b && b != e
    ensures exists w ::
      && Reaches(FreshWorld([[a], [b]]), w, false) && w.seen == {[[a], [b]], [[b], [e]]}
      && w.disk.store == Some(Completed(Artifact(d, [a, e]), None)) && !Whole([a, e], w.seen)
  {
    var w := StagesAcross(d, a, b, e, false);
    CompletesTwo(FreshWorld([[a], [b]]), w, false, a, e, true);
    MixIsNotWhole(a, b, e);
  }

  /** A digest that fails after publication: the change in the middle of the pass goes unnoticed. */
  lemma {:induction false} UnreadablePostCheckMixes(d: Destination, a: Row, b: Row, e: Row)
    requires a != b && b != e
    ensures exists w ::
      && Reaches(FreshWorld([[a], [b]]), w, false) && w.seen == {[[a], [b]], [[b], [e]]}
      && w.disk.store == Some(Completed(Artifact(d, [a, e]), Some([[a], [b]]))) && !Whole([a, e], w.seen)
  {
    var w := StagesAcross(d, a, b, e, true);
    CompletesTwo(FreshWorld([[a], [b]]), w, false, a, e, false);
    MixIsNotWhole(a, b, e);
  }

  lemma {:induction false} MixIsNotWhole(a: Row, b: Row, e: Row)
    requires a != b && b != e
    ensures !Whole([a, e], {[[a], [b]], [[b], [e]]})
  {
    RowsOfTwo(a, b);
    RowsOfTwo(b, e);
    assert [a, e][0] != [b, e][0] && [a, e][1] != [a, b][1];
  }

  /**
   A source that changes and changes back: the second version's shard replaced the first's before any
   checkpoint said so, and the first version's checkpoint still vouches for it.
   */
  lemma {:induction false} ChangingBackMixes(d: Destination, a: Row, b: Row, e: Row)
    requires a != e && e != b
    ensures exists w ::
      && Reaches(FreshWorld([[a], [b]]), w, false) && w.source == [[a], [b]] && w.seen == {[[a], [b]], [[e]]}
      && w.disk.store == Some(Completed(Artifact(d, [e, b]), Some([[a], [b]]))) && !Whole([e, b], w.seen)
  {
    var one: Source, two: Source := [[a], [b]], [[e]];
    var w0 := FreshWorld(one);
    var w := Interrupted(one, two, d, true);
    assert one[0] != two[0];
    var w' := StagesUncommitted(w0, w, d, one, e);
    FinishesMixed(w0, w', d, a, b, e);
    RowsOfTwo(a, b);
    RowsOfOne(e);
    assert [e, b][0] != [a, b][0];
  }

  /** The second version's shard lands, its cursor is never committed, and the source changes back. */
  lemma {:induction false} StagesUncommitted(w0: World, w: World, d: Destination, one: Source, e: Row)
    returns (w': World)
    requires Reaches(w0, w, false) && w.pass.Idle? && w.source == [[e]]
    requires w.disk.store == Some(InProgress(Cursor(1, 1), Some(one), d)) && one != [[e]]
    ensures Reaches(w0, w', false) && w'.pass.Idle? && w'.source == one && w'.seen == w.seen + {one}
    ensures w'.disk.store == w.disk.store && (d, 0) in w'.disk.shards && w'.disk.shards[(d, 0)] == [e]
  {
    var c := Context(d, true, Some([[e]]), None, None, false);
    Opens(w0, w, false, Begin(d, true, true), c);
    var w1 := ShardLands(w0, w.(pass := Running(c, Streaming(1, Cursor(0, 0)))), c, e);
    Takes(w0, w1, false, Crash);
    var w2 := Apply(Crash, w1).value;
    Takes(w0, w2, false, ChangeSource(one));
    w' := Apply(ChangeSource(one), w2).value;
  }

  lemma {:induction false} ShardLands(w0: World, w: World, c: Context, e: Row) returns (w': World)
    requires Reaches(w0, w, false) && w.pass == Running(c, Streaming(1, Cursor(0, 0))) && w.source == [[e]]
    ensures Reaches(w0, w', false) && w'.pass.Running? && w'.source == w.source && w'.seen == w.seen
    ensures w'.disk.store == w.disk.store && (c.destination, 0) in w'.disk.shards
        && w'.disk.shards[(c.destination, 0)] == [e]
  {
    Takes(w0, w, false, ReadGroup);
    var w1 := At(w, Holding(1, 0, [e], Cursor(1, 1)));
    Takes(w0, w1, false, ClearShard);
    var w2 := Apply(ClearShard, w1).value;
    Takes(w0, w2, false, WriteShard);
    w' := Apply(WriteShard, w2).value;
  }

  lemma {:induction false} FinishesMixed(w0: World, w: World, d: Destination, a: Row, b: Row, e: Row)
    requires Reaches(w0, w, false) && w.pass.Idle? && w.source == [[a], [b]]
    requires w.disk.store == Some(InProgress(Cursor(1, 1), Some([[a], [b]]), d))
    requires (d, 0) in w.disk.shards && w.disk.shards[(d, 0)] == [e]
    ensures exists w' ::
      && Reaches(w0, w', false) && w'.source == w.source && w'.seen == w.seen
      && w'.disk.store == Some(Completed(Artifact(d, [e, b]), Some([[a], [b]])))
  {
    var c := Context(d, true, Some(w.source), Some(Cursor(1, 1)), None, false);
    Opens(w0, w, false, Begin(d, true, true), c);
    var w1 := w.(pass := Running(c, Streaming(2, Cursor(1, 1))));
    StagesOne(w0, w1, false, [b]);
    CompletesTwo(w0, StagedOne(w1, [b]), false, e, b, true);
  }

  /**
   A pass that re-reads a changed source whose last artifact is healthy has no check after it
   publishes: a change in the middle is recorded as a completion of a version it does not hold.
   */
  lemma {:induction false} PlainPassMixes(d: Destination, w0: World, earlier: Row, a: Row, b: Row, e: Row)
    requires w0.pass.Idle? && w0.source == [[a], [b]] && b != e
    requires w0.disk.store == Some(Completed(Artifact(d, [earlier]), Some([[earlier]])))
    requires d in w0.disk.files && w0.disk.files[d] == [earlier]
    ensures exists w ::
      && Reaches(w0, w, false) && w.disk.store == Some(Completed(Artifact(d, [a, e]), Some([[a], [b]])))
      && [a, e] != AllRows([[a], [b]])
  {
    var one: Source, two: Source := [[a], [b]], [[b], [e]];
    var c := Context(d, false, Some(one), None, Some(Artifact(d, [earlier])), true);
    Starts(w0);
    assert |one| != |[[earlier]]|;
    Opens(w0, w0, true, Begin(d, false, true), c);
    var w1 := w0.(pass := Running(c, PlainReading(2, 0, [])));
    Takes(w0, w1, true, ReadGroup);
    assert [] + one[0] == [a];
    var w2 := At(w1, PlainReading(2, 1, [a]));
    Takes(w0, w2, true, ChangeSource(two));
    FinishesPlainly(w0, Apply(ChangeSource(two), w2).value, c, a, e);
    RowsOfTwo(a, b);
    assert [a, e][1] != [a, b][1];
  }

  lemma {:induction false} FinishesPlainly(w0: World, w: World, c: Context, a: Row, e: Row)
    requires Reaches(w0, w, false) && w.pass == Running(c, PlainReading(2, 1, [a]))
    requires |w.source| == 2 && w.source[1] == [e] && c.prior.Some? && |c.prior.value.rows| == 1
    ensures exists w' ::
              Reaches(w0, w', false) && w'.disk.store == Some(Completed(Artifact(c.destination, [a, e]), c.version))
  {
    Takes(w0, w, false, ReadGroup);
    assert [a] + w.source[1] == [a, e];
    var w1 := At(w, PlainReading(2, 2, [a, e]));
    Takes(w0, w1, false, PlainPublish);
    var w2 := Apply(PlainPublish, w1).value;
    Takes(w0, w2, false, PlainFinish);
    var w3 := Apply(PlainFinish, w2).value;
    assert w3.disk.store == Some(Completed(Artifact(c.destination, [a, e]), c.version));
  }

  /**
   A pass that does not resume clears shard 0 while the old checkpoint still names it; a crash there
   makes the next resuming pass raise. It raises rather than publish: the claim for such runs is
   "the whole source or an error" (PublishesWholeSource covers them).
   */
  lemma {:induction false} RestartingCanLoseAShard(d: Destination, w: World)
    requires Sound(w) && w.pass.Idle? && w.seen == {w.source} && w.source != [] && w.source[0] != []
    requires w.disk.store.Some? && w.disk.store.value.InProgress? && w.disk.store.value.destination == d
    requires w.disk.store.value.cursor.nextBatch > 0
    ensures exists w' :: Reaches(w, w', true) && w'.log == w.log + [Raised(MissingShard)]
  {
    var state := w.disk.store.value;
    var c := Context(d, false, Some(w.source), Some(state.cursor), None, false);
    Starts(w);
    Opens(w, w, true, Begin(d, false, true), c);
    var w1 := w.(pass := Running(c, Streaming(|w.source|, Cursor(0, 0))));
    Takes(w, w1, true, ReadGroup);
    var w2 := At(w1, Holding(|w.source|, 0, w.source[0], Cursor(1, 1)));
    Takes(w, w2, true, ClearShard);
    var w3 := Apply(ClearShard, w2).value;
    Takes(w, w3, true, Crash);
    var w4 := Apply(Crash, w3).value;
    var c' := Context(d, true, Some(w.source), Some(state.cursor), None, false);
    Opens(w, w4, true, Begin(d, true, true), c');
    assert (d, 0) !in w4.disk.shards && !HasShards(w4.disk, d, state.cursor.nextBatch);
    var w5 := OpenStream(w4.(pass := Running(c', Loaded)));
    assert w5.log == w.log + [Raised(MissingShard)];
  }
}
