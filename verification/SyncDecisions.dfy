/**
 What a pass decides, over every world a run can reach: when it answers without reading the source, where
 it starts when it does read, and what it reports in the end.
 */
module SyncDecisions {
  import opened Wrappers
  import opened RowGroups
  import opened SyncProtocol
  import opened SyncExactness

  /** The artifact was recorded for this destination and the file there still holds its rows. */
  ghost predicate Intact(w: World, a: Artifact, d: Destination) {
    a.destination == d && d in w.disk.files && w.disk.files[d] == a.rows
  }

  /** A checkpoint of this destination that nothing shows to be of another version of the source. */
  ghost predicate Usable(w: World, cursor: Cursor, version: Version, d: Destination, readable: bool) {
    && w.disk.store == Some(InProgress(cursor, version, d))
    && (readable && version.Some? ==> version.value == w.source)
  }

  /** The step reports this outcome and ends the pass. */
  ghost predicate Reports(w: World, w': World, o: Outcome) {
    w'.log == w.log + [o] && w'.pass.Idle?
  }

  /**
   A pass answers at once with "resumed" exactly when it resumes and the recorded artifact is intact, and
   with "skipped, unchanged" exactly when it does not resume, the recorded artifact is intact, and the digest
   could be computed and is that of the recorded version: the source as it stands now. It answers at once in
   no other way.
   */
  lemma {:induction false} BeginAnswersIff(w: World, d: Destination, resume: bool, readable: bool, w': World)
    requires Apply(Begin(d, resume, readable), w) == Some(w')
    ensures w'.disk == w.disk && w'.source == w.source && w'.seen == w.seen
    ensures forall a :: Reports(w, w', Resumed(a)) <==>
              resume && Intact(w, a, d) && exists v :: w.disk.store == Some(Completed(a, v))
    ensures forall a :: Reports(w, w', SkippedUnchanged(a)) <==>
              !resume && readable && Intact(w, a, d) && w.disk.store == Some(Completed(a, Some(w.source)))
    ensures w'.pass.Running? <==> w'.log == w.log
    ensures w'.pass.Running? || exists a :: Reports(w, w', Resumed(a)) || Reports(w, w', SkippedUnchanged(a))
  {
    assert w.log + [Resumed(Artifact(d, []))] != w.log;
    if w'.pass.Idle? {
      assert w'.log != w.log;
      var o := w'.log[|w'.log| - 1];
      assert w'.log == w.log + [o];
      forall a ensures Reports(w, w', Resumed(a)) <==> o == Resumed(a) {
        assert (w.log + [Resumed(a)])[|w.log|] == Resumed(a);
      }
      forall a ensures Reports(w, w', SkippedUnchanged(a)) <==> o == SkippedUnchanged(a) {
        assert (w.log + [SkippedUnchanged(a)])[|w.log|] == SkippedUnchanged(a);
      }
      assert Reports(w, w', o);
      if o.Resumed? {
        assert w.disk.store == Some(Completed(o.artifact, w.disk.store.value.version));
      }
    }
  }

  /**
   A pass that goes on goes through shards from a usable checkpoint if it resumes, and from the start if it
   does not or has none; only over an intact recorded artifact does it read the source plainly.
   */
  lemma {:induction false} OpenStartsAt(w: World, d: Destination, resume: bool, readable: bool, w1: World, w2: World)
    requires Apply(Begin(d, resume, readable), w) == Some(w1) && w1.pass.Running? && Apply(Open, w1) == Some(w2)
    ensures w2.pass.Running? ==>
              && w2.pass.context.destination == d && w2.pass.context.resume == resume
              && w2.pass.context.version == if readable then Some(w.source) else None
    ensures (w2.pass.Running? && w2.pass.stage == PlainReading(|w.source|, 0, [])) <==>
              exists a, v :: w.disk.store == Some(Completed(a, v)) && Intact(w, a, d)
    ensures w2.pass.Running? ==> w2.pass.stage.PlainReading? || w2.pass.stage.Streaming?
    ensures forall c, v | resume && Usable(w, c, v, d, readable) ::
              if c.rowGroup > |w.source| then Reports(w, w2, Raised(BeyondFooter))
              else if !HasShards(w.disk, d, c.nextBatch) then Reports(w, w2, Raised(MissingShard))
              else w2.pass.Running? && w2.pass.stage == Streaming(|w.source|, c)
    ensures w2.pass.Running? && w2.pass.stage.Streaming? ==>
              w2.pass.stage.count == |w.source|
              && (w2.pass.stage.next == Cursor(0, 0)
                  || (resume && exists v :: Usable(w, w2.pass.stage.next, v, d, readable)))
    ensures (!resume || forall c, v :: !Usable(w, c, v, d, readable)) ==> w2.pass.Running?
    ensures (!resume || forall c, v :: !Usable(w, c, v, d, readable)) && w2.pass.stage.Streaming? ==>
              w2.pass.stage.next == Cursor(0, 0)
  {
    if w.disk.store.Some? && w.disk.store.value.InProgress? {
      var s := w.disk.store.value;
      assert resume && w1.pass.context.checkpoint.Some? ==> Usable(w, s.cursor, s.version, d, readable);
    }
    if w.disk.store.Some? && w.disk.store.value.Completed? {
      assert w.disk.store == Some(Completed(w.disk.store.value.artifact, w.disk.store.value.version));
    }
  }

  /**
   Over every run, every success a pass reports is one of these: an answer at the beginning over an intact
   artifact; the recorded artifact, when a plain pass read exactly its rows again; or what the pass laid end
   to end, under "resumed" exactly when it went on from a checkpoint.
   */
  lemma {:induction false} SuccessesAre(steps: seq<Step>, w0: World, w: World, step: Step, w': World, o: Outcome)
    requires w0.pass.Idle? && Run(steps, w0) == Some(w) && Apply(step, w) == Some(w')
    requires Reports(w, w', o) && !o.Raised? && !step.Begin?
    ensures w.pass.Running? && (step.PlainFinish? || step.CleanUp?)
    ensures var made := Artifact(w.pass.context.destination, Concat(Content(steps, w0)));
      if step.CleanUp? then
        o == if w.pass.context.resume && w.pass.context.checkpoint.Some? then Resumed(made) else Materialized(made)
      else if w.pass.context.prior.Some? && w.pass.context.prior.value.rows == made.rows then
        o == SkippedUnchanged(w.pass.context.prior.value) && w'.disk.store == w.disk.store
      else o == Materialized(made) && w'.disk.store == Some(Completed(made, w.pass.context.version))
  {
    RunCarries(steps, w0);
    assert w'.log != w.log by {
      assert |w'.log| == |w.log| + 1;
    }
    assert w'.log[|w.log|] == o;
  }
}
