/**
 When a committed row has its file, over every run: it is decided by the last step that published or
 removed the payload, and a sweep removes only what two sweeps of one instance found unvouched.
 */
module ContentPresence {
  import opened Wrappers
  import opened ContentMachine
  import opened ContentSafety

  // ---------------------------------------------------------------- what touches a file

  /** The step removes the file of this name, after a deletion or in a sweep. */
  predicate Removes(s: State, step: Step, name: Digest) {
    step.id in s.tasks &&
    match step
    case RemoveFile(id) => s.tasks[id] == Doomed(name)
    case SweepFile(id, swept) => swept == name && s.tasks[id].Removing? && name in s.tasks[id].names
    case _ => false
  }

  /** A removal of the payload that no publication has followed. */
  predicate Lost(h: Hash, ttl: real, steps: seq<Step>, s0: State, name: Digest)
    requires Run(h, ttl, steps, s0).Some?
  {
    steps != [] &&
    var front, last := steps[..|steps| - 1], steps[|steps| - 1];
    var s := Run(h, ttl, front, s0).value;
    Removes(s, last, name) || (!Publishes(h, s, last, name) && Lost(h, ttl, front, s0, name))
  }

  predicate PublishedAt(h: Hash, ttl: real, steps: seq<Step>, s0: State, name: Digest, m: nat) {
    m < |steps| && Run(h, ttl, steps[..m], s0).Some? && Publishes(h, Run(h, ttl, steps[..m], s0).value, steps[m], name)
  }

  predicate RemovedAt(h: Hash, ttl: real, steps: seq<Step>, s0: State, name: Digest, m: nat) {
    m < |steps| && Run(h, ttl, steps[..m], s0).Some? && Removes(Run(h, ttl, steps[..m], s0).value, steps[m], name)
  }

  /** The same by position: some removal comes after every publication. */
  lemma {:induction false} LostIff(h: Hash, ttl: real, steps: seq<Step>, s0: State, name: Digest)
    requires Run(h, ttl, steps, s0).Some?
    ensures Lost(h, ttl, steps, s0, name) <==>
              exists m: nat :: RemovedAt(h, ttl, steps, s0, name, m)
                               && forall n: nat | m < n :: !PublishedAt(h, ttl, steps, s0, name, n)
  {
    if steps != [] {
      var k := |steps| - 1;
      var front := steps[..k];
      LostIff(h, ttl, front, s0, name);
      forall m: nat | m < k
        ensures RemovedAt(h, ttl, steps, s0, name, m) <==> RemovedAt(h, ttl, front, s0, name, m)
        ensures PublishedAt(h, ttl, steps, s0, name, m) <==> PublishedAt(h, ttl, front, s0, name, m)
      {
        assert steps[..m] == front[..m];
      }
      assert RemovedAt(h, ttl, steps, s0, name, k) <==> Removes(Run(h, ttl, front, s0).value, steps[k], name);
      assert PublishedAt(h, ttl, steps, s0, name, k) <==> Publishes(h, Run(h, ttl, front, s0).value, steps[k], name);
    }
  }

  lemma {:induction false} FileAfterStep(h: Hash, ttl: real, s: State, step: Step, t: State, name: Digest)
    requires Apply(h, ttl, step, s) == Some(t)
    ensures name in t.files <==> Publishes(h, s, step, name) || (name in s.files && !Removes(s, step, name))
  {
  }

  /** A file is there exactly when it was there at first or was published, and its last touch was no removal. */
  lemma {:induction false} FileStandsIff(h: Hash, ttl: real, steps: seq<Step>, s0: State, name: Digest)
    requires Run(h, ttl, steps, s0).Some?
    ensures name in Run(h, ttl, steps, s0).value.files <==>
              (name in s0.files || Wrote(h, ttl, steps, s0, name)) && !Lost(h, ttl, steps, s0, name)
  {
    if steps != [] {
      var front, last := steps[..|steps| - 1], steps[|steps| - 1];
      FileStandsIff(h, ttl, front, s0, name);
      FileAfterStep(h, ttl, Run(h, ttl, front, s0).value, last, Run(h, ttl, steps, s0).value, name);
    }
  }

  // ---------------------------------------------------------------- rows

  /** A row that names its content was there at first, or its payload has been published. */
  ghost predicate RowWritten(h: Hash, ttl: real, steps: seq<Step>, first: State, k: Digest, row: Row) {
    row.content.Some? ==> (k in first.rows && first.rows[k] == row) || Wrote(h, ttl, steps, first, row.content.value)
  }

  ghost predicate TaskWritten(h: Hash, ttl: real, steps: seq<Step>, first: State, task: Task) {
    task.Published? ==> Wrote(h, ttl, steps, first, h.sha(task.put.data))
  }

  ghost predicate AllWritten(h: Hash, ttl: real, steps: seq<Step>, first: State, s: State) {
    && (forall k | k in s.rows :: RowWritten(h, ttl, steps, first, k, s.rows[k]))
    && (forall id | id in s.tasks :: TaskWritten(h, ttl, steps, first, s.tasks[id]))
  }

  lemma {:induction false} RowOrigin(h: Hash, ttl: real, s: State, step: Step, t: State, k: Digest)
    requires Apply(h, ttl, step, s) == Some(t) && k in t.rows && (k in s.rows ==> t.rows[k] != s.rows[k])
    ensures step.Commit? && step.id in s.tasks && s.tasks[step.id].Published?
    ensures t.rows[k].content == Some(h.sha(s.tasks[step.id].put.data))
  {
  }

  lemma {:induction false} TaskOrigin(h: Hash, ttl: real, s: State, step: Step, t: State, id: nat)
    requires Apply(h, ttl, step, s) == Some(t) && id in t.tasks && t.tasks[id].Published?
    requires id in s.tasks ==> t.tasks[id] != s.tasks[id]
    ensures Publishes(h, s, step, h.sha(t.tasks[id].put.data))
  {
  }

  lemma {:induction false} RunWritesRows(h: Hash, ttl: real, steps: seq<Step>, first: State, s: State)
    requires first.tasks == map[] && Run(h, ttl, steps, first) == Some(s)
    ensures AllWritten(h, ttl, steps, first, s)
  {
    if steps != [] {
      var front, last := steps[..|steps| - 1], steps[|steps| - 1];
      var before := Run(h, ttl, front, first).value;
      RunWritesRows(h, ttl, front, first, before);
      forall k | k in s.rows ensures RowWritten(h, ttl, steps, first, k, s.rows[k]) {
        if k in before.rows && s.rows[k] == before.rows[k] {
          assert RowWritten(h, ttl, front, first, k, before.rows[k]);
        } else {
          RowOrigin(h, ttl, before, last, s, k);
          assert TaskWritten(h, ttl, front, first, before.tasks[last.id]);
        }
      }
      forall id | id in s.tasks ensures TaskWritten(h, ttl, steps, first, s.tasks[id]) {
        if id in before.tasks && s.tasks[id] == before.tasks[id] {
          assert TaskWritten(h, ttl, front, first, before.tasks[id]);
        } else if s.tasks[id].Published? {
          TaskOrigin(h, ttl, before, last, s, id);
        }
      }
    }
  }

  /**
   A row that names its payload has its file exactly when no removal of that payload followed its last
   publication. Only a row found at first may never have had one.
   */
  lemma {:induction false} RowHasItsFileIff(h: Hash, ttl: real, steps: seq<Step>, first: State, s: State, k: Digest)
    requires GoodStart(h, first) && Run(h, ttl, steps, first) == Some(s) && k in s.rows && s.rows[k].content.Some?
    ensures var name := s.rows[k].content.value;
      && (name in first.files || Wrote(h, ttl, steps, first, name) || (k in first.rows && first.rows[k] == s.rows[k]))
      && (name in first.files || Wrote(h, ttl, steps, first, name) ==>
            (name in s.files <==> !Lost(h, ttl, steps, first, name)))
      && (name !in first.files && !Wrote(h, ttl, steps, first, name) ==> name !in s.files)
  {
    RunWritesRows(h, ttl, steps, first, s);
    assert RowWritten(h, ttl, steps, first, k, s.rows[k]);
    FileStandsIff(h, ttl, steps, first, s.rows[k].content.value);
  }

  /**
   A read that selected a row whose file is missing answers with that row's payload exactly when it was
   published again before the read and not removed after that; otherwise it is a miss.
   */
  lemma {:induction false} DanglingRowIsAMiss(h: Hash, ttl: real, before: seq<Step>, first: State, s: State, id: nat,
                                              between: seq<Step>, u: State)
    requires Injective(h) && GoodStart(h, first) && Run(h, ttl, before, first) == Some(s)
    requires id in s.tasks && s.tasks[id].Selected? && s.tasks[id].row.content.Some?
    requires s.tasks[id].row.content.value !in s.files
    requires Run(h, ttl, between, s) == Some(u) && id in u.tasks && u.tasks[id] == s.tasks[id]
    ensures Apply(h, ttl, ReadFile(id), u).Some?
    ensures var answer, name := Apply(h, ttl, ReadFile(id), u).value.tasks[id].result, s.tasks[id].row.content.value;
      && (answer.Some? <==> Wrote(h, ttl, between, s, name) && !Lost(h, ttl, between, s, name))
      && (answer.Some? ==> s.tasks[id].row.origin == Some(Put(s.tasks[id].key, answer.value)))
  {
    FileStandsIff(h, ttl, between, s, s.tasks[id].row.content.value);
    RunKeepsInv(h, ttl, before, first);
    assert GoodTask(h, s.legacy, s.tasks[id]);
    Joined(h, ttl, before, between, first, s, u);
    RunKeepsInv(h, ttl, before + between, first);
    ReadAnswersWell(h, ttl, first, u, id);
  }

  // ---------------------------------------------------------------- what a sweep may remove

  /** A sweep of the instance finds the file listed and no row vouching for it: a candidate from now on. */
  predicate Marks(ttl: real, s: State, step: Step, instance: Instance, name: Digest) {
    step.SweepRows? && step.id in s.tasks && s.tasks[step.id].Listed? && s.tasks[step.id].instance == instance
    && name in s.tasks[step.id].names && name !in Known(KeptRows(ttl, s.rows, step.now))
  }

  predicate Marked(h: Hash, ttl: real, steps: seq<Step>, s0: State, instance: Instance, name: Digest)
    requires Run(h, ttl, steps, s0).Some?
  {
    steps != [] &&
    var front := steps[..|steps| - 1];
    || Marked(h, ttl, front, s0, instance, name)
    || Marks(ttl, Run(h, ttl, front, s0).value, steps[|steps| - 1], instance, name)
  }

  /** Two of the steps are such sweeps of the instance. */
  predicate MarkedTwice(h: Hash, ttl: real, steps: seq<Step>, s0: State, instance: Instance, name: Digest)
    requires Run(h, ttl, steps, s0).Some?
  {
    steps != [] &&
    var front := steps[..|steps| - 1];
    || MarkedTwice(h, ttl, front, s0, instance, name)
    || (Marked(h, ttl, front, s0, instance, name)
        && Marks(ttl, Run(h, ttl, front, s0).value, steps[|steps| - 1], instance, name))
  }

  /** A deletion of this payload got as far as removing the file. */
  predicate Deleted(h: Hash, ttl: real, steps: seq<Step>, s0: State, name: Digest)
    requires Run(h, ttl, steps, s0).Some?
  {
    steps != [] &&
    var front, last := steps[..|steps| - 1], steps[|steps| - 1];
    Deleted(h, ttl, front, s0, name) || (last.RemoveFile? && Removes(Run(h, ttl, front, s0).value, last, name))
  }

  /** A sweep that leaves a name to remove found it listed, unvouched, and already a candidate of its instance. */
  lemma {:induction false} SweepRemovesOnlyCandidates(h: Hash, ttl: real, s: State, step: Step, t: State, name: Digest)
    requires Apply(h, ttl, step, s) == Some(t) && step.SweepRows? && s.tasks[step.id].Listed?
    ensures t.tasks[step.id].Removing?
    ensures var instance := s.tasks[step.id].instance;
      && (name in t.tasks[step.id].names <==> Marks(ttl, s, step, instance, name) && name in CandidatesOf(s, instance))
      && (name in CandidatesOf(t, instance) <==> Marks(ttl, s, step, instance, name))
  {
  }

  predicate BeingRemoved(s: State, name: Digest) {
    exists id | id in s.tasks && s.tasks[id].Removing? :: name in s.tasks[id].names
  }

  ghost predicate Candidate(s: State, name: Digest) {
    exists instance :: name in CandidatesOf(s, instance)
  }

  ghost predicate TwiceMarked(h: Hash, ttl: real, steps: seq<Step>, s0: State, name: Digest)
    requires Run(h, ttl, steps, s0).Some?
  {
    exists instance :: MarkedTwice(h, ttl, steps, s0, instance, name)
  }

  /** Since a state in which no sweep was after the file: candidates are marked, and what is removed is so twice. */
  ghost predicate Traced(h: Hash, ttl: real, steps: seq<Step>, s0: State, s: State, name: Digest)
    requires Run(h, ttl, steps, s0).Some?
  {
    && (forall instance | name in CandidatesOf(s, instance) :: Marked(h, ttl, steps, s0, instance, name))
    && (BeingRemoved(s, name) ==> TwiceMarked(h, ttl, steps, s0, name))
    && (Lost(h, ttl, steps, s0, name) ==> Deleted(h, ttl, steps, s0, name) || TwiceMarked(h, ttl, steps, s0, name))
  }

  lemma {:induction false} RunIsTraced(h: Hash, ttl: real, steps: seq<Step>, s0: State, s: State, name: Digest)
    requires Run(h, ttl, steps, s0) == Some(s) && !Candidate(s0, name) && !BeingRemoved(s0, name)
    ensures Traced(h, ttl, steps, s0, s, name)
  {
    if steps != [] {
      var front, last := steps[..|steps| - 1], steps[|steps| - 1];
      var before := Run(h, ttl, front, s0).value;
      RunIsTraced(h, ttl, front, s0, before, name);
      TwiceMarkedLasts(h, ttl, steps, s0, name);
      if last.SweepRows? {
        SweepIsTraced(h, ttl, steps, s0, before, s, name);
      } else {
        OtherStepIsTraced(h, ttl, steps, s0, before, s, name);
      }
    }
  }

  lemma {:induction false} TwiceMarkedLasts(h: Hash, ttl: real, steps: seq<Step>, s0: State, name: Digest)
    requires steps != [] && Run(h, ttl, steps, s0).Some?
    ensures TwiceMarked(h, ttl, steps[..|steps| - 1], s0, name) ==> TwiceMarked(h, ttl, steps, s0, name)
  {
    if TwiceMarked(h, ttl, steps[..|steps| - 1], s0, name) {
      var instance :| MarkedTwice(h, ttl, steps[..|steps| - 1], s0, instance, name);
      assert MarkedTwice(h, ttl, steps, s0, instance, name);
    }
  }

  lemma {:induction false} SweepIsTraced(h: Hash, ttl: real, steps: seq<Step>, s0: State, s: State, t: State,
                                         name: Digest)
    requires steps != [] && Run(h, ttl, steps[..|steps| - 1], s0) == Some(s) && Run(h, ttl, steps, s0) == Some(t)
    requires Traced(h, ttl, steps[..|steps| - 1], s0, s, name) && steps[|steps| - 1].SweepRows?
    requires TwiceMarked(h, ttl, steps[..|steps| - 1], s0, name) ==> TwiceMarked(h, ttl, steps, s0, name)
    ensures Traced(h, ttl, steps, s0, t, name)
  {
    var last := steps[|steps| - 1];
    SweepRemovesOnlyCandidates(h, ttl, s, last, t, name);
    var instance := s.tasks[last.id].instance;
    if name in t.tasks[last.id].names {
      assert MarkedTwice(h, ttl, steps, s0, instance, name);
    }
    if BeingRemoved(t, name) {
      var id :| id in t.tasks && t.tasks[id].Removing? && name in t.tasks[id].names;
      assert id == last.id || (id in s.tasks && s.tasks[id] == t.tasks[id]);
    }
    forall other | name in CandidatesOf(t, other) ensures Marked(h, ttl, steps, s0, other, name) {
      assert other == instance || name in CandidatesOf(s, other);
    }
  }

  lemma {:induction false} OtherStepIsTraced(h: Hash, ttl: real, steps: seq<Step>, s0: State, s: State, t: State,
                                             name: Digest)
    requires steps != [] && Run(h, ttl, steps[..|steps| - 1], s0) == Some(s) && Run(h, ttl, steps, s0) == Some(t)
    requires Traced(h, ttl, steps[..|steps| - 1], s0, s, name) && !steps[|steps| - 1].SweepRows?
    requires TwiceMarked(h, ttl, steps[..|steps| - 1], s0, name) ==> TwiceMarked(h, ttl, steps, s0, name)
    ensures Traced(h, ttl, steps, s0, t, name)
  {
    var last := steps[|steps| - 1];
    KeepsCandidates(h, ttl, s, last, t, name);
    if Removes(s, last, name) && last.SweepFile? {
      assert BeingRemoved(s, name);
    }
  }

  lemma {:induction false} KeepsCandidates(h: Hash, ttl: real, s: State, step: Step, t: State, name: Digest)
    requires Apply(h, ttl, step, s) == Some(t) && !step.SweepRows?
    ensures t.candidates == s.candidates && (BeingRemoved(t, name) ==> BeingRemoved(s, name))
  {
    if BeingRemoved(t, name) {
      var id :| id in t.tasks && t.tasks[id].Removing? && name in t.tasks[id].names;
      assert id in s.tasks && s.tasks[id].Removing? && name in s.tasks[id].names;
    }
  }

  /**
   What a writer has just published is gone at some later time, whether or not its row was committed
   meanwhile, exactly when it was removed since and not published again. If at publication no instance had
   it as a candidate and no sweep was removing it, that takes a deletion of the payload, or two sweeps of
   one instance since, each of which found it listed and no row vouching for it.
   */
  lemma {:induction false} PublishedFileIsGoneIff(h: Hash, ttl: real, s: State, id: nat, p: State, since: seq<Step>,
                                                  u: State)
    requires id in s.tasks && s.tasks[id].Staged?
    requires Apply(h, ttl, Publish(id), s) == Some(p) && Run(h, ttl, since, p) == Some(u)
    ensures var name := h.sha(s.tasks[id].put.data);
      && (name !in u.files <==> Lost(h, ttl, since, p, name))
      && (name !in u.files && !Candidate(s, name) && !BeingRemoved(s, name) ==>
            Deleted(h, ttl, since, p, name) || TwiceMarked(h, ttl, since, p, name))
  {
    var name := h.sha(s.tasks[id].put.data);
    FileStandsIff(h, ttl, since, p, name);
    KeepsCandidates(h, ttl, s, Publish(id), p, name);
    assert forall instance :: CandidatesOf(p, instance) == CandidatesOf(s, instance);
    if !Candidate(s, name) && !BeingRemoved(s, name) {
      RunIsTraced(h, ttl, since, p, u, name);
    }
  }

  // ---------------------------------------------------------------- every removal has its cause

  /** Some deletion took away a row that pointed at the file, or found none and went for the key's own name. */
  predicate UnlinkedBefore(h: Hash, ttl: real, steps: seq<Step>, first: State, name: Digest)
    requires Run(h, ttl, steps, first).Some?
  {
    steps != [] &&
    var front, last := steps[..|steps| - 1], steps[|steps| - 1];
    || UnlinkedBefore(h, ttl, front, first, name)
    || (last.BeginDelete? && NameFor(h, Run(h, ttl, front, first).value, last.key) == name)
  }

  function NameFor(h: Hash, s: State, key: Key): Digest {
    if RowKey(h, key) in s.rows then ContentName(h, key, s.rows[RowKey(h, key)]) else RowKey(h, key)
  }

  predicate AfterFile(task: Task, name: Digest) {
    task == Unlinked(name) || task == Doomed(name)
  }

  lemma {:induction false} DeletionOrigin(h: Hash, ttl: real, s: State, step: Step, t: State, id: nat, name: Digest)
    requires Apply(h, ttl, step, s) == Some(t) && id in t.tasks && AfterFile(t.tasks[id], name)
    ensures (id in s.tasks && AfterFile(s.tasks[id], name)) || (step.BeginDelete? && NameFor(h, s, step.key) == name)
  {
  }

  lemma {:induction false} DeletionsUnlink(h: Hash, ttl: real, steps: seq<Step>, first: State, s: State, id: nat,
                                           name: Digest)
    requires first.tasks == map[] && Run(h, ttl, steps, first) == Some(s) && id in s.tasks
    requires AfterFile(s.tasks[id], name)
    ensures UnlinkedBefore(h, ttl, steps, first, name)
  {
    if steps != [] {
      var front, last := steps[..|steps| - 1], steps[|steps| - 1];
      var before := Run(h, ttl, front, first).value;
      DeletionOrigin(h, ttl, before, last, s, id, name);
      if id in before.tasks && AfterFile(before.tasks[id], name) {
        DeletionsUnlink(h, ttl, front, first, before, id, name);
      }
    }
  }

  // ---------------------------------------------------------------- what a deletion spares

  predicate Named(s: State, name: Digest) {
    exists k | k in s.rows :: s.rows[k].content == Some(name)
  }

  /** The check of a deletion came when no row named the payload. */
  predicate FoundUnnamed(h: Hash, ttl: real, steps: seq<Step>, first: State, id: nat, name: Digest)
    requires Run(h, ttl, steps, first).Some?
  {
    steps != [] &&
    var front, last := steps[..|steps| - 1], steps[|steps| - 1];
    || FoundUnnamed(h, ttl, front, first, id, name)
    || (last == CheckReferenced(id) && !Named(Run(h, ttl, front, first).value, name))
  }

  /** A deletion whose payload another row names ends there; only otherwise does it go on to the file. */
  lemma {:induction false} DeletionSparesNamed(h: Hash, ttl: real, s: State, id: nat)
    requires id in s.tasks && s.tasks[id].Unlinked?
    ensures Apply(h, ttl, CheckReferenced(id), s).Some?
    ensures var t, name := Apply(h, ttl, CheckReferenced(id), s).value, s.tasks[id].name;
      && t.files == s.files && t.rows == s.rows
      && (if Named(s, name) then id !in t.tasks else id in t.tasks && t.tasks[id] == Doomed(name))
  {
  }

  lemma {:induction false} DoomOrigin(h: Hash, ttl: real, s: State, step: Step, t: State, id: nat, name: Digest)
    requires Apply(h, ttl, step, s) == Some(t) && id in t.tasks && t.tasks[id] == Doomed(name)
    ensures (id in s.tasks && s.tasks[id] == Doomed(name)) || (step == CheckReferenced(id) && !Named(s, name))
  {
  }

  lemma {:induction false} DoomedIsUnnamed(h: Hash, ttl: real, steps: seq<Step>, first: State, s: State, id: nat,
                                           name: Digest)
    requires first.tasks == map[] && Run(h, ttl, steps, first) == Some(s) && id in s.tasks
    requires s.tasks[id] == Doomed(name)
    ensures FoundUnnamed(h, ttl, steps, first, id, name)
  {
    if steps != [] {
      var front, last := steps[..|steps| - 1], steps[|steps| - 1];
      var before := Run(h, ttl, front, first).value;
      DoomOrigin(h, ttl, before, last, s, id, name);
      if id in before.tasks && before.tasks[id] == Doomed(name) {
        DoomedIsUnnamed(h, ttl, front, first, before, id, name);
      }
    }
  }

  /**
   From the start of a directory on, a file is only removed after a deletion that unlinked it and then
   found no row naming it, or by a sweep when two sweeps of one instance had found it listed and unvouched.
   */
  lemma {:induction false} RemovalsHaveTheirCause(h: Hash, ttl: real, steps: seq<Step>, first: State, s: State,
                                                  step: Step, name: Digest)
    requires GoodStart(h, first) && Run(h, ttl, steps, first) == Some(s) && Removes(s, step, name)
    ensures step.RemoveFile? || step.SweepFile?
    ensures step.RemoveFile? ==>
              UnlinkedBefore(h, ttl, steps, first, name) && FoundUnnamed(h, ttl, steps, first, step.id, name)
    ensures step.SweepFile? ==> TwiceMarked(h, ttl, steps, first, name)
  {
    if step.RemoveFile? {
      DeletionsUnlink(h, ttl, steps, first, s, step.id, name);
      DoomedIsUnnamed(h, ttl, steps, first, s, step.id, name);
    } else {
      RunIsTraced(h, ttl, steps, first, s, name);
      assert BeingRemoved(s, name);
    }
  }
}
