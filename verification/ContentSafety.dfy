/** Whatever interleaves or crashes, a hit is the payload its own row's put wrote. */
module ContentSafety {
  import opened Wrappers
  import opened ContentMachine

  // ---------------------------------------------------------------- the invariant

  /** Each content file holds the bytes it is named for, or the ones found there before payload naming. */
  ghost predicate FilesAddressed(h: Hash, first: State, s: State) {
    forall d | d in s.files :: if d in s.legacy then d in first.files && s.files[d] == first.files[d]
                               else h.sha(s.files[d]) == d
  }

  ghost predicate RowsGood(h: Hash, s: State) {
    forall k | k in s.rows :: GoodRow(h, s.legacy, k, s.rows[k])
  }

  /** What a task in flight knows. */
  predicate GoodTask(h: Hash, legacy: set<Digest>, task: Task) {
    match task
    case Published(put, _) => h.sha(put.data) !in legacy
    case Selected(key, row, _) => GoodRow(h, legacy, RowKey(h, key), row)
    case _ => true
  }

  ghost predicate TasksGood(h: Hash, s: State) {
    forall id | id in s.tasks :: GoodTask(h, s.legacy, s.tasks[id])
  }

  /** An answer is a miss, or what the row it read stands for, within that row's time to live. */
  predicate GoodAnswer(h: Hash, ttl: real, first: State, task: Task) {
    task.Answered? && task.result.Some? ==>
      && task.read.Some? && Live(ttl, task.read.value, task.now)
      && match task.read.value.content
         case Some(_) => task.read.value.origin == Some(Put(task.key, task.result.value))
         case None =>
           var d := RowKey(h, task.key);
           (d in first.files && task.result.value == first.files[d]) || task.result.value == h.encode(task.key)
  }

  ghost predicate AnswersGood(h: Hash, ttl: real, first: State, s: State) {
    forall id | id in s.tasks :: GoodAnswer(h, ttl, first, s.tasks[id])
  }

  predicate SelectedLive(ttl: real, task: Task) {
    task.Selected? ==> Live(ttl, task.row, task.now)
  }

  ghost predicate SelectionsLive(ttl: real, s: State) {
    forall id | id in s.tasks :: SelectedLive(ttl, s.tasks[id])
  }

  ghost predicate Inv(h: Hash, ttl: real, first: State, s: State) {
    && FilesAddressed(h, first, s) && RowsGood(h, s) && TasksGood(h, s)
    && SelectionsLive(ttl, s) && AnswersGood(h, ttl, first, s)
  }

  // ---------------------------------------------------------------- each step keeps it

  lemma {:induction false} StepKeepsFiles(h: Hash, ttl: real, first: State, step: Step, s: State, t: State)
    requires FilesAddressed(h, first, s) && Apply(h, ttl, step, s) == Some(t)
    ensures FilesAddressed(h, first, t) && t.legacy <= s.legacy
  {
  }

  lemma {:induction false} StepKeepsRows(h: Hash, ttl: real, step: Step, s: State, t: State)
    requires RowsGood(h, s) && TasksGood(h, s) && Apply(h, ttl, step, s) == Some(t)
    ensures RowsGood(h, t)
  {
    forall k | k in t.rows ensures GoodRow(h, t.legacy, k, t.rows[k]) {
      if k in s.rows {
        assert GoodRow(h, s.legacy, k, s.rows[k]);
      }
      if step.Commit? {
        assert GoodTask(h, s.legacy, s.tasks[step.id]);
      }
    }
  }

  lemma {:induction false} StepKeepsTasks(h: Hash, ttl: real, step: Step, s: State, t: State)
    requires RowsGood(h, s) && TasksGood(h, s) && SelectionsLive(ttl, s) && Apply(h, ttl, step, s) == Some(t)
    ensures TasksGood(h, t) && SelectionsLive(ttl, t)
  {
    forall id | id in t.tasks ensures GoodTask(h, t.legacy, t.tasks[id]) && SelectedLive(ttl, t.tasks[id]) {
      if id in s.tasks {
        assert GoodTask(h, s.legacy, s.tasks[id]) && SelectedLive(ttl, s.tasks[id]);
      }
      if step.BeginGet? && RowKey(h, step.key) in s.rows {
        assert GoodRow(h, s.legacy, RowKey(h, step.key), s.rows[RowKey(h, step.key)]);
      }
    }
  }

  /** Reading the file last: by then the row may be gone and the file replaced or removed. */
  lemma {:induction false} ReadAnswersWell(h: Hash, ttl: real, first: State, s: State, id: nat)
    requires Injective(h) && FilesAddressed(h, first, s) && id in s.tasks && s.tasks[id].Selected?
    requires GoodTask(h, s.legacy, s.tasks[id]) && SelectedLive(ttl, s.tasks[id])
    ensures GoodAnswer(h, ttl, first, Answers(h, s, id, s.tasks[id]).tasks[id])
  {
  }

  lemma {:induction false} OthersAnswered(h: Hash, ttl: real, step: Step, s: State, t: State, id: nat)
    requires Apply(h, ttl, step, s) == Some(t) && id in t.tasks && t.tasks[id].Answered?
    requires !(step.ReadFile? && id == step.id)
    ensures t.tasks[id].result.None? || (id in s.tasks && s.tasks[id] == t.tasks[id])
  {
  }

  lemma {:induction false} StepKeepsAnswers(h: Hash, ttl: real, first: State, step: Step, s: State, t: State)
    requires Injective(h) && Inv(h, ttl, first, s) && Apply(h, ttl, step, s) == Some(t)
    ensures AnswersGood(h, ttl, first, t)
  {
    forall id | id in t.tasks ensures GoodAnswer(h, ttl, first, t.tasks[id]) {
      if step.ReadFile? && id == step.id {
        ReadAnswersWell(h, ttl, first, s, id);
      } else if t.tasks[id].Answered? {
        OthersAnswered(h, ttl, step, s, t, id);
        if id in s.tasks {
          assert GoodAnswer(h, ttl, first, s.tasks[id]);
        }
      }
    }
  }

  lemma {:induction false} RunKeepsInv(h: Hash, ttl: real, steps: seq<Step>, first: State)
    requires Injective(h) && GoodStart(h, first) && Run(h, ttl, steps, first).Some?
    ensures Inv(h, ttl, first, Run(h, ttl, steps, first).value)
  {
    if steps != [] {
      var front, step := steps[..|steps| - 1], steps[|steps| - 1];
      RunKeepsInv(h, ttl, front, first);
      var s, t := Run(h, ttl, front, first).value, Run(h, ttl, steps, first).value;
      StepKeepsFiles(h, ttl, first, step, s, t);
      StepKeepsRows(h, ttl, step, s, t);
      StepKeepsTasks(h, ttl, step, s, t);
      StepKeepsAnswers(h, ttl, first, step, s, t);
    }
  }

  // ---------------------------------------------------------------- what a caller may rely on

  /**
   A hit on a payload-named row is exactly the payload of the put of that same key which committed the
   row, within its time to live: every race turns it into a miss at worst.
   */
  lemma {:induction false} HitIsItsOwnPut(h: Hash, ttl: real, steps: seq<Step>, first: State, s: State, id: nat)
    requires Injective(h) && GoodStart(h, first) && Run(h, ttl, steps, first) == Some(s)
    requires id in s.tasks && s.tasks[id].Answered? && s.tasks[id].result.Some?
    ensures s.tasks[id].read.Some?
    ensures var task := s.tasks[id];
      && task.read.value.ready && task.now <= task.read.value.fetchedAt + ttl
      && (task.read.value.content.Some? ==> task.read.value.origin == Some(Put(task.key, task.result.value)))
  {
    RunKeepsInv(h, ttl, steps, first);
    assert GoodAnswer(h, ttl, first, s.tasks[id]);
  }

  // ---------------------------------------------------------------- rows from before payload naming

  /** The step moves a payload of this name into place. */
  predicate Publishes(h: Hash, s: State, step: Step, name: Digest) {
    step.Publish? && step.id in s.tasks && s.tasks[step.id].Staged? && h.sha(s.tasks[step.id].put.data) == name
  }

  /** Some step of the run did. */
  predicate Wrote(h: Hash, ttl: real, steps: seq<Step>, first: State, name: Digest) {
    steps != [] &&
    var front := steps[..|steps| - 1];
    var s := Run(h, ttl, front, first);
    Wrote(h, ttl, front, first, name) || (s.Some? && Publishes(h, s.value, steps[|steps| - 1], name))
  }

  /** A name keeps its older bytes exactly until a payload of that name is published. */
  lemma {:induction false} LegacyUntilWritten(h: Hash, ttl: real, steps: seq<Step>, first: State, name: Digest)
    requires Run(h, ttl, steps, first).Some?
    ensures name in Run(h, ttl, steps, first).value.legacy
        <==> name in first.legacy && !Wrote(h, ttl, steps, first, name)
  {
    if steps != [] {
      var front, step := steps[..|steps| - 1], steps[|steps| - 1];
      LegacyUntilWritten(h, ttl, front, first, name);
      LegacyAfterStep(h, ttl, Run(h, ttl, front, first).value, step, Run(h, ttl, steps, first).value, name);
    }
  }

  lemma {:induction false} LegacyAfterStep(h: Hash, ttl: real, s: State, step: Step, t: State, name: Digest)
    requires Apply(h, ttl, step, s) == Some(t)
    ensures name in t.legacy <==> name in s.legacy && !Publishes(h, s, step, name)
  {
  }

  /**
   A hit on a row from before payload naming is the file found there at first exactly when no payload
   equal to the key's own text was published before the read, and that text exactly when one was. When
   the file first found already was that text, so is the answer.
   */
  lemma {:induction false} LegacyHit(h: Hash, ttl: real, steps: seq<Step>, first: State, s: State, id: nat, t: State)
    requires Injective(h) && GoodStart(h, first) && Run(h, ttl, steps, first) == Some(s)
    requires id in s.tasks && s.tasks[id].Selected? && s.tasks[id].row.content.None?
    requires Apply(h, ttl, ReadFile(id), s) == Some(t) && t.tasks[id].result.Some?
    ensures var d, text, data := RowKey(h, s.tasks[id].key), h.encode(s.tasks[id].key), t.tasks[id].result.value;
      && (d in first.legacy ==>
            && d in first.files
            && (data == first.files[d] <==> !Wrote(h, ttl, steps, first, d))
            && (data == text <==> Wrote(h, ttl, steps, first, d)))
      && (d !in first.legacy ==> data == text && (d in first.files ==> first.files[d] == text))
  {
    var d := RowKey(h, s.tasks[id].key);
    RunKeepsInv(h, ttl, steps, first);
    LegacyUntilWritten(h, ttl, steps, first, d);
  }

  /**
   A publication changes the bytes some committed row points at exactly when that row is from before
   payload naming, its key's text is the published payload, and its older bytes are still in place.
   */
  lemma {:induction false} ReplacesIff(h: Hash, ttl: real, steps: seq<Step>, first: State, s: State, id: nat, key: Key)
    requires Injective(h) && GoodStart(h, first) && Run(h, ttl, steps, first) == Some(s)
    requires id in s.tasks && s.tasks[id].Staged? && RowKey(h, key) in s.rows
    requires ContentName(h, key, s.rows[RowKey(h, key)]) in s.files
    ensures Apply(h, ttl, Publish(id), s).Some?
    ensures var t, k := Apply(h, ttl, Publish(id), s).value, RowKey(h, key);
      var name := ContentName(h, key, s.rows[k]);
      && name in t.files
      && (t.files[name] != s.files[name] <==>
            && s.rows[k].content.None? && s.tasks[id].put.data == h.encode(key)
            && k in first.legacy && !Wrote(h, ttl, steps, first, k))
  {
    var k := RowKey(h, key);
    RunKeepsInv(h, ttl, steps, first);
    LegacyUntilWritten(h, ttl, steps, first, k);
    assert GoodRow(h, s.legacy, k, s.rows[k]);
  }

  // ---------------------------------------------------------------- runs end to end

  lemma {:induction false} RunThenStep(h: Hash, ttl: real, steps: seq<Step>, first: State, s: State, step: Step)
    requires Run(h, ttl, steps, first) == Some(s)
    ensures Run(h, ttl, steps + [step], first) == Apply(h, ttl, step, s)
  {
    assert (steps + [step])[..|steps|] == steps;
  }

  lemma {:induction false} Joined(h: Hash, ttl: real, before: seq<Step>, between: seq<Step>, first: State, s: State,
                                  u: State)
    requires Run(h, ttl, before, first) == Some(s) && Run(h, ttl, between, s) == Some(u)
    ensures Run(h, ttl, before + between, first) == Some(u)
  {
    if between == [] {
      assert before + between == before;
    } else {
      var front, last := between[..|between| - 1], between[|between| - 1];
      var t := Run(h, ttl, front, s).value;
      Joined(h, ttl, before, front, first, s, t);
      RunThenStep(h, ttl, before + front, first, t, last);
      assert before + between == (before + front) + [last];
    }
  }
}
