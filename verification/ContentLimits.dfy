/** What concurrent use of the content cache does not promise, each with a run that shows it. */
module ContentLimits {
  import opened Wrappers
  import opened ContentMachine

  ghost predicate Reaches(h: Hash, ttl: real, s: State, t: State) {
    exists steps ::
      Run(h, ttl, steps, s) == Some(t)
  }

  lemma {:induction false} Starts(h: Hash, ttl: real, s: State)
    ensures Reaches(h, ttl, s, s)
  {
    assert Run(h, ttl, [], s) == Some(s);
  }

  lemma {:induction false} Takes(h: Hash, ttl: real, s: State, t: State, step: Step) returns (u: State)
    requires Reaches(h, ttl, s, t) && Apply(h, ttl, step, t).Some?
    ensures Some(u) == Apply(h, ttl, step, t) && Reaches(h, ttl, s, u)
  {
    var steps :| Run(h, ttl, steps, s) == Some(t);
    assert (steps + [step])[..|steps|] == steps;
    u := Apply(h, ttl, step, t).value;
    assert Run(h, ttl, steps + [step], s) == Some(u);
  }

  const Fresh := State(map[], map[], map[], map[], {})

  /** One whole pass of an instance's sweep over a directory holding one unreferenced file. */
  lemma {:induction false} SweepSeesOrphan(h: Hash, ttl: real, s: State, id: nat, instance: Instance, name: Digest)
    returns (t: State)
    requires Reaches(h, ttl, Fresh, s) && id !in s.tasks && s.files.Keys == {name} && s.rows == map[]
    ensures Reaches(h, ttl, Fresh, t) && t.files == s.files && t.rows == map[]
    ensures t.candidates == s.candidates[instance := {name}]
    ensures t.tasks == s.tasks[id := Removing({name} * CandidatesOf(s, instance))]
  {
    t := Takes(h, ttl, Fresh, s, BeginSweep(id, instance));
    assert t.tasks[id] == Listed(instance, {name});
    assert KeptRows(ttl, t.rows, 0.0) == map[] && Known(map[]) == {};
    assert {name} - {} == {name};
    t := Takes(h, ttl, Fresh, t, SweepRows(id, 0.0));
    assert t.tasks == s.tasks[id := Removing({name} * CandidatesOf(s, instance))];
  }

  /**
   A writer that stalls between publishing and committing while one instance sweeps twice commits a row
   whose file is gone. The next read of that key is a miss, not an error and not other bytes.
   */
  lemma {:induction false} StalledWriterLeavesDanglingRow(h: Hash, ttl: real, put: Put, at: real, instance: Instance)
    returns (s: State)
    ensures Reaches(h, ttl, Fresh, s)
    ensures var k := RowKey(h, put.key);
      k in s.rows && s.rows[k] == Row(Some(put), at, true, Some(h.sha(put.data))) && h.sha(put.data) !in s.files
  {
    var name := h.sha(put.data);
    Starts(h, ttl, Fresh);
    s := Takes(h, ttl, Fresh, Fresh, BeginPut(0, put, at));
    s := Takes(h, ttl, Fresh, s, Publish(0));
    s := SweepSeesOrphan(h, ttl, s, 1, instance, name);
    s := SweepSeesOrphan(h, ttl, s, 2, instance, name);
    assert {name} * {name} == {name};
    s := Takes(h, ttl, Fresh, s, SweepFile(2, name));
    s := Takes(h, ttl, Fresh, s, Commit(0));
  }

  /**
   One sweep between a writer's publication and its commit is enough when the payload already was a
   candidate: an earlier put of it crashed before its commit, and a sweep had seen the file it left.
   */
  lemma {:induction false} OneSweepLosesACandidate(h: Hash, ttl: real, put: Put, at: real, instance: Instance)
    returns (p: State, since: seq<Step>, u: State)
    ensures Reaches(h, ttl, Fresh, p) && 2 in p.tasks && p.tasks[2] == Published(put, at) && h.sha(put.data) in p.files
    ensures since == [BeginSweep(3, instance), SweepRows(3, 0.0), Commit(2), SweepFile(3, h.sha(put.data))]
    ensures Run(h, ttl, since, p) == Some(u)
    ensures var k := RowKey(h, put.key);
      k in u.rows && u.rows[k] == Row(Some(put), at, true, Some(h.sha(put.data))) && h.sha(put.data) !in u.files
  {
    p := CandidatePublished(h, ttl, put, at, instance);
    var name := h.sha(put.data);
    var s1 := Becomes(p, 3, Listed(instance, {name}));
    var s2 := SweptBeside(h, ttl, p, s1, instance, name);
    var s3 := Done(s2.(rows := map[RowKey(h, put.key) := Row(Some(put), at, true, Some(name))]), 2);
    u := Becomes(s3.(files := s3.files - {name}), 3, Removing({name} - {name}));
    since := [BeginSweep(3, instance), SweepRows(3, 0.0), Commit(2), SweepFile(3, name)];
    assert since[..3][..2] == since[..2] && since[..3][..2][..1] == since[..1] && since[..1][..0] == [];
    assert Run(h, ttl, since[..1], p) == Some(s1);
    assert Run(h, ttl, since[..2], p) == Some(s2) by {
      assert since[..2][..1] == since[..1];
    }
    assert Run(h, ttl, since[..3], p) == Some(s3);
  }

  /** The sweep's transaction beside a writer that has published and not committed. */
  lemma {:induction false} SweptBeside(h: Hash, ttl: real, p: State, s1: State, instance: Instance, name: Digest)
    returns (s2: State)
    requires s1 == Becomes(p, 3, Listed(instance, {name})) && p.rows == map[] && CandidatesOf(p, instance) == {name}
    ensures Apply(h, ttl, SweepRows(3, 0.0), s1) == Some(s2)
    ensures s2 == Becomes(p.(candidates := p.candidates[instance := {name}]), 3, Removing({name}))
  {
    assert KeptRows(ttl, s1.rows, 0.0) == map[] && Known(map[]) == {};
    assert {name} - {} == {name} && {name} * {name} == {name};
    s2 := Apply(h, ttl, SweepRows(3, 0.0), s1).value;
    assert s2.tasks == p.tasks[3 := Removing({name})];
  }

  /** A put crashed after publishing, a sweep, and a second put of the same payload up to its publication. */
  lemma {:induction false} CandidatePublished(h: Hash, ttl: real, put: Put, at: real, instance: Instance)
    returns (p: State)
    ensures Reaches(h, ttl, Fresh, p) && p.files.Keys == {h.sha(put.data)} && p.rows == map[]
    ensures 2 in p.tasks && p.tasks[2] == Published(put, at) && 3 !in p.tasks
    ensures CandidatesOf(p, instance) == {h.sha(put.data)}
  {
    Starts(h, ttl, Fresh);
    p := Takes(h, ttl, Fresh, Fresh, BeginPut(0, put, at));
    p := Takes(h, ttl, Fresh, p, Publish(0));
    p := Takes(h, ttl, Fresh, p, Crash(0));
    p := SweepSeesOrphan(h, ttl, p, 1, instance, h.sha(put.data));
    p := Takes(h, ttl, Fresh, p, BeginPut(2, put, at));
    p := Takes(h, ttl, Fresh, p, Publish(2));
  }

  /**
   Rows from before payload naming share the name space of payloads: storing the text of such a key under
   any other key makes the older row answer with that text instead of what it was stored with.
   */
  lemma {:induction false} OlderRowAnswersWithItsKey(h: Hash, ttl: real, key: Key, other: Key, data: Bytes)
    returns (first: State, s: State)
    requires Injective(h) && key != other && data != h.encode(key) && ttl >= 0.0
    ensures GoodStart(h, first) && first.files == map[RowKey(h, key) := data]
    ensures first.rows == map[RowKey(h, key) := Row(None, 0.0, true, None)]
    ensures Reaches(h, ttl, first, s) && 1 in s.tasks
    ensures s.tasks[1] == Answered(key, Some(Row(None, 0.0, true, None)), 0.0, Some(h.encode(key)))
  {
    var d := RowKey(h, key);
    first := State(map[d := data], map[d := Row(None, 0.0, true, None)], map[], map[], {d});
    Starts(h, ttl, first);
    s := Takes(h, ttl, first, first, BeginPut(0, Put(other, h.encode(key)), 0.0));
    s := Takes(h, ttl, first, s, Publish(0));
    s := Takes(h, ttl, first, s, BeginGet(1, key, 0.0));
    s := Takes(h, ttl, first, s, ReadFile(1));
  }
}
