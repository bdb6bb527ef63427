/**
 Compare-and-swap on the raw bytes of one state file. Reading, comparing and publishing are separate
 steps of any number of writers; only the key lock ties a writer's comparison to its publication.
 */
module VersionChain {
  import opened Wrappers

  type Writer(==, !new)
  type Digest(==, !new)
  type Bytes = seq<bv8>

  ghost predicate Injective(sha: Bytes -> Digest) {
    forall a, b :: sha(a) == sha(b) ==> a == b
  }

  /** A version a writer learned, by reading or by committing, and how many commits had been made then. */
  datatype Learned = Learned(version: Option<Bytes>, since: nat)

  /**
   One conditional write: the version it expects, what it writes over it, and, when the version expected
   is the one its writer last learned, how many commits had been made at that time.
   */
  datatype Put = Put(expected: Option<Bytes>, since: Option<nat>, payload: Bytes)

  datatype Phase = Idle | Comparing(put: Put) | Publishing(put: Put)

  datatype Local = Local(known: Option<Learned>, phase: Phase)

  datatype Commit = Commit(writer: Writer, put: Put, replaced: Option<Bytes>)

  datatype State = State(file: Option<Bytes>, holder: Option<Writer>, writers: map<Writer, Local>, log: seq<Commit>)

  datatype Step =
    | Read(writer: Writer)                     // `get_with_version`
    | Begin(writer: Writer, expected: Option<Bytes>, payload: Bytes)    // enter the key lock, expecting any version
    | Compare(writer: Writer)
    | Publish(writer: Writer)
    | Abandon(writer: Writer)                  // an error or a crash

  const Unread := Local(None, Idle)

  function LocalOf(s: State, w: Writer): Local {
    if w in s.writers then s.writers[w] else Unread
  }

  /** Since when the writer has known the version it expects, if it learned that version at all. */
  function Threaded(l: Local, expected: Option<Bytes>): Option<nat> {
    if l.known.Some? && l.known.value.version == expected then Some(l.known.value.since) else None
  }

  /** Absence compares as no bytes at all. */
  function Raw(version: Option<Bytes>): Bytes {
    if version.Some? then version.value else []
  }

  predicate Matches(sha: Bytes -> Digest, expected: Option<Bytes>, actual: Option<Bytes>) {
    sha(Raw(actual)) == sha(Raw(expected))
  }

  function Released(s: State, w: Writer): Option<Writer> {
    if s.holder == Some(w) then None else s.holder
  }

  /** `exclusive` says whether the key lock reaches every writer. */
  function Apply(exclusive: bool, sha: Bytes -> Digest, step: Step, s: State): Option<State> {
    var w := step.writer;
    var l := LocalOf(s, w);
    match step
    case Read(_) =>
      if l.phase.Idle?
      then Some(s.(writers := s.writers[w := Local(Some(Learned(s.file, |s.log|)), Idle)])) else None
    case Begin(_, expected, payload) =>
      if l.phase.Idle? && (exclusive ==> s.holder.None?)
      then
        var put := Put(expected, Threaded(l, expected), payload);
        Some(s.(holder := Some(w), writers := s.writers[w := l.(phase := Comparing(put))]))
      else None
    case Compare(_) =>
      if !l.phase.Comparing? then None
      else if Matches(sha, l.phase.put.expected, s.file)
      then Some(s.(writers := s.writers[w := l.(phase := Publishing(l.phase.put))]))
      else Some(s.(holder := Released(s, w), writers := s.writers[w := l.(phase := Idle)]))
    case Publish(_) =>
      if !l.phase.Publishing? then None
      else
        var after := Some(l.phase.put.payload);
        Some(State(after, Released(s, w), s.writers[w := Local(Some(Learned(after, |s.log| + 1)), Idle)],
                   s.log + [Commit(w, l.phase.put, s.file)]))
    case Abandon(_) =>
      if l.phase.Idle? then None
      else Some(s.(holder := Released(s, w), writers := s.writers[w := l.(phase := Idle)]))
  }

  function Run(exclusive: bool, sha: Bytes -> Digest, steps: seq<Step>, s: State): Option<State> {
    if steps == [] then Some(s) else
    match Run(exclusive, sha, steps[..|steps| - 1], s)
    case None => None
    case Some(t) => Apply(exclusive, sha, steps[|steps| - 1], t)
  }

  function Initial(file: Option<Bytes>): State {
    State(file, None, map[], [])
  }

  /** The file after the first `k` commits. */
  function FileAfter(first: Option<Bytes>, log: seq<Commit>, k: nat): Option<Bytes>
    requires k <= |log|
  {
    if k == 0 then first else Some(log[k - 1].put.payload)
  }

  // ---------------------------------------------------------------- the invariant

  /** Each commit replaced the previous one, and the bytes it replaced are those it expected. */
  ghost predicate Chained(first: Option<Bytes>, log: seq<Commit>) {
    forall k | 0 <= k < |log| :: Linked(first, log, k)
  }

  predicate Linked(first: Option<Bytes>, log: seq<Commit>, k: nat)
    requires k < |log|
  {
    var e := log[k];
    && e.replaced == FileAfter(first, log, k)
    && Dated(first, log, k, e.put)
    && Raw(e.put.expected) == Raw(e.replaced)
  }

  /** What a writer goes by is a version that was on disk, after no more than `k` commits. */
  predicate Dated(first: Option<Bytes>, log: seq<Commit>, k: nat, put: Put)
    requires k <= |log|
  {
    put.since.Some? ==> put.since.value <= k && put.expected == FileAfter(first, log, put.since.value)
  }

  predicate Knows(first: Option<Bytes>, log: seq<Commit>, l: Local) {
    && (l.known.Some? ==>
          l.known.value.since <= |log| && l.known.value.version == FileAfter(first, log, l.known.value.since))
    && (!l.phase.Idle? ==> Dated(first, log, |log|, l.phase.put))
  }

  /** Only the lock's holder is comparing or publishing, and what it compared still stands. */
  predicate Guarded(s: State, w: Writer)
    requires w in s.writers
  {
    var l := s.writers[w];
    && (!l.phase.Idle? ==> s.holder == Some(w))
    && (l.phase.Publishing? ==> Raw(l.phase.put.expected) == Raw(s.file))
  }

  ghost predicate Inv(first: Option<Bytes>, s: State) {
    && s.file == FileAfter(first, s.log, |s.log|)
    && Chained(first, s.log)
    && (forall w | w in s.writers :: Knows(first, s.log, s.writers[w]))
    && (forall w | w in s.writers :: Guarded(s, w))
  }

  lemma {:induction false} PublishKeepsInv(sha: Bytes -> Digest, first: Option<Bytes>, s: State, step: Step, t: State)
    requires Inv(first, s) && step.Publish? && Apply(true, sha, step, s) == Some(t)
    ensures Inv(first, t)
  {
    var w := step.writer;
    assert Guarded(s, w) && Knows(first, s.log, s.writers[w]);
    forall k | 0 <= k < |t.log| ensures Linked(first, t.log, k) {
      if k < |s.log| {
        assert Linked(first, s.log, k);
      }
    }
    forall v | v in t.writers ensures Knows(first, t.log, t.writers[v]) && Guarded(t, v) {
      if v != w {
        assert Knows(first, s.log, s.writers[v]) && Guarded(s, v);
      }
    }
  }

  lemma {:induction false} StepKeepsInv(sha: Bytes -> Digest, first: Option<Bytes>, s: State, step: Step, t: State)
    requires Injective(sha) && Inv(first, s) && Apply(true, sha, step, s) == Some(t)
    ensures Inv(first, t)
  {
    var w := step.writer;
    if step.Publish? {
      PublishKeepsInv(sha, first, s, step, t);
    } else {
      forall v | v in t.writers ensures Knows(first, t.log, t.writers[v]) && Guarded(t, v) {
        if v in s.writers {
          assert Knows(first, s.log, s.writers[v]) && Guarded(s, v);
        }
      }
    }
  }

  lemma {:induction false} RunKeepsInv(sha: Bytes -> Digest, steps: seq<Step>, first: Option<Bytes>)
    requires Injective(sha) && Run(true, sha, steps, Initial(first)).Some?
    ensures Inv(first, Run(true, sha, steps, Initial(first)).value)
  {
    if steps != [] {
      RunKeepsInv(sha, steps[..|steps| - 1], first);
      StepKeepsInv(sha, first, Run(true, sha, steps[..|steps| - 1], Initial(first)).value, steps[|steps| - 1],
                   Run(true, sha, steps, Initial(first)).value);
    }
  }

  // ---------------------------------------------------------------- what follows

  /**
   In any interleaving of writers, whatever versions they expect, the commits form one chain, each
   replacing exactly the bytes it expected.
   */
  lemma {:induction false} CommitsFormAChain(sha: Bytes -> Digest, steps: seq<Step>, first: Option<Bytes>, s: State,
                                             k: nat)
    requires Injective(sha) && Run(true, sha, steps, Initial(first)) == Some(s) && k < |s.log|
    ensures s.log[k].replaced == (if k == 0 then first else Some(s.log[k - 1].put.payload))
    ensures Raw(s.log[k].put.expected) == Raw(s.log[k].replaced)
    ensures s.file == Some(s.log[|s.log| - 1].put.payload)
  {
    RunKeepsInv(sha, steps, first);
    assert Linked(first, s.log, k);
  }

  /** Two commits expected the same bytes only if those very bytes were published again in between. */
  lemma {:induction false} SameVersionWinsOnce(sha: Bytes -> Digest, steps: seq<Step>, first: Option<Bytes>, s: State,
                                               k: nat, j: nat)
    requires Injective(sha) && Run(true, sha, steps, Initial(first)) == Some(s) && k < j < |s.log|
    ensures Raw(s.log[k].put.expected) == Raw(s.log[j].put.expected)
        <==> s.log[j - 1].put.payload == Raw(s.log[k].put.expected)
    ensures s.log[j - 1].put.payload == Raw(s.log[j].put.expected)
  {
    RunKeepsInv(sha, steps, first);
    assert Linked(first, s.log, k) && Linked(first, s.log, j);
  }

  /**
   A writer that goes on from the version it last learned, by reading or by committing, commits only
   if nothing was committed since, or the last commit since left the same bytes behind.
   */
  lemma {:induction false} ForeignCommitsAreDetected(sha: Bytes -> Digest, steps: seq<Step>, first: Option<Bytes>,
                                                     s: State, j: nat)
    requires Injective(sha) && Run(true, sha, steps, Initial(first)) == Some(s) && j < |s.log|
    requires s.log[j].put.since.Some?
    ensures s.log[j].put.since.value <= j
    ensures s.log[j].put.since.value == j
            || s.log[j - 1].put.payload == Raw(FileAfter(first, s.log, s.log[j].put.since.value))
  {
    RunKeepsInv(sha, steps, first);
    assert Linked(first, s.log, j);
  }

  /** Under the lock, a comparison fails exactly when the bytes on disk are not those expected. */
  lemma {:induction false} ConflictIff(sha: Bytes -> Digest, steps: seq<Step>, first: Option<Bytes>, s: State,
                                       w: Writer)
    requires Injective(sha) && Run(true, sha, steps, Initial(first)) == Some(s) && LocalOf(s, w).phase.Comparing?
    ensures Apply(true, sha, Compare(w), s).Some?
    ensures var t, expected := Apply(true, sha, Compare(w), s).value, LocalOf(s, w).phase.put.expected;
      && t.file == s.file && t.log == s.log
      && (LocalOf(t, w).phase.Publishing? <==>
            expected == s.file || (expected == None && s.file == Some([])) || (expected == Some([]) && s.file == None))
  {
    RunKeepsInv(sha, steps, first);
  }

  // ---------------------------------------------------------------- without the lock

  /** The log only grows, and the file is what its last commit left. */
  lemma {:induction false} FileFollowsLog(exclusive: bool, sha: Bytes -> Digest, steps: seq<Step>, s: State, t: State)
    requires Run(exclusive, sha, steps, s) == Some(t)
    ensures |s.log| <= |t.log| && t.log[..|s.log|] == s.log
    ensures t.file == if |t.log| == |s.log| then s.file else Some(t.log[|t.log| - 1].put.payload)
  {
    if steps != [] {
      var before := Run(exclusive, sha, steps[..|steps| - 1], s).value;
      FileFollowsLog(exclusive, sha, steps[..|steps| - 1], s, before);
      assert |t.log| > |before.log| ==> t.log[..|before.log|] == before.log;
    }
  }

  /**
   Whether or not the lock reaches every writer: a commit replaces other bytes than those it expected exactly
   when some commit was made between its comparison and its publication and the last of them left others.
   */
  lemma {:induction false} UpdateIsLostIff(exclusive: bool, sha: Bytes -> Digest, s: State, w: Writer, compared: State,
                                           between: seq<Step>, u: State)
    requires Injective(sha) && Apply(exclusive, sha, Compare(w), s) == Some(compared)
    requires LocalOf(compared, w).phase.Publishing? && Run(exclusive, sha, between, compared) == Some(u)
    requires LocalOf(u, w).phase == LocalOf(compared, w).phase
    ensures var t := Apply(exclusive, sha, Publish(w), u);
      && t.Some? && |t.value.log| == |u.log| + 1 && t.value.log[..|u.log|] == u.log
      && var mine := t.value.log[|u.log|];
         && mine.writer == w && mine.replaced == u.file
         && (Raw(mine.replaced) != Raw(mine.put.expected) <==>
               |u.log| > |compared.log| && u.log[|u.log| - 1].put.payload != Raw(mine.put.expected))
  {
    FileFollowsLog(exclusive, sha, between, compared, u);
  }

  ghost predicate Reaches(sha: Bytes -> Digest, s: State, t: State) {
    exists steps ::
      Run(false, sha, steps, s) == Some(t)
  }

  lemma {:induction false} RunThenStep(sha: Bytes -> Digest, steps: seq<Step>, s: State, t: State, step: Step)
    requires Run(false, sha, steps, s) == Some(t)
    ensures Run(false, sha, steps + [step], s) == Apply(false, sha, step, t)
  {
    assert (steps + [step])[..|steps|] == steps;
  }

  lemma {:induction false} Takes(sha: Bytes -> Digest, s: State, t: State, step: Step) returns (u: State)
    requires Reaches(sha, s, t) && Apply(false, sha, step, t).Some?
    ensures Some(u) == Apply(false, sha, step, t) && Reaches(sha, s, u)
  {
    var steps :| Run(false, sha, steps, s) == Some(t);
    RunThenStep(sha, steps, s, t, step);
    u := Apply(false, sha, step, t).value;
  }

  lemma {:induction false} BothPassTheComparison(sha: Bytes -> Digest, a: Writer, b: Writer, x: Bytes, y: Bytes)
    returns (s: State)
    requires a != b
    ensures Reaches(sha, Initial(None), s) && s.file == None && s.log == []
    ensures LocalOf(s, a).phase == Publishing(Put(None, Some(0), x))
        && LocalOf(s, b).phase == Publishing(Put(None, Some(0), y))
  {
    var first := Initial(None);
    assert Run(false, sha, [], first) == Some(first);
    s := Takes(sha, first, first, Read(a));
    s := Takes(sha, first, s, Read(b));
    s := Takes(sha, first, s, Begin(a, None, x));
    s := Takes(sha, first, s, Begin(b, None, y));
    s := Takes(sha, first, s, Compare(a));
    s := Takes(sha, first, s, Compare(b));
  }

  /** Where the lock does not reach, two writers that read the same version can both commit. */
  lemma {:induction false} WithoutLockAnUpdateIsLost(sha: Bytes -> Digest, a: Writer, b: Writer, x: Bytes, y: Bytes)
    returns (s: State)
    requires a != b
    ensures Reaches(sha, Initial(None), s)
    ensures s.log == [Commit(a, Put(None, Some(0), x), None), Commit(b, Put(None, Some(0), y), Some(x))]
        && s.file == Some(y)
  {
    s := BothPassTheComparison(sha, a, b, x, y);
    s := Takes(sha, Initial(None), s, Publish(a));
    s := Takes(sha, Initial(None), s, Publish(b));
  }
}
