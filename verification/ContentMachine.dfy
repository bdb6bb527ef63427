/**
 The content-addressed cache shared by any number of processes. Every file operation and every
 database transaction is one step; tasks interleave freely and may crash anywhere.
 */
module ContentMachine {
  import opened Wrappers

  type Key(==, !new)
  type Bytes(==, !new)
  type Digest(==, !new)
  type Instance(==, !new)

  /** SHA-256 and the bytes of a key's text. */
  datatype Hash = Hash(sha: Bytes -> Digest, encode: Key -> Bytes)

  ghost predicate Injective(h: Hash) {
    && (forall a, b :: h.sha(a) == h.sha(b) ==> a == b)
    && (forall a, b :: h.encode(a) == h.encode(b) ==> a == b)
  }

  datatype Put = Put(key: Key, data: Bytes)

  /** A metadata row; `origin` is the put that committed it, unknown for rows older than payload naming. */
  datatype Row = Row(origin: Option<Put>, fetchedAt: real, ready: bool, content: Option<Digest>)

  datatype Task =
    | Staged(put: Put, at: real)
    | Published(put: Put, at: real)
    | Selected(key: Key, row: Row, now: real)
    | Answered(key: Key, read: Option<Row>, now: real, result: Option<Bytes>)
    | Unlinked(name: Digest)
    | Doomed(name: Digest)
    | Listed(instance: Instance, names: set<Digest>)
    | Removing(names: set<Digest>)

  /** `legacy` holds the file names whose bytes are from before payload naming. */
  datatype State = State(
    files: map<Digest, Bytes>,
    rows: map<Digest, Row>,
    tasks: map<nat, Task>,
    candidates: map<Instance, set<Digest>>,
    legacy: set<Digest>)

  datatype Step =
    | BeginPut(id: nat, put: Put, at: real)
    | Publish(id: nat)
    | Commit(id: nat)
    | BeginGet(id: nat, key: Key, now: real)
    | ReadFile(id: nat)
    | BeginDelete(id: nat, key: Key)
    | CheckReferenced(id: nat)
    | RemoveFile(id: nat)
    | BeginSweep(id: nat, instance: Instance)
    | SweepRows(id: nat, now: real)
    | SweepFile(id: nat, name: Digest)
    | Crash(id: nat)

  const STALE_WRITING_SECONDS := 300.0

  function RowKey(h: Hash, key: Key): Digest {
    h.sha(h.encode(key))
  }

  /** The file a row of this key points at. */
  function ContentName(h: Hash, key: Key, row: Row): Digest {
    if row.content.Some? then row.content.value else RowKey(h, key)
  }

  predicate Live(ttl: real, row: Row, now: real) {
    row.ready && !(row.fetchedAt + ttl < now)
  }

  /** The rows a sweep deletes. */
  predicate Sweepable(ttl: real, row: Row, now: real) {
    if row.ready then row.fetchedAt + ttl < now else row.fetchedAt + STALE_WRITING_SECONDS < now
  }

  function KeptRows(ttl: real, rows: map<Digest, Row>, now: real): map<Digest, Row> {
    map k | k in rows && !Sweepable(ttl, rows[k], now) :: rows[k]
  }

  /** The file names some row vouches for. */
  function Known(rows: map<Digest, Row>): set<Digest> {
    set k | k in rows :: if rows[k].content.Some? then rows[k].content.value else k
  }

  predicate Referenced(rows: map<Digest, Row>, name: Digest) {
    exists k | k in rows :: rows[k].content == Some(name)
  }

  function CandidatesOf(s: State, i: Instance): set<Digest> {
    if i in s.candidates then s.candidates[i] else {}
  }

  function Done(s: State, id: nat): State {
    s.(tasks := s.tasks - {id})
  }

  function Becomes(s: State, id: nat, task: Task): State {
    s.(tasks := s.tasks[id := task])
  }

  function Selects(h: Hash, ttl: real, s: State, id: nat, key: Key, now: real): State {
    var k := RowKey(h, key);
    if k !in s.rows then Becomes(s, id, Answered(key, None, now, None))
    else if !Live(ttl, s.rows[k], now) then Becomes(s, id, Answered(key, Some(s.rows[k]), now, None))
    else Becomes(s, id, Selected(key, s.rows[k], now))
  }

  function Answers(h: Hash, s: State, id: nat, task: Task): State
    requires task.Selected?
  {
    var name := ContentName(h, task.key, task.row);
    Becomes(s, id, Answered(task.key, Some(task.row), task.now, if name in s.files then Some(s.files[name]) else None))
  }

  function Unlinks(h: Hash, s: State, id: nat, key: Key): State {
    var k := RowKey(h, key);
    var name := if k in s.rows then ContentName(h, key, s.rows[k]) else k;
    Becomes(s.(rows := s.rows - {k}), id, Unlinked(name))
  }

  function Sweeps(ttl: real, s: State, id: nat, task: Task, now: real): State
    requires task.Listed?
  {
    var rows := KeptRows(ttl, s.rows, now);
    var candidates := task.names - Known(rows);
    Becomes(s.(rows := rows, candidates := s.candidates[task.instance := candidates]), id,
            Removing(candidates * CandidatesOf(s, task.instance)))
  }

  function Apply(h: Hash, ttl: real, step: Step, s: State): Option<State> {
    match step
    case BeginPut(id, put, at) => if id !in s.tasks then Some(Becomes(s, id, Staged(put, at))) else None
    case BeginGet(id, key, now) => if id !in s.tasks then Some(Selects(h, ttl, s, id, key, now)) else None
    case BeginDelete(id, key) => if id !in s.tasks then Some(Unlinks(h, s, id, key)) else None
    case BeginSweep(id, instance) =>
      if id !in s.tasks then Some(Becomes(s, id, Listed(instance, s.files.Keys))) else None
    case _ => if step.id in s.tasks then Continue(h, ttl, step, s, s.tasks[step.id]) else None
  }

  function Continue(h: Hash, ttl: real, step: Step, s: State, task: Task): Option<State> {
    var id := step.id;
    match (step, task)
    case (Publish(_), Staged(put, at)) =>
      var name := h.sha(put.data);
      Some(Becomes(s.(files := s.files[name := put.data], legacy := s.legacy - {name}), id, Published(put, at)))
    case (Commit(_), Published(put, at)) =>
      Some(Done(s.(rows := s.rows[RowKey(h, put.key) := Row(Some(put), at, true, Some(h.sha(put.data)))]), id))
    case (ReadFile(_), Selected(_, _, _)) => Some(Answers(h, s, id, task))
    case (CheckReferenced(_), Unlinked(name)) =>
      Some(if Referenced(s.rows, name) then Done(s, id) else Becomes(s, id, Doomed(name)))
    case (RemoveFile(_), Doomed(name)) => Some(Done(s.(files := s.files - {name}), id))
    case (SweepRows(_, now), Listed(_, _)) => Some(Sweeps(ttl, s, id, task, now))
    case (SweepFile(_, name), Removing(names)) =>
      if name in names then Some(Becomes(s.(files := s.files - {name}), id, Removing(names - {name}))) else None
    case (Crash(_), _) => Some(Done(s, id))
    case _ => None
  }

  function Run(h: Hash, ttl: real, steps: seq<Step>, s: State): Option<State> {
    if steps == [] then Some(s) else
    match Run(h, ttl, steps[..|steps| - 1], s)
    case None => None
    case Some(t) => Apply(h, ttl, steps[|steps| - 1], t)
  }

  /** A directory as a process may find it: older rows without a payload name, and newer ones. */
  ghost predicate GoodStart(h: Hash, s: State) {
    && s.tasks == map[] && s.candidates == map[]
    && (forall d | d in s.files :: d in s.legacy <==> h.sha(s.files[d]) != d)
    && (forall d | d in s.legacy :: d in s.files)
    && (forall k | k in s.rows :: GoodRow(h, s.legacy, k, s.rows[k]))
  }

  /** A row that names its content names the payload its own put wrote. */
  predicate GoodRow(h: Hash, legacy: set<Digest>, k: Digest, row: Row) {
    row.content.Some? ==>
      && row.origin.Some? && row.content.value == h.sha(row.origin.value.data) && RowKey(h, row.origin.value.key) == k
      && row.content.value !in legacy
  }
}
