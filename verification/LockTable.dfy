/**
 The reference-counted table of per-key locks shared by every thread of a process. Threads enter,
 wait, nest and leave in any interleaving; other processes take and drop the advisory file locks.
 */
module LockTable {
  import opened Wrappers

  type Thread(==, !new)
  type Name(==, !new)
  type File(==, !new)

  /** A lock scope: how the store spells it, and for local storage the lock file it resolves to. */
  datatype Scope = Scope(local: bool, name: Name, file: File)

  /** A re-entrant lock object; the serial number tells a recreated lock from its predecessor. */
  datatype LockObject = LockObject(scope: Scope, serial: nat)

  datatype Owner = Owner(thread: Thread, depth: nat)

  datatype Holder = Ours(thread: Thread, scope: Scope) | Foreign

  datatype Stage =
    | Registered  // counted, waiting for the lock object
    | Acquired    // owns the lock object, waiting for the lock file
    | Inside
    | Unwinding   // the lock file is released
    | Leaving     // the lock object is released, still counted

  /** One use of `_key_lock_held` that has begun and not ended. */
  datatype Entry = Entry(thread: Thread, scope: Scope, lock: LockObject, stage: Stage, locked: bool, saved: set<Scope>)

  datatype State = State(
    locks: map<Scope, LockObject>,
    users: map<Scope, nat>,
    created: nat,
    owners: map<LockObject, Owner>,
    files: map<File, Holder>,
    held: map<Thread, set<Scope>>,
    entries: seq<Entry>)

  datatype Step =
    | Enter(thread: Thread, scope: Scope)
    | TakeLock(i: nat)
    | GiveUp(i: nat)
    | TakeFile(i: nat)
    | FailFile(i: nat)
    | DropFile(i: nat)
    | DropLock(i: nat)
    | Leave(i: nat)
    | ForeignTake(file: File)
    | ForeignDrop(file: File)

  const Empty := State(map[], map[], 0, map[], map[], map[], [])

  // ---------------------------------------------------------------- reading the state

  /** The innermost use of its thread. */
  ghost predicate Innermost(entries: seq<Entry>, i: nat) {
    i < |entries| && forall j | i < j < |entries| :: entries[j].thread != entries[i].thread
  }

  /** A thread may begin a use when all its others are inside. */
  ghost predicate Free(entries: seq<Entry>, t: Thread) {
    forall j | 0 <= j < |entries| && entries[j].thread == t :: entries[j].stage.Inside?
  }

  predicate Holds(e: Entry) {
    e.stage.Acquired? || e.stage.Inside? || e.stage.Unwinding?
  }

  function Count(entries: seq<Entry>, scope: Scope, holding: bool): nat {
    if entries == [] then 0
    else
      var e := entries[|entries| - 1];
      Count(entries[..|entries| - 1], scope, holding) + if e.scope == scope && (holding ==> Holds(e)) then 1 else 0
  }

  function Depth(owners: map<LockObject, Owner>, lock: LockObject): nat {
    if lock in owners then owners[lock].depth else 0
  }

  function HeldBy(held: map<Thread, set<Scope>>, t: Thread): set<Scope> {
    if t in held then held[t] else {}
  }

  /** The scopes whose lock file the first `n` uses took on behalf of `t`. */
  function FilesTaken(entries: seq<Entry>, t: Thread, n: nat): set<Scope>
    requires n <= |entries|
  {
    if n == 0 then {}
    else FilesTaken(entries, t, n - 1)
         + if entries[n - 1].thread == t && entries[n - 1].locked then {entries[n - 1].scope} else {}
  }

  function Remove(entries: seq<Entry>, i: nat): seq<Entry>
    requires i < |entries|
  {
    entries[..i] + entries[i + 1..]
  }

  // ---------------------------------------------------------------- the steps

  /** The guarded section on entry: find or create the lock object, count one more user. */
  function Entered(s: State, t: Thread, scope: Scope): State {
    var lock := if scope in s.locks then s.locks[scope] else LockObject(scope, s.created);
    s.(locks := if scope in s.locks then s.locks else s.locks[scope := lock],
       created := if scope in s.locks then s.created else s.created + 1,
       users := s.users[scope := (if scope in s.users then s.users[scope] else 0) + 1],
       entries := s.entries + [Entry(t, scope, lock, Registered, false, {})])
  }

  /** The guarded section on exit: the last user removes the lock object. */
  function Left(s: State, i: nat): State
    requires i < |s.entries|
  {
    var scope := s.entries[i].scope;
    var outstanding: int := if scope in s.users then s.users[scope] else 0;
    var remaining: int := outstanding - 1;
    if remaining > 0 then s.(users := s.users[scope := remaining], entries := Remove(s.entries, i))
    else s.(users := s.users - {scope}, locks := s.locks - {scope}, entries := Remove(s.entries, i))
  }

  predicate NeedsFile(s: State, e: Entry) {
    e.scope.local && e.scope !in HeldBy(s.held, e.thread)
  }

  function FileTaken(s: State, i: nat): State
    requires i < |s.entries|
  {
    var e := s.entries[i];
    var saved := HeldBy(s.held, e.thread);
    if NeedsFile(s, e) then
      s.(files := s.files[e.scope.file := Ours(e.thread, e.scope)], held := s.held[e.thread := saved + {e.scope}],
         entries := s.entries[i := e.(stage := Inside, locked := true, saved := saved)])
    else s.(entries := s.entries[i := e.(stage := Inside, locked := false, saved := saved)])
  }

  function FileDropped(s: State, i: nat): State
    requires i < |s.entries|
  {
    var e := s.entries[i];
    if e.locked then
      s.(files := s.files - {e.scope.file}, held := s.held[e.thread := e.saved],
         entries := s.entries[i := e.(stage := Unwinding, locked := false)])
    else s.(entries := s.entries[i := e.(stage := Unwinding)])
  }

  function LockTaken(s: State, i: nat): State
    requires i < |s.entries|
  {
    var e := s.entries[i];
    s.(owners := s.owners[e.lock := Owner(e.thread, Depth(s.owners, e.lock) + 1)],
       entries := s.entries[i := e.(stage := Acquired)])
  }

  function LockDropped(s: State, i: nat): State
    requires i < |s.entries|
  {
    var e := s.entries[i];
    var depth := Depth(s.owners, e.lock) - 1;
    s.(owners := if depth > 0 then s.owners[e.lock := Owner(e.thread, depth)] else s.owners - {e.lock},
       entries := s.entries[i := e.(stage := Leaving)])
  }

  /** The innermost use of some thread stands at `stage`. */
  ghost predicate At(s: State, i: nat, stage: Stage) {
    Innermost(s.entries, i) && s.entries[i].stage == stage
  }

  ghost predicate LockFree(s: State, i: nat)
    requires i < |s.entries|
  {
    var e := s.entries[i];
    e.lock in s.owners ==> s.owners[e.lock].thread == e.thread
  }

  ghost predicate FileFree(s: State, i: nat)
    requires i < |s.entries|
  {
    NeedsFile(s, s.entries[i]) ==> s.entries[i].scope.file !in s.files
  }

  ghost function Apply(step: Step, s: State): Option<State> {
    match step
    case Enter(t, scope) => if Free(s.entries, t) then Some(Entered(s, t, scope)) else None
    case TakeLock(i) => if At(s, i, Registered) && LockFree(s, i) then Some(LockTaken(s, i)) else None
    case GiveUp(i) =>
      if At(s, i, Registered) then Some(s.(entries := s.entries[i := s.entries[i].(stage := Leaving)])) else None
    case TakeFile(i) => if At(s, i, Acquired) && FileFree(s, i) then Some(FileTaken(s, i)) else None
    case FailFile(i) =>
      if At(s, i, Acquired) then Some(s.(entries := s.entries[i := s.entries[i].(stage := Unwinding)])) else None
    case DropFile(i) => if At(s, i, Inside) then Some(FileDropped(s, i)) else None
    case DropLock(i) => if At(s, i, Unwinding) then Some(LockDropped(s, i)) else None
    case Leave(i) => if At(s, i, Leaving) then Some(Left(s, i)) else None
    case ForeignTake(file) => if file !in s.files then Some(s.(files := s.files[file := Foreign])) else None
    case ForeignDrop(file) =>
      if file in s.files && s.files[file].Foreign? then Some(s.(files := s.files - {file})) else None
  }

  ghost function Run(steps: seq<Step>, s: State): Option<State> {
    if steps == [] then Some(s) else
    match Run(steps[..|steps| - 1], s)
    case None => None
    case Some(t) => Apply(steps[|steps| - 1], t)
  }

  // ---------------------------------------------------------------- the invariant

  /** Both tables have the same keys, each count is the outstanding uses, all uses share one lock. */
  ghost predicate Counted(s: State) {
    && s.locks.Keys == s.users.Keys
    && (forall scope :: Count(s.entries, scope, false) == if scope in s.users then s.users[scope] else 0)
    && (forall scope | scope in s.users :: s.users[scope] > 0)
    && (forall scope | scope in s.locks :: s.locks[scope].scope == scope)
    && (forall i | 0 <= i < |s.entries| :: Shared(s.locks, s.entries[i]))
  }

  predicate Shared(locks: map<Scope, LockObject>, e: Entry) {
    e.scope in locks && locks[e.scope] == e.lock
  }

  /** A lock object's depth is the number of uses that hold it, all of them by its owner. */
  ghost predicate Owned(s: State) {
    && (forall scope | scope in s.locks :: Count(s.entries, scope, true) == Depth(s.owners, s.locks[scope]))
    && (forall lock | lock in s.owners ::
          lock.scope in s.locks && s.locks[lock.scope] == lock && s.owners[lock].depth > 0)
    && (forall i | 0 <= i < |s.entries| :: Holds(s.entries[i]) ==> OwnedBy(s.owners, s.entries[i]))
  }

  predicate OwnedBy(owners: map<LockObject, Owner>, e: Entry) {
    e.lock in owners && owners[e.lock].thread == e.thread
  }

  /** A thread's earlier uses are all inside. */
  ghost predicate Nested(s: State) {
    forall i, j | 0 <= i < j < |s.entries| && s.entries[i].thread == s.entries[j].thread :: s.entries[i].stage.Inside?
  }

  /** Each lock file of ours belongs to exactly one use, which remembers what its thread held before. */
  ghost predicate Filed(s: State) {
    && (forall i | 0 <= i < |s.entries| :: FileOf(s.files, s.entries[i]))
    && Exclusive(s.entries)
    && HeldByUse(s.entries, s.files)
  }

  ghost predicate Exclusive(entries: seq<Entry>) {
    forall i, j | 0 <= i < j < |entries| && entries[i].locked && entries[j].locked ::
      entries[i].scope.file != entries[j].scope.file
  }

  ghost predicate HeldByUse(entries: seq<Entry>, files: map<File, Holder>) {
    forall f | f in files && files[f].Ours? ::
      exists i :: 0 <= i < |entries| && entries[i].locked && entries[i].scope.file == f
  }

  predicate FileOf(files: map<File, Holder>, e: Entry) {
    e.locked ==>
      e.stage.Inside? && e.scope.local && e.scope.file in files && files[e.scope.file] == Ours(e.thread, e.scope)
  }

  ghost predicate Remembered(s: State) {
    && (forall t :: HeldBy(s.held, t) == FilesTaken(s.entries, t, |s.entries|))
    && (forall i | 0 <= i < |s.entries| && s.entries[i].stage.Inside? :: Remembers(s.entries, i))
  }

  ghost predicate Remembers(entries: seq<Entry>, i: nat)
    requires i < |entries|
  {
    var e := entries[i];
    && e.saved == FilesTaken(entries, e.thread, i)
    && (e.scope.local ==> (e.locked <==> e.scope !in e.saved))
  }

  ghost predicate Inv(s: State) {
    Counted(s) && Owned(s) && Nested(s) && Filed(s) && Remembered(s)
  }
}
