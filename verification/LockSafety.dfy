/** Every interleaving of uses keeps the lock table exact, and the locks exclude each other. */
module LockSafety {
  import opened Wrappers
  import opened LockTable

  // ---------------------------------------------------------------- counting uses

  function One(e: Entry, scope: Scope, holding: bool): nat {
    if e.scope == scope && (holding ==> Holds(e)) then 1 else 0
  }

  lemma {:induction false} CountAppend(entries: seq<Entry>, e: Entry, scope: Scope, holding: bool)
    ensures Count(entries + [e], scope, holding) == Count(entries, scope, holding) + One(e, scope, holding)
  {
    assert (entries + [e])[..|entries|] == entries;
  }

  lemma {:induction false} CountUpdate(entries: seq<Entry>, i: nat, e: Entry, scope: Scope, holding: bool)
    requires i < |entries|
    ensures Count(entries[i := e], scope, holding) + One(entries[i], scope, holding)
         == Count(entries, scope, holding) + One(e, scope, holding)
  {
    var n := |entries| - 1;
    if i == n {
      assert entries[i := e][..n] == entries[..n];
    } else {
      assert entries[i := e][..n] == entries[..n][i := e];
      CountUpdate(entries[..n], i, e, scope, holding);
    }
  }

  lemma {:induction false} CountRemove(entries: seq<Entry>, i: nat, scope: Scope, holding: bool)
    requires i < |entries|
    ensures Count(Remove(entries, i), scope, holding) + One(entries[i], scope, holding)
        == Count(entries, scope, holding)
  {
    var n := |entries| - 1;
    if i == n {
      assert Remove(entries, i) == entries[..n];
    } else {
      assert Remove(entries, i)[..n - 1] == Remove(entries[..n], i);
      CountRemove(entries[..n], i, scope, holding);
    }
  }

  lemma {:induction false} CountListed(entries: seq<Entry>, i: nat, scope: Scope, holding: bool)
    requires i < |entries|
    ensures Count(entries, scope, holding) >= One(entries[i], scope, holding)
  {
    CountRemove(entries, i, scope, holding);
  }

  lemma {:induction false} HoldersAreUsers(entries: seq<Entry>, scope: Scope)
    ensures Count(entries, scope, true) <= Count(entries, scope, false)
  {
    if entries != [] {
      HoldersAreUsers(entries[..|entries| - 1], scope);
    }
  }

  // ---------------------------------------------------------------- lock files taken

  lemma {:induction false} TakenAppend(entries: seq<Entry>, e: Entry, t: Thread, n: nat)
    requires n <= |entries|
    ensures FilesTaken(entries + [e], t, n) == FilesTaken(entries, t, n)
  {
    if n > 0 {
      TakenAppend(entries, e, t, n - 1);
    }
  }

  /** Changing a use affects only its own thread, and only beyond its position. */
  lemma {:induction false} TakenUpdate(entries: seq<Entry>, i: nat, e: Entry, t: Thread, n: nat)
    requires i < |entries| && n <= |entries| && e.thread == entries[i].thread && e.scope == entries[i].scope
    requires n <= i || e.thread != t || e.locked == entries[i].locked
    ensures FilesTaken(entries[i := e], t, n) == FilesTaken(entries, t, n)
  {
    if n > 0 {
      TakenUpdate(entries, i, e, t, n - 1);
    }
  }

  lemma {:induction false} TakenRemove(entries: seq<Entry>, i: nat, t: Thread, n: nat)
    requires i < n <= |entries| && !entries[i].locked
    ensures FilesTaken(Remove(entries, i), t, n - 1) == FilesTaken(entries, t, n)
  {
    if n == i + 1 {
      TakenPrefix(entries, Remove(entries, i), t, i);
    } else {
      TakenRemove(entries, i, t, n - 1);
    }
  }

  lemma {:induction false} TakenPrefix(a: seq<Entry>, b: seq<Entry>, t: Thread, n: nat)
    requires n <= |a| && n <= |b| && a[..n] == b[..n]
    ensures FilesTaken(a, t, n) == FilesTaken(b, t, n)
  {
    if n > 0 {
      assert a[..n - 1] == a[..n][..n - 1];
      assert b[..n - 1] == b[..n][..n - 1];
      assert a[n - 1] == a[..n][n - 1] == b[..n][n - 1];
      TakenPrefix(a, b, t, n - 1);
    }
  }

  /** Nothing more is taken by a thread after its innermost use. */
  lemma {:induction false} TakenByOthers(entries: seq<Entry>, t: Thread, from: nat, n: nat)
    requires from <= n <= |entries| && forall j | from <= j < n :: entries[j].thread != t || !entries[j].locked
    ensures FilesTaken(entries, t, n) == FilesTaken(entries, t, from)
  {
    if from < n {
      TakenByOthers(entries, t, from, n - 1);
    }
  }

  lemma {:induction false} TakenIsLocked(entries: seq<Entry>, t: Thread, n: nat, scope: Scope) returns (i: nat)
    requires n <= |entries| && scope in FilesTaken(entries, t, n)
    ensures i < n && entries[i].thread == t && entries[i].locked && entries[i].scope == scope
  {
    i := n - 1;
    if !(entries[i].thread == t && entries[i].locked && entries[i].scope == scope) {
      i := TakenIsLocked(entries, t, n - 1, scope);
    }
  }

  lemma {:induction false} LockedIsTaken(entries: seq<Entry>, i: nat, n: nat)
    requires i < n <= |entries| && entries[i].locked
    ensures entries[i].scope in FilesTaken(entries, entries[i].thread, n)
  {
    if i < n - 1 {
      LockedIsTaken(entries, i, n - 1);
    }
  }

  // ---------------------------------------------------------------- steps that move one use

  /** `t` differs from `s` in one use's stage and file flag, and not in the tables. */
  ghost predicate Moved(s: State, t: State, i: nat) {
    && i < |s.entries| == |t.entries| && t.entries == s.entries[i := t.entries[i]]
    && t.entries[i].thread == s.entries[i].thread && t.entries[i].scope == s.entries[i].scope
    && t.entries[i].lock == s.entries[i].lock
    && t.locks == s.locks && t.users == s.users
  }

  predicate Moves(step: Step) {
    step.TakeLock? || step.GiveUp? || step.TakeFile? || step.FailFile? || step.DropFile? || step.DropLock?
  }

  lemma {:induction false} MovesMove(s: State, step: Step, t: State)
    requires Moves(step) && Apply(step, s) == Some(t)
    ensures Innermost(s.entries, step.i) && Moved(s, t, step.i)
  {
  }

  // ---------------------------------------------------------------- the tables

  lemma {:induction false} RemoveKeepsShared(entries: seq<Entry>, i: nat, locks: map<Scope, LockObject>)
    requires i < |entries| && forall j | 0 <= j < |entries| :: Shared(locks, entries[j])
    ensures forall j | 0 <= j < |Remove(entries, i)| :: Shared(locks, Remove(entries, i)[j])
  {
    forall j | 0 <= j < |Remove(entries, i)| ensures Shared(locks, Remove(entries, i)[j]) {
      assert Remove(entries, i)[j] == entries[if j < i then j else j + 1];
    }
  }

  lemma {:induction false} RemoveKeepsOwners(entries: seq<Entry>, i: nat, owners: map<LockObject, Owner>)
    requires i < |entries| && forall j | 0 <= j < |entries| :: Holds(entries[j]) ==> OwnedBy(owners, entries[j])
    ensures forall j | 0 <= j < |Remove(entries, i)| :: Holds(Remove(entries, i)[j]) ==>
        OwnedBy(owners, Remove(entries, i)[j])
  {
    forall j | 0 <= j < |Remove(entries, i)| && Holds(Remove(entries, i)[j])
      ensures OwnedBy(owners, Remove(entries, i)[j])
    {
      assert Remove(entries, i)[j] == entries[if j < i then j else j + 1];
    }
  }

  lemma {:induction false} NoneCountedNoneListed(entries: seq<Entry>, scope: Scope)
    requires Count(entries, scope, false) == 0
    ensures Count(entries, scope, true) == 0 && forall j | 0 <= j < |entries| :: entries[j].scope != scope
  {
    HoldersAreUsers(entries, scope);
    forall j | 0 <= j < |entries| ensures entries[j].scope != scope {
      CountListed(entries, j, scope, false);
    }
  }

  lemma {:induction false} MoveKeepsCounted(s: State, t: State, i: nat)
    requires Counted(s) && Moved(s, t, i)
    ensures Counted(t)
  {
    forall scope ensures Count(t.entries, scope, false) == Count(s.entries, scope, false) {
      CountUpdate(s.entries, i, t.entries[i], scope, false);
    }
  }

  lemma {:induction false} EnterKeepsCounted(s: State, thread: Thread, scope: Scope)
    requires Counted(s)
    ensures Counted(Entered(s, thread, scope))
  {
    var t := Entered(s, thread, scope);
    var e := t.entries[|s.entries|];
    forall other ensures Count(t.entries, other, false) == Count(s.entries, other, false) + One(e, other, false) {
      CountAppend(s.entries, e, other, false);
    }
    forall i | 0 <= i < |t.entries| ensures Shared(t.locks, t.entries[i]) {
      if i < |s.entries| {
        assert Shared(s.locks, s.entries[i]);
      }
    }
  }

  lemma {:induction false} LeaveKeepsCounts(s: State, i: nat, scope: Scope)
    requires Counted(s) && i < |s.entries|
    ensures Count(Left(s, i).entries, scope, false) == if scope in Left(s, i).users then Left(s, i).users[scope] else 0
  {
    CountRemove(s.entries, i, scope, false);
  }

  lemma {:induction false} LeaveKeepsShared(s: State, i: nat)
    requires Counted(s) && i < |s.entries|
    ensures forall j | 0 <= j < |Left(s, i).entries| :: Shared(Left(s, i).locks, Left(s, i).entries[j])
  {
    var scope := s.entries[i].scope;
    RemoveKeepsShared(s.entries, i, s.locks);
    CountRemove(s.entries, i, scope, false);
    if Count(Remove(s.entries, i), scope, false) == 0 {
      NoneCountedNoneListed(Remove(s.entries, i), scope);
    }
  }

  lemma {:induction false} LeaveKeepsCounted(s: State, i: nat)
    requires Counted(s) && i < |s.entries|
    ensures Counted(Left(s, i))
  {
    assert Shared(s.locks, s.entries[i]);
    LeaveKeepsShared(s, i);
    forall scope
      ensures Count(Left(s, i).entries, scope, false) == if scope in Left(s, i).users then Left(s, i).users[scope]
          else 0
    {
      LeaveKeepsCounts(s, i, scope);
    }
  }

  // ---------------------------------------------------------------- the lock objects

  lemma {:induction false} TakeLockKeepsOwned(s: State, i: nat)
    requires Counted(s) && Owned(s) && At(s, i, Registered) && LockFree(s, i)
    ensures Owned(LockTaken(s, i))
  {
    var t := LockTaken(s, i);
    assert Shared(s.locks, s.entries[i]);
    forall scope
      ensures Count(t.entries, scope, true) == Count(s.entries, scope, true) + One(t.entries[i], scope, true)
    {
      CountUpdate(s.entries, i, t.entries[i], scope, true);
    }
    forall j | 0 <= j < |t.entries| && Holds(t.entries[j]) ensures OwnedBy(t.owners, t.entries[j]) {
      if j != i {
        assert OwnedBy(s.owners, s.entries[j]);
      }
    }
  }

  lemma {:induction false} DropLockKeepsOwned(s: State, i: nat)
    requires Counted(s) && Owned(s) && At(s, i, Unwinding)
    ensures Owned(LockDropped(s, i))
  {
    var t, e := LockDropped(s, i), s.entries[i];
    assert Shared(s.locks, e) && OwnedBy(s.owners, e);
    forall scope ensures Count(t.entries, scope, true) + One(e, scope, true) == Count(s.entries, scope, true) {
      CountUpdate(s.entries, i, t.entries[i], scope, true);
    }
    forall j | 0 <= j < |t.entries| && Holds(t.entries[j]) ensures OwnedBy(t.owners, t.entries[j]) {
      assert OwnedBy(s.owners, s.entries[j]) && Shared(s.locks, s.entries[j]);
      CountListed(t.entries, j, e.scope, true);
    }
  }

  /** Steps that leave the lock objects and who holds them alone. */
  lemma {:induction false} MoveKeepsOwned(s: State, t: State, i: nat)
    requires Owned(s) && Moved(s, t, i) && t.owners == s.owners && Holds(t.entries[i]) == Holds(s.entries[i])
    ensures Owned(t)
  {
    forall scope ensures Count(t.entries, scope, true) == Count(s.entries, scope, true) {
      CountUpdate(s.entries, i, t.entries[i], scope, true);
    }
    forall j | 0 <= j < |t.entries| && Holds(t.entries[j]) ensures OwnedBy(t.owners, t.entries[j]) {
      assert OwnedBy(s.owners, s.entries[j]);
    }
  }

  lemma {:induction false} EnterKeepsOwned(s: State, thread: Thread, scope: Scope)
    requires Counted(s) && Owned(s)
    ensures Owned(Entered(s, thread, scope))
  {
    var t := Entered(s, thread, scope);
    forall other ensures Count(t.entries, other, true) == Count(s.entries, other, true) {
      CountAppend(s.entries, t.entries[|s.entries|], other, true);
    }
    HoldersAreUsers(s.entries, scope);
    forall j | 0 <= j < |t.entries| && Holds(t.entries[j]) ensures OwnedBy(t.owners, t.entries[j]) {
      assert OwnedBy(s.owners, s.entries[j]);
    }
  }

  lemma {:induction false} LeaveKeepsDepth(s: State, i: nat, scope: Scope)
    requires Counted(s) && Owned(s) && At(s, i, Leaving) && scope in Left(s, i).locks
    ensures Count(Left(s, i).entries, scope, true) == Depth(s.owners, s.locks[scope])
  {
    CountRemove(s.entries, i, scope, true);
  }

  /** The last user of a scope leaves nobody owning its lock object. */
  lemma {:induction false} LastUserLeavesLockFree(s: State, i: nat)
    requires Counted(s) && Owned(s) && At(s, i, Leaving) && s.users[s.entries[i].scope] == 1
    ensures s.entries[i].lock !in s.owners
  {
    var e := s.entries[i];
    assert Shared(s.locks, e);
    CountRemove(s.entries, i, e.scope, false);
    CountRemove(s.entries, i, e.scope, true);
    HoldersAreUsers(Remove(s.entries, i), e.scope);
  }

  lemma {:induction false} LeaveKeepsOwned(s: State, i: nat)
    requires Counted(s) && Owned(s) && At(s, i, Leaving)
    ensures Owned(Left(s, i))
  {
    var t, e := Left(s, i), s.entries[i];
    assert Shared(s.locks, e);
    forall scope | scope in t.locks ensures Count(t.entries, scope, true) == Depth(s.owners, s.locks[scope]) {
      LeaveKeepsDepth(s, i, scope);
    }
    RemoveKeepsOwners(s.entries, i, s.owners);
    if s.users[e.scope] == 1 {
      LastUserLeavesLockFree(s, i);
    }
  }

  // ---------------------------------------------------------------- nesting

  lemma {:induction false} StepKeepsNested(s: State, step: Step, t: State)
    requires Nested(s) && Apply(step, s) == Some(t)
    ensures Nested(t)
  {
    if step.Leave? {
      forall j, k | 0 <= j < k < |t.entries| && t.entries[j].thread == t.entries[k].thread
        ensures t.entries[j].stage.Inside?
      {
        var j', k' := if j < step.i then j else j + 1, if k < step.i then k else k + 1;
        assert t.entries[j] == s.entries[j'] && t.entries[k] == s.entries[k'];
      }
    } else if Moves(step) {
      MovesMove(s, step, t);
    }
  }

  // ---------------------------------------------------------------- the lock files

  lemma {:induction false} TakeFileKeepsFiled(s: State, i: nat)
    requires Filed(s) && At(s, i, Acquired) && FileFree(s, i)
    ensures Filed(FileTaken(s, i))
  {
    var t := FileTaken(s, i);
    assert FileOf(s.files, s.entries[i]);
    forall j | 0 <= j < |t.entries| ensures FileOf(t.files, t.entries[j]) {
      assert FileOf(s.files, s.entries[j]);
    }
    forall f | f in t.files && t.files[f].Ours?
      ensures exists j :: 0 <= j < |t.entries| && t.entries[j].locked && t.entries[j].scope.file == f
    {
      if f in s.files && s.files[f].Ours? {
        var j :| 0 <= j < |s.entries| && s.entries[j].locked && s.entries[j].scope.file == f;
        assert t.entries[j].locked && t.entries[j].scope.file == f;
      } else {
        assert t.entries[i].locked && t.entries[i].scope.file == f;
      }
    }
  }

  lemma {:induction false} DropFileKeepsFiled(s: State, i: nat)
    requires Filed(s) && At(s, i, Inside)
    ensures Filed(FileDropped(s, i))
  {
    var t := FileDropped(s, i);
    assert FileOf(s.files, s.entries[i]);
    forall j | 0 <= j < |t.entries| ensures FileOf(t.files, t.entries[j]) {
      assert FileOf(s.files, s.entries[j]);
    }
    forall f | f in t.files && t.files[f].Ours?
      ensures exists j :: 0 <= j < |t.entries| && t.entries[j].locked && t.entries[j].scope.file == f
    {
      var j :| 0 <= j < |s.entries| && s.entries[j].locked && s.entries[j].scope.file == f;
      assert t.entries[j].locked && t.entries[j].scope.file == f;
    }
  }

  /** Steps that leave our lock files and their users alone. */
  lemma {:induction false} MoveKeepsFiled(s: State, t: State, i: nat)
    requires Filed(s) && Moved(s, t, i) && t.files == s.files && !s.entries[i].stage.Inside? && !t.entries[i].locked
    ensures Filed(t)
  {
    assert FileOf(s.files, s.entries[i]);
    forall j | 0 <= j < |t.entries| ensures FileOf(t.files, t.entries[j]) {
      assert FileOf(s.files, s.entries[j]);
    }
    forall f | f in t.files && t.files[f].Ours?
      ensures exists j :: 0 <= j < |t.entries| && t.entries[j].locked && t.entries[j].scope.file == f
    {
      var j :| 0 <= j < |s.entries| && s.entries[j].locked && s.entries[j].scope.file == f;
      assert t.entries[j].locked && t.entries[j].scope.file == f;
    }
  }

  lemma {:induction false} EnterKeepsFiled(s: State, thread: Thread, scope: Scope)
    requires Filed(s)
    ensures Filed(Entered(s, thread, scope))
  {
    var t := Entered(s, thread, scope);
    forall j | 0 <= j < |t.entries| ensures FileOf(t.files, t.entries[j]) {
      if j < |s.entries| {
        assert FileOf(s.files, s.entries[j]);
      }
    }
    forall f | f in t.files && t.files[f].Ours?
      ensures exists j :: 0 <= j < |t.entries| && t.entries[j].locked && t.entries[j].scope.file == f
    {
      var j :| 0 <= j < |s.entries| && s.entries[j].locked && s.entries[j].scope.file == f;
      assert t.entries[j].locked && t.entries[j].scope.file == f;
    }
  }

  lemma {:induction false} LeaveKeepsFiled(s: State, i: nat)
    requires Filed(s) && At(s, i, Leaving)
    ensures Filed(Left(s, i))
  {
    assert FileOf(s.files, s.entries[i]);
    RemoveKeepsFiles(s.entries, i, s.files);
    RemoveKeepsExclusive(s.entries, i);
    RemoveKeepsHolders(s.entries, i, s.files);
  }

  lemma {:induction false} RemoveKeepsFiles(entries: seq<Entry>, i: nat, files: map<File, Holder>)
    requires i < |entries| && forall j | 0 <= j < |entries| :: FileOf(files, entries[j])
    ensures forall j | 0 <= j < |Remove(entries, i)| :: FileOf(files, Remove(entries, i)[j])
  {
    forall j | 0 <= j < |Remove(entries, i)| ensures FileOf(files, Remove(entries, i)[j]) {
      assert Remove(entries, i)[j] == entries[if j < i then j else j + 1];
    }
  }

  lemma {:induction false} RemoveKeepsExclusive(entries: seq<Entry>, i: nat)
    requires i < |entries| && Exclusive(entries)
    ensures Exclusive(Remove(entries, i))
  {
    var rest := Remove(entries, i);
    forall j, k | 0 <= j < k < |rest| && rest[j].locked && rest[k].locked
      ensures rest[j].scope.file != rest[k].scope.file
    {
      var j', k' := if j < i then j else j + 1, if k < i then k else k + 1;
      assert rest[j] == entries[j'] && rest[k] == entries[k'];
    }
  }

  lemma {:induction false} RemoveKeepsHolders(entries: seq<Entry>, i: nat, files: map<File, Holder>)
    requires i < |entries| && !entries[i].locked && HeldByUse(entries, files)
    ensures HeldByUse(Remove(entries, i), files)
  {
    var rest := Remove(entries, i);
    forall f | f in files && files[f].Ours?
      ensures exists j :: 0 <= j < |rest| && rest[j].locked && rest[j].scope.file == f
    {
      var j :| 0 <= j < |entries| && entries[j].locked && entries[j].scope.file == f;
      assert rest[if j < i then j else j - 1] == entries[j];
    }
  }

  lemma {:induction false} ForeignKeepsFiled(s: State, step: Step, t: State)
    requires Filed(s) && (step.ForeignTake? || step.ForeignDrop?) && Apply(step, s) == Some(t)
    ensures Filed(t)
  {
    forall j | 0 <= j < |t.entries| ensures FileOf(t.files, t.entries[j]) {
      assert FileOf(s.files, s.entries[j]);
    }
  }

  // ---------------------------------------------------------------- what each use remembers

  lemma {:induction false} OthersRemember(entries: seq<Entry>, i: nat, e: Entry)
    requires Innermost(entries, i) && e.thread == entries[i].thread && e.scope == entries[i].scope
    requires forall j | 0 <= j < |entries| && entries[j].stage.Inside? :: Remembers(entries, j)
    ensures forall j | 0 <= j < |entries| && j != i && entries[j].stage.Inside? :: Remembers(entries[i := e], j)
  {
    forall j | 0 <= j < |entries| && j != i && entries[j].stage.Inside? ensures Remembers(entries[i := e], j) {
      assert Remembers(entries, j);
      TakenUpdate(entries, i, e, entries[j].thread, j);
    }
  }

  /** What the thread of its innermost use holds is what was taken before it, and what it took. */
  lemma {:induction false} TakenAtInnermost(entries: seq<Entry>, i: nat)
    requires Innermost(entries, i)
    ensures FilesTaken(entries, entries[i].thread, |entries|)
         == FilesTaken(entries, entries[i].thread, i) + if entries[i].locked then {entries[i].scope} else {}
  {
    TakenByOthers(entries, entries[i].thread, i + 1, |entries|);
  }

  lemma {:induction false} UpdateKeepsOthers(entries: seq<Entry>, i: nat, e: Entry)
    requires i < |entries| && e.thread == entries[i].thread && e.scope == entries[i].scope
    ensures forall t | t != e.thread :: FilesTaken(entries[i := e], t, |entries|) == FilesTaken(entries, t, |entries|)
  {
    forall t | t != e.thread ensures FilesTaken(entries[i := e], t, |entries|) == FilesTaken(entries, t, |entries|) {
      TakenUpdate(entries, i, e, t, |entries|);
    }
  }

  lemma {:induction false} TakenAfterUpdate(entries: seq<Entry>, i: nat, e: Entry)
    requires Innermost(entries, i) && e.thread == entries[i].thread && e.scope == entries[i].scope
    ensures FilesTaken(entries[i := e], e.thread, |entries|)
         == FilesTaken(entries, e.thread, i) + if e.locked then {e.scope} else {}
  {
    TakenUpdate(entries, i, e, e.thread, i);
    TakenAtInnermost(entries[i := e], i);
  }

  lemma {:induction false} TakeFileRemembers(s: State, i: nat)
    requires Remembered(s) && At(s, i, Acquired) && !s.entries[i].locked
    ensures Remembers(FileTaken(s, i).entries, i)
  {
    TakenAtInnermost(s.entries, i);
    TakenUpdate(s.entries, i, FileTaken(s, i).entries[i], s.entries[i].thread, i);
  }

  lemma {:induction false} TakeFileKeepsHeld(s: State, i: nat, u: Thread)
    requires Remembered(s) && At(s, i, Acquired) && !s.entries[i].locked
    ensures HeldBy(FileTaken(s, i).held, u) == FilesTaken(FileTaken(s, i).entries, u, |s.entries|)
  {
    var e := FileTaken(s, i).entries[i];
    if u == e.thread {
      TakenAtInnermost(s.entries, i);
      TakenAfterUpdate(s.entries, i, e);
    } else {
      TakenUpdate(s.entries, i, e, u, |s.entries|);
    }
  }

  lemma {:induction false} TakeFileKeepsRemembered(s: State, i: nat)
    requires Remembered(s) && At(s, i, Acquired) && !s.entries[i].locked
    ensures Remembered(FileTaken(s, i))
  {
    var t := FileTaken(s, i);
    OthersRemember(s.entries, i, t.entries[i]);
    TakeFileRemembers(s, i);
    forall u ensures HeldBy(t.held, u) == FilesTaken(t.entries, u, |t.entries|) {
      TakeFileKeepsHeld(s, i, u);
    }
  }

  lemma {:induction false} DropFileKeepsHeld(s: State, i: nat, u: Thread)
    requires Remembered(s) && At(s, i, Inside)
    ensures HeldBy(FileDropped(s, i).held, u) == FilesTaken(FileDropped(s, i).entries, u, |s.entries|)
  {
    var e := FileDropped(s, i).entries[i];
    assert Remembers(s.entries, i);
    if u == e.thread {
      TakenAtInnermost(s.entries, i);
      TakenAfterUpdate(s.entries, i, e);
    } else {
      TakenUpdate(s.entries, i, e, u, |s.entries|);
    }
  }

  lemma {:induction false} DropFileKeepsRemembered(s: State, i: nat)
    requires Remembered(s) && At(s, i, Inside)
    ensures Remembered(FileDropped(s, i))
  {
    var t := FileDropped(s, i);
    OthersRemember(s.entries, i, t.entries[i]);
    forall u ensures HeldBy(t.held, u) == FilesTaken(t.entries, u, |t.entries|) {
      DropFileKeepsHeld(s, i, u);
    }
  }

  /** Steps that neither enter nor leave the inside. */
  lemma {:induction false} MoveKeepsRemembered(s: State, t: State, i: nat)
    requires Remembered(s) && Moved(s, t, i) && Innermost(s.entries, i) && t.held == s.held
    requires !t.entries[i].stage.Inside? && t.entries[i].locked == s.entries[i].locked
    ensures Remembered(t)
  {
    OthersRemember(s.entries, i, t.entries[i]);
    UpdateKeepsOthers(s.entries, i, t.entries[i]);
    TakenUpdate(s.entries, i, t.entries[i], s.entries[i].thread, |s.entries|);
  }

  lemma {:induction false} EnterKeepsRemembered(s: State, thread: Thread, scope: Scope)
    requires Remembered(s)
    ensures Remembered(Entered(s, thread, scope))
  {
    var t := Entered(s, thread, scope);
    var n, e := |s.entries|, t.entries[|s.entries|];
    forall other ensures FilesTaken(t.entries, other, n + 1) == FilesTaken(s.entries, other, n) {
      TakenAppend(s.entries, e, other, n);
    }
    forall j | 0 <= j < |t.entries| && t.entries[j].stage.Inside? ensures Remembers(t.entries, j) {
      assert Remembers(s.entries, j);
      TakenAppend(s.entries, e, s.entries[j].thread, j);
    }
  }

  lemma {:induction false} LeaveKeepsRemembered(s: State, i: nat)
    requires Remembered(s) && At(s, i, Leaving) && !s.entries[i].locked
    ensures Remembered(Left(s, i))
  {
    var t := Left(s, i);
    forall other ensures FilesTaken(t.entries, other, |t.entries|) == FilesTaken(s.entries, other, |s.entries|) {
      TakenRemove(s.entries, i, other, |s.entries|);
    }
    RemoveKeepsMemory(s.entries, i);
  }

  lemma {:induction false} RemoveKeepsMemory(entries: seq<Entry>, i: nat)
    requires i < |entries| && !entries[i].locked
    requires forall j | 0 <= j < |entries| && entries[j].stage.Inside? :: Remembers(entries, j)
    ensures forall j | 0 <= j < |Remove(entries, i)| && Remove(entries, i)[j].stage.Inside? ::
              Remembers(Remove(entries, i), j)
  {
    var rest := Remove(entries, i);
    forall j | 0 <= j < |rest| && rest[j].stage.Inside? ensures Remembers(rest, j) {
      if j < i {
        assert Remembers(entries, j);
        TakenPrefix(entries, rest, rest[j].thread, j);
      } else {
        assert Remembers(entries, j + 1);
        TakenRemove(entries, i, rest[j].thread, j + 1);
      }
    }
  }

  // ---------------------------------------------------------------- every step, every run

  lemma {:induction false} MoveKeepsFiles(s: State, step: Step, t: State)
    requires Filed(s) && Remembered(s) && Moves(step) && Apply(step, s) == Some(t)
    ensures Filed(t) && Remembered(t)
  {
    var i := step.i;
    assert FileOf(s.files, s.entries[i]);
    if step.TakeFile? {
      TakeFileKeepsFiled(s, i);
      TakeFileKeepsRemembered(s, i);
    } else if step.DropFile? {
      DropFileKeepsFiled(s, i);
      DropFileKeepsRemembered(s, i);
    } else {
      MovesMove(s, step, t);
      MoveKeepsFiled(s, t, i);
      MoveKeepsRemembered(s, t, i);
    }
  }

  lemma {:induction false} OtherMovesKeepOwners(s: State, step: Step, t: State)
    requires Moves(step) && !step.TakeLock? && !step.DropLock? && Apply(step, s) == Some(t)
    ensures t.owners == s.owners && Holds(t.entries[step.i]) == Holds(s.entries[step.i])
  {
  }

  lemma {:induction false} MoveKeepsOwnership(s: State, step: Step, t: State)
    requires Counted(s) && Owned(s) && Moves(step) && Moved(s, t, step.i) && Apply(step, s) == Some(t)
    ensures Owned(t)
  {
    if step.TakeLock? {
      TakeLockKeepsOwned(s, step.i);
    } else if step.DropLock? {
      DropLockKeepsOwned(s, step.i);
    } else {
      OtherMovesKeepOwners(s, step, t);
      MoveKeepsOwned(s, t, step.i);
    }
  }

  lemma {:induction false} MoveKeepsLocks(s: State, step: Step, t: State)
    requires Counted(s) && Owned(s) && Moves(step) && Apply(step, s) == Some(t)
    ensures Counted(t) && Owned(t)
  {
    MovesMove(s, step, t);
    MoveKeepsCounted(s, t, step.i);
    MoveKeepsOwnership(s, step, t);
  }

  lemma {:induction false} StepKeepsInv(s: State, step: Step, t: State)
    requires Inv(s) && Apply(step, s) == Some(t)
    ensures Inv(t)
  {
    if Moves(step) {
      MoveKeepsLocks(s, step, t);
      MoveKeepsFiles(s, step, t);
      StepKeepsNested(s, step, t);
    } else if step.Enter? {
      EnterKeepsCounted(s, step.thread, step.scope);
      EnterKeepsOwned(s, step.thread, step.scope);
      EnterKeepsFiled(s, step.thread, step.scope);
      EnterKeepsRemembered(s, step.thread, step.scope);
      StepKeepsNested(s, step, t);
    } else if step.Leave? {
      assert FileOf(s.files, s.entries[step.i]);
      LeaveKeepsCounted(s, step.i);
      LeaveKeepsOwned(s, step.i);
      LeaveKeepsFiled(s, step.i);
      LeaveKeepsRemembered(s, step.i);
      StepKeepsNested(s, step, t);
    } else {
      ForeignKeepsFiled(s, step, t);
    }
  }

  /** Whatever the threads of this and other processes do, the tables stay exact. */
  lemma {:induction false} RunKeepsInv(steps: seq<Step>)
    requires Run(steps, Empty).Some?
    ensures Inv(Run(steps, Empty).value)
  {
    if steps != [] {
      RunKeepsInv(steps[..|steps| - 1]);
      StepKeepsInv(Run(steps[..|steps| - 1], Empty).value, steps[|steps| - 1], Run(steps, Empty).value);
    }
  }

  // ---------------------------------------------------------------- what follows

  /** At most one thread is inside a scope. */
  lemma {:induction false} OneThreadInside(steps: seq<Step>, s: State, i: nat, j: nat)
    requires Run(steps, Empty) == Some(s)
    requires i < |s.entries| && j < |s.entries| && s.entries[i].scope == s.entries[j].scope
    requires s.entries[i].stage.Inside? && s.entries[j].stage.Inside?
    ensures s.entries[i].thread == s.entries[j].thread
  {
    RunKeepsInv(steps);
    assert Shared(s.locks, s.entries[i]) && Shared(s.locks, s.entries[j]);
    assert OwnedBy(s.owners, s.entries[i]) && OwnedBy(s.owners, s.entries[j]);
  }

  /** The thread that is inside a local scope holds its lock file. */
  lemma {:induction false} InsideHoldsFile(s: State, i: nat)
    requires Inv(s) && i < |s.entries| && s.entries[i].stage.Inside? && s.entries[i].scope.local
    ensures s.entries[i].scope.file in s.files
    ensures s.files[s.entries[i].scope.file] == Ours(s.entries[i].thread, s.entries[i].scope)
  {
    assert Remembers(s.entries, i);
    var j := i;
    if !s.entries[i].locked {
      j := TakenIsLocked(s.entries, s.entries[i].thread, i, s.entries[i].scope);
    }
    assert FileOf(s.files, s.entries[j]);
  }

  /**
   For local storage at most one thread of all processes is inside a lock file, even when stores
   spell its location differently and so use different lock objects.
   */
  lemma {:induction false} OneThreadPerFile(steps: seq<Step>, s: State, i: nat, j: nat)
    requires Run(steps, Empty) == Some(s) && i < |s.entries| && j < |s.entries|
    requires s.entries[i].stage.Inside? && s.entries[i].scope.local
    requires s.entries[j].stage.Inside? && s.entries[j].scope.local
    requires s.entries[i].scope.file == s.entries[j].scope.file
    ensures s.entries[i].thread == s.entries[j].thread && s.entries[i].scope == s.entries[j].scope
    ensures s.entries[i].scope.file in s.files && s.files[s.entries[i].scope.file] != Foreign
  {
    RunKeepsInv(steps);
    InsideHoldsFile(s, i);
    InsideHoldsFile(s, j);
  }

  /** When nobody uses the locks nothing is left behind: no lock object, no count, no file of ours. */
  lemma {:induction false} NothingLeftBehind(steps: seq<Step>, s: State)
    requires Run(steps, Empty) == Some(s) && s.entries == []
    ensures s.locks == map[] && s.users == map[] && s.owners == map[]
    ensures forall f | f in s.files :: s.files[f].Foreign?
    ensures forall t :: HeldBy(s.held, t) == {}
  {
    RunKeepsInv(steps);
    forall scope ensures scope !in s.users {
      assert Count(s.entries, scope, false) == 0;
    }
    assert s.locks.Keys == {};
    assert s.users.Keys == {};
    assert forall lock :: lock !in s.owners;
  }

  /** Entering counts one user more and gives it the lock every other user of the scope has. */
  lemma {:induction false} EnteringShares(steps: seq<Step>, s: State, thread: Thread, scope: Scope, t: State)
    requires Run(steps, Empty) == Some(s) && t == Entered(s, thread, scope)
    ensures Count(t.entries, scope, false) == Count(s.entries, scope, false) + 1
    ensures scope in t.users && t.users[scope] == Count(t.entries, scope, false)
    ensures forall k | 0 <= k < |t.entries| && t.entries[k].scope == scope :: t.entries[k].lock == t.locks[scope]
    ensures scope !in s.locks ==> forall other | other in s.locks :: s.locks[other] != t.locks[scope]
  {
    RunKeepsInv(steps);
    EnterKeepsCounted(s, thread, scope);
    CountAppend(s.entries, t.entries[|s.entries|], scope, false);
    forall k | 0 <= k < |t.entries| && t.entries[k].scope == scope ensures t.entries[k].lock == t.locks[scope] {
      assert Shared(t.locks, t.entries[k]);
    }
  }

  /** The lock object a waiting thread was given is never replaced under it. */
  lemma {:induction false} WaitersKeepTheirLock(steps: seq<Step>, s: State, i: nat)
    requires Run(steps, Empty) == Some(s) && i < |s.entries|
    ensures s.entries[i].scope in s.locks && s.locks[s.entries[i].scope] == s.entries[i].lock
    ensures s.entries[i].scope in s.users && 1 <= s.users[s.entries[i].scope]
        == Count(s.entries, s.entries[i].scope, false)
  {
    RunKeepsInv(steps);
    assert Shared(s.locks, s.entries[i]);
  }

  /** A thread inside a scope enters that scope again without waiting for anyone. */
  lemma {:induction false} NestingNeverBlocks(steps: seq<Step>, s: State, i: nat, j: nat)
    requires Run(steps, Empty) == Some(s)
    requires j < i && Innermost(s.entries, i) && s.entries[j].thread == s.entries[i].thread
    requires s.entries[j].scope == s.entries[i].scope
    ensures s.entries[i].stage.Registered? ==> Apply(TakeLock(i), s).Some?
    ensures s.entries[i].stage.Acquired? ==> Apply(TakeFile(i), s).Some? && Apply(TakeFile(i), s).value.files == s.files
  {
    RunKeepsInv(steps);
    assert s.entries[j].stage.Inside?;
    assert Shared(s.locks, s.entries[i]) && Shared(s.locks, s.entries[j]);
    assert OwnedBy(s.owners, s.entries[j]) && Remembers(s.entries, j);
    if s.entries[i].scope.local {
      var k := j;
      if !s.entries[j].locked {
        k := TakenIsLocked(s.entries, s.entries[j].thread, j, s.entries[j].scope);
      }
      LockedIsTaken(s.entries, k, |s.entries|);
    }
  }

  lemma {:induction false} HeldScopeHasFile(s: State, t: Thread, scope: Scope)
    requires Inv(s) && scope in HeldBy(s.held, t)
    ensures scope.file in s.files && s.files[scope.file] == Ours(t, scope)
  {
    var k := TakenIsLocked(s.entries, t, |s.entries|, scope);
    assert FileOf(s.files, s.entries[k]);
  }

  /**
   Re-entry is recognised by the scope, not by the file: a thread inside one spelling of a location
   waits for itself exactly when it enters through another.
   */
  lemma {:induction false} OtherSpellingWaitsForItself(steps: seq<Step>, s: State, i: nat, j: nat)
    requires Run(steps, Empty) == Some(s) && j < i && Innermost(s.entries, i) && s.entries[i].stage.Acquired?
    requires s.entries[j].thread == s.entries[i].thread && s.entries[j].scope.local && s.entries[i].scope.local
    requires s.entries[j].scope.file == s.entries[i].scope.file
    ensures Apply(TakeFile(i), s).None? <==> s.entries[j].scope != s.entries[i].scope
  {
    RunKeepsInv(steps);
    assert s.entries[j].stage.Inside?;
    InsideHoldsFile(s, j);
    if s.entries[j].scope == s.entries[i].scope {
      NestingNeverBlocks(steps, s, i, j);
    } else if !NeedsFile(s, s.entries[i]) {
      HeldScopeHasFile(s, s.entries[i].thread, s.entries[i].scope);
    }
  }
}
