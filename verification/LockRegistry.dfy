/**
 The process-wide tables as mutable state: each method is one section that a thread runs without
 interruption, so whatever order threads call them in is a run of the machine in LockTable.
 */
module LockRegistry {
  import opened Wrappers
  import opened LockTable
  import opened LockSafety

  class Registry {
    // `_GLOBAL_LOCKS`, `_GLOBAL_LOCKS_USERS` and the thread-local `_HELD_FILE_LOCKS`.
    var locks: map<Scope, LockObject>
    var users: map<Scope, nat>
    var created: nat
    var held: map<Thread, set<Scope>>

    ghost var state: State
    ghost var trace: seq<Step>

    ghost predicate Valid()
      reads this
    {
      && state.locks == locks && state.users == users && state.created == created && state.held == held
      && Run(trace, Empty) == Some(state)
    }

    constructor ()
      ensures Valid() && state == Empty
    {
      locks, users, created, held := map[], map[], 0, map[];
      state, trace := Empty, [];
    }

    ghost method Take(step: Step)
      requires Run(trace, Empty) == Some(state) && Apply(step, state).Some?
      modifies `state, `trace
      ensures Some(state) == Apply(step, old(state)) && trace == old(trace) + [step]
      ensures Run(trace, Empty) == Some(state)
    {
      assert (trace + [step])[..|trace|] == trace;
      state := Apply(step, state).value;
      trace := trace + [step];
    }

    ghost method TakeEnter(thread: Thread, scope: Scope)
      requires Run(trace, Empty) == Some(state) && Free(state.entries, thread)
      modifies `state, `trace
      ensures state == Entered(old(state), thread, scope) && Run(trace, Empty) == Some(state)
    {
      Take(Enter(thread, scope));
    }

    method FindOrCreate(scope: Scope) returns (lock: LockObject)
      modifies `locks, `created
      ensures lock == if scope in old(locks) then old(locks)[scope] else LockObject(scope, old(created))
      ensures locks == if scope in old(locks) then old(locks) else old(locks)[scope := lock]
      ensures created == if scope in old(locks) then old(created) else old(created) + 1
    {
      if scope in locks {
        lock := locks[scope];
      } else {
        lock := LockObject(scope, created);
        locks := locks[scope := lock];
        created := created + 1;
      }
    }

    method CountUser(scope: Scope)
      modifies `users
      ensures users == old(users)[scope := (if scope in old(users) then old(users)[scope] else 0) + 1]
    {
      users := users[scope := (if scope in users then users[scope] else 0) + 1];
    }

    /** The guarded section before the wait: the lock every user of the scope shares, one user more. */
    method Register(thread: Thread, scope: Scope) returns (lock: LockObject)
      requires Valid() && Free(state.entries, thread)
      modifies this
      ensures Valid() && state == Entered(old(state), thread, scope)
      ensures scope in locks && lock == locks[scope]
    {
      lock := FindOrCreate(scope);
      CountUser(scope);
      ghost var entered := Entered(state, thread, scope);
      assert locks == entered.locks && users == entered.users && created == entered.created;
      TakeEnter(thread, scope);
    }

    /** The guarded section after release: the last user takes the scope out of both tables. */
    method Unregister(scope: Scope, ghost i: nat)
      requires Valid() && At(state, i, Leaving) && state.entries[i].scope == scope
      modifies this
      ensures Valid() && state == Left(old(state), i)
      ensures scope in locks <==> scope in users
      ensures scope in users <==> Count(state.entries, scope, false) > 0
      ensures scope in locks ==> locks[scope] == old(locks)[scope]
      ensures forall other | other != scope :: other in locks <==> other in old(locks)
    {
      var outstanding: int := if scope in users then users[scope] else 0;
      var remaining: int := outstanding - 1;
      if remaining > 0 {
        users := users[scope := remaining];
      } else {
        users := users - {scope};
        locks := locks - {scope};
      }
      Take(Leave(i));
      Reached();
      assert Count(state.entries, scope, false) == if scope in users then users[scope] else 0;
    }

    /** `_file_lock` up to its yield, once the file is free: what to restore, and whether it was taken. */
    method EnterFileLock(thread: Thread, scope: Scope, ghost i: nat) returns (saved: set<Scope>, locked: bool)
      requires Valid() && At(state, i, Acquired) && FileFree(state, i)
      requires state.entries[i].thread == thread && state.entries[i].scope == scope
      modifies this
      ensures Valid() && state == FileTaken(old(state), i)
      ensures state.entries[i].saved == saved && state.entries[i].locked == locked
      ensures locked ==> scope.local && scope !in saved && scope.file !in old(state).files
      ensures scope.local ==> scope in HeldBy(held, thread)
    {
      saved := if thread in held then held[thread] else {};
      locked := scope.local && scope !in saved;
      if locked {
        held := held[thread := saved + {scope}];
      }
      Take(TakeFile(i));
    }

    /** `_file_lock` after its yield: restore what the thread held before and let the file go. */
    method ExitFileLock(thread: Thread, saved: set<Scope>, locked: bool, ghost i: nat)
      requires Valid() && At(state, i, Inside) && state.entries[i].thread == thread
      requires state.entries[i].saved == saved && state.entries[i].locked == locked
      modifies this
      ensures Valid() && state == FileDropped(old(state), i)
      ensures HeldBy(held, thread) == FilesTaken(state.entries, thread, |state.entries|)
      ensures locked ==> old(state).entries[i].scope.file !in state.files
    {
      if locked {
        held := held[thread := saved];
      }
      Take(DropFile(i));
      RunKeepsInv(trace);
    }

    lemma Reached()
      requires Valid()
      ensures Counted(state)
    {
      RunKeepsInv(trace);
    }
  }
}
