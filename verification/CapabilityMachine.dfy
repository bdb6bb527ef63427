/**
 The single-flight capability cache. Every critical section is one step; between steps any caller,
 leader, follower or invalidation may come next.
 */
module CapabilityMachine {
  import opened Wrappers

  type Operation(==, !new)
  type Scope(==, !new)
  type Profile(==, !new)

  /** A cache key: the client's namespace, origin and credential scope, and the operation. */
  datatype Key = Key(scope: Scope, operation: Operation)

  datatype FlightError = Invalidated | ProbeFailed

  datatype Origin = Probed(flight: nat) | Recorded

  /** `since` counts the invalidations made before the entry was stored. */
  datatype Entry = Entry(key: Key, profile: Profile, timestamp: real, origin: Origin, since: nat)

  datatype Target = Everything | Only(operation: Operation)

  datatype Kind = Sync | Async

  /** A flight: `born` counts the invalidations before it was registered, `led` whether its leader still runs. */
  datatype Flight = Flight(
    kind: Kind, key: Key, eventSet: bool, profile: Option<Profile>, error: Option<FlightError>, cancelled: bool,
    born: nat, led: bool)

  /** `entries` keeps the insertion order of the dictionary; a flight is its index in `flights`. */
  datatype State = State(
    entries: seq<Entry>,
    flights: seq<Flight>,
    syncTable: map<Key, nat>,
    asyncTable: map<Key, nat>,
    invalidations: seq<Target>)

  datatype Step =
    | Lookup(key: Key, now: real)
    | Register(kind: Kind, key: Key)
    | Complete(flight: nat, profile: Profile, at: real)
    | Fail(flight: nat)
    | Invalidate(target: Target)
    | Record(key: Key, profile: Profile, now: real)

  const MAX_ENTRIES: nat := 1024

  const Empty := State([], [], map[], map[], [])

  // ---------------------------------------------------------------- entries

  predicate Covers(target: Target, key: Key) {
    target.Everything? || target.operation == key.operation
  }

  function WithoutKey(entries: seq<Entry>, key: Key): seq<Entry> {
    if entries == [] then []
    else if entries[|entries| - 1].key == key then WithoutKey(entries[..|entries| - 1], key)
    else WithoutKey(entries[..|entries| - 1], key) + [entries[|entries| - 1]]
  }

  function Uncovered(entries: seq<Entry>, target: Target): seq<Entry> {
    if entries == [] then []
    else if Covers(target, entries[|entries| - 1].key) then Uncovered(entries[..|entries| - 1], target)
    else Uncovered(entries[..|entries| - 1], target) + [entries[|entries| - 1]]
  }

  function Young(entries: seq<Entry>, now: real, ttl: real): seq<Entry> {
    if entries == [] then []
    else if now - entries[|entries| - 1].timestamp <= 2.0 * ttl
    then Young(entries[..|entries| - 1], now, ttl) + [entries[|entries| - 1]]
    else Young(entries[..|entries| - 1], now, ttl)
  }

  function Find(entries: seq<Entry>, key: Key): Option<Entry> {
    if entries == [] then None
    else if entries[|entries| - 1].key == key then Some(entries[|entries| - 1])
    else Find(entries[..|entries| - 1], key)
  }

  /** Make room among the others: first whatever is long expired, then the oldest insertion. */
  function Room(others: seq<Entry>, now: real, ttl: real): seq<Entry> {
    if |others| < MAX_ENTRIES then others
    else
      var young := Young(others, now, ttl);
      if |young| < MAX_ENTRIES then young else young[1..]
  }

  function Stored(entries: seq<Entry>, e: Entry, ttl: real): seq<Entry> {
    Room(WithoutKey(entries, e.key), e.timestamp, ttl) + [e]
  }

  predicate Fresh(e: Entry, now: real, ttl: real) {
    now - e.timestamp < ttl
  }

  /** `_fresh_entry`: an expired entry is dropped. */
  function LookedUp(entries: seq<Entry>, key: Key, now: real, ttl: real): (seq<Entry>, Option<Entry>) {
    match Find(entries, key)
    case None => (entries, None)
    case Some(e) => if Fresh(e, now, ttl) then (entries, Some(e)) else (WithoutKey(entries, key), None)
  }

  // ---------------------------------------------------------------- flights

  function TableOf(s: State, kind: Kind): map<Key, nat> {
    if kind.Sync? then s.syncTable else s.asyncTable
  }

  predicate IsRegistered(s: State, i: nat) {
    i < |s.flights| && s.flights[i].key in TableOf(s, s.flights[i].kind)
    && TableOf(s, s.flights[i].kind)[s.flights[i].key] == i
  }

  function Discarded(s: State, i: nat): State
    requires i < |s.flights|
  {
    var key := s.flights[i].key;
    if !IsRegistered(s, i) then s
    else if s.flights[i].kind.Sync? then s.(syncTable := s.syncTable - {key})
    else s.(asyncTable := s.asyncTable - {key})
  }

  /** `_invalidate_operation` on a flight; a synchronous one is released at once, an asynchronous one by its loop. */
  function Cancelled(f: Flight): Flight {
    if f.kind.Sync? then f.(cancelled := true, error := Some(Invalidated), eventSet := true) else f.(cancelled := true)
  }

  function AllCancelled(s: State, target: Target, n: nat): seq<Flight>
    requires n <= |s.flights|
  {
    if n == 0 then []
    else
      var f := s.flights[n - 1];
      AllCancelled(s, target, n - 1)
      + [if IsRegistered(s, n - 1) && Covers(target, f.key) then Cancelled(f) else f]
  }

  function Kept(table: map<Key, nat>, target: Target): map<Key, nat> {
    map key | key in table && !Covers(target, key) :: table[key]
  }

  function Registered(s: State, kind: Kind, key: Key): State {
    var i := |s.flights|;
    if key in TableOf(s, kind) then s
    else
      var t := s.(flights := s.flights + [Flight(kind, key, false, None, None, false, |s.invalidations|, true)]);
      if kind.Sync? then t.(syncTable := s.syncTable[key := i]) else t.(asyncTable := s.asyncTable[key := i])
  }

  function Completed(ttl: real, s: State, i: nat, profile: Profile, at: real): State
    requires i < |s.flights|
  {
    var f := s.flights[i];
    var t := Discarded(s, i);
    if f.cancelled then
      if f.kind.Sync? then
        t.(flights := s.flights[i := f.(error := if f.error.None? then Some(Invalidated) else f.error,
                                        eventSet := true, led := false)])
      else t.(flights := s.flights[i := f.(led := false)])
    else
      t.(flights := s.flights[i := f.(profile := Some(profile), eventSet := true, led := false)],
         entries := Stored(s.entries, Entry(f.key, profile, at, Probed(i), |s.invalidations|), ttl))
  }

  function Failed(s: State, i: nat): State
    requires i < |s.flights|
  {
    Discarded(s, i).(
      flights := s.flights[i := s.flights[i].(error := Some(ProbeFailed), eventSet := true, led := false)])
  }

  function AfterInvalidation(s: State, target: Target): State {
    State(Uncovered(s.entries, target), AllCancelled(s, target, |s.flights|),
          Kept(s.syncTable, target), Kept(s.asyncTable, target), s.invalidations + [target])
  }

  function Apply(ttl: real, step: Step, s: State): Option<State> {
    match step
    case Lookup(key, now) => Some(s.(entries := LookedUp(s.entries, key, now, ttl).0))
    case Register(kind, key) => Some(Registered(s, kind, key))
    case Complete(i, profile, at) =>
      if i < |s.flights| && s.flights[i].led then Some(Completed(ttl, s, i, profile, at)) else None
    case Fail(i) => if i < |s.flights| && s.flights[i].led then Some(Failed(s, i)) else None
    case Invalidate(target) => Some(AfterInvalidation(s, target))
    case Record(key, profile, now) =>
      Some(s.(entries := Stored(s.entries, Entry(key, profile, now, Recorded, |s.invalidations|), ttl)))
  }

  function Run(ttl: real, steps: seq<Step>, s: State): Option<State> {
    if steps == [] then Some(s) else
    match Run(ttl, steps[..|steps| - 1], s)
    case None => None
    case Some(t) => Apply(ttl, steps[|steps| - 1], t)
  }
}
