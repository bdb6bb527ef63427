/** What callers of the capability cache may rely on. */
module CapabilityResults {
  import opened Wrappers
  import opened CapabilityMachine
  import opened CapabilitySafety

  /** A synchronous flight is registered exactly while its event is unset and it is uncancelled. */
  lemma {:induction false} RegisteredIffPending(ttl: real, steps: seq<Step>, s: State, i: nat)
    requires Run(ttl, steps, Empty) == Some(s) && i < |s.flights| && s.flights[i].kind.Sync?
    ensures IsRegistered(s, i) <==> !s.flights[i].eventSet && !s.flights[i].cancelled
    ensures !IsRegistered(s, i) ==> s.flights[i].eventSet && (s.flights[i].profile.Some? || s.flights[i].error.Some?)
  {
    RunKeepsInv(ttl, steps);
    assert SoundFlight(s, i);
  }

  /** Each key has at most one flight of either kind whose leader runs uncancelled. */
  lemma {:induction false} SingleFlight(ttl: real, steps: seq<Step>, s: State, i: nat, j: nat)
    requires Run(ttl, steps, Empty) == Some(s) && i < |s.flights| && j < |s.flights|
    requires s.flights[i].kind == s.flights[j].kind && s.flights[i].key == s.flights[j].key
    requires s.flights[i].led && !s.flights[i].cancelled && s.flights[j].led && !s.flights[j].cancelled
    ensures i == j
  {
    RunKeepsInv(ttl, steps);
    assert SoundFlight(s, i) && SoundFlight(s, j);
  }

  /** No follower waits on a forgotten flight: an unset event has a running leader and an entry in the table. */
  lemma {:induction false} NobodyIsForgotten(ttl: real, steps: seq<Step>, s: State, i: nat, profile: Profile, at: real)
    requires Run(ttl, steps, Empty) == Some(s) && i < |s.flights|
    requires s.flights[i].kind.Sync? && !s.flights[i].eventSet
    ensures IsRegistered(s, i) && Apply(ttl, Complete(i, profile, at), s).Some? && Apply(ttl, Fail(i), s).Some?
    ensures Apply(ttl, Complete(i, profile, at), s).value.flights[i].profile == Some(profile)
    ensures Apply(ttl, Complete(i, profile, at), s).value.flights[i].eventSet
    ensures Apply(ttl, Fail(i), s).value.flights[i].eventSet
  {
    RunKeepsInv(ttl, steps);
    assert SoundFlight(s, i);
  }

  datatype Wait = Blocked | Raised(error: FlightError) | Returned(profile: Profile) | WithoutProfile

  /** `_wait_sync_flight`. */
  function Waited(f: Flight): Wait {
    if !f.eventSet then Blocked
    else if f.error.Some? then Raised(f.error.value)
    else if f.profile.None? then WithoutProfile
    else Returned(f.profile.value)
  }

  /** A follower is never told that a probe completed without a profile. */
  lemma {:induction false} FollowersGetAnAnswer(ttl: real, steps: seq<Step>, s: State, i: nat)
    requires Run(ttl, steps, Empty) == Some(s) && i < |s.flights| && s.flights[i].kind.Sync?
    ensures Waited(s.flights[i]) != WithoutProfile
    ensures Waited(s.flights[i]).Returned? ==> !s.flights[i].cancelled && !s.flights[i].led
    ensures s.flights[i].cancelled ==> Waited(s.flights[i]).Raised?
  {
    RunKeepsInv(ttl, steps);
    assert SoundFlight(s, i);
  }

  /** An answer once given stays: later steps neither block a released follower nor change its profile. */
  lemma {:induction false} AnswersStay(ttl: real, steps: seq<Step>, s: State, step: Step, t: State, i: nat)
    requires Run(ttl, steps, Empty) == Some(s) && Apply(ttl, step, s) == Some(t)
    requires i < |s.flights| && s.flights[i].kind.Sync? && s.flights[i].eventSet
    ensures i < |t.flights| && t.flights[i].eventSet && t.flights[i].profile == s.flights[i].profile
    ensures Waited(s.flights[i]).Returned? ==> Waited(t.flights[i]) == Waited(s.flights[i])
    ensures Waited(s.flights[i]).Raised? ==> Waited(t.flights[i]).Raised?
  {
    RunKeepsInv(ttl, steps);
    assert SoundFlight(s, i);
    CancelledAt(s, if step.Invalidate? then step.target else Everything, |s.flights|);
  }

  /**
   No entry that a probe produced comes from a flight registered before the latest invalidation of its
   key, and no entry at all was stored before it.
   */
  lemma {:induction false} NoStaleEntry(ttl: real, steps: seq<Step>, s: State, e: Entry, j: nat)
    requires Run(ttl, steps, Empty) == Some(s) && e in s.entries
    requires j < |s.invalidations|
    requires s.invalidations[j] == Everything || s.invalidations[j] == Only(e.key.operation)
    ensures j < e.since
    ensures e.origin.Probed? ==>
              e.origin.flight < |s.flights| && j < s.flights[e.origin.flight].born
              && s.flights[e.origin.flight].key == e.key && s.flights[e.origin.flight].profile == Some(e.profile)
  {
    RunKeepsInv(ttl, steps);
    assert SoundEntry(s.flights, s.invalidations, e);
  }

  /** What invalidation does to one flight: cancelled for good, and its waiting followers released with the error. */
  predicate GivenUp(before: Flight, after: Flight) {
    && after.cancelled && after.key == before.key && after.kind == before.kind
    && after.profile == before.profile && after.born == before.born && after.led == before.led
    && if before.kind.Sync? then after.eventSet && after.error == Some(Invalidated)
       else after.eventSet == before.eventSet && after.error == before.error
  }

  lemma {:induction false} InvalidationAt(s: State, target: Target, i: nat)
    requires i < |s.flights|
    ensures var t := AfterInvalidation(s, target);
      && |t.flights| == |s.flights|
      && (if IsRegistered(s, i) && (target == Everything || target == Only(s.flights[i].key.operation))
          then GivenUp(s.flights[i], t.flights[i]) else t.flights[i] == s.flights[i])
  {
    CancelledAt(s, target, |s.flights|);
  }

  /** Invalidating everything: no entry is left, both tables are empty, every registered flight is given up. */
  lemma {:induction false} EverythingIsForgotten(s: State, i: nat)
    requires i < |s.flights|
    ensures var t := AfterInvalidation(s, Everything);
      && t.entries == [] && t.syncTable == map[] && t.asyncTable == map[] && |t.flights| == |s.flights|
      && (if IsRegistered(s, i) then GivenUp(s.flights[i], t.flights[i]) else t.flights[i] == s.flights[i])
  {
    NothingIsLeft(s.entries);
    InvalidationAt(s, Everything, i);
  }

  lemma {:induction false} NothingIsLeft(entries: seq<Entry>)
    ensures Uncovered(entries, Everything) == []
  {
    if entries != [] {
      NothingIsLeft(entries[..|entries| - 1]);
    }
  }

  /** Invalidating one operation: exactly its entries, its table rows and its registered flights go. */
  lemma {:induction false} OperationIsForgotten(s: State, operation: Operation, i: nat)
    requires i < |s.flights|
    ensures var t := AfterInvalidation(s, Only(operation));
      && (forall e :: e in t.entries <==> e in s.entries && e.key.operation != operation)
      && (forall key :: key in t.syncTable <==> key in s.syncTable && key.operation != operation)
      && (forall key :: key in t.asyncTable <==> key in s.asyncTable && key.operation != operation)
      && (forall key | key in t.syncTable :: t.syncTable[key] == s.syncTable[key])
      && (forall key | key in t.asyncTable :: t.asyncTable[key] == s.asyncTable[key])
      && |t.flights| == |s.flights|
      && (if IsRegistered(s, i) && s.flights[i].key.operation == operation
          then GivenUp(s.flights[i], t.flights[i]) else t.flights[i] == s.flights[i])
  {
    UncoveredIn(s.entries, Only(operation));
    InvalidationAt(s, Only(operation), i);
  }

  /** Every flight whose key is invalidated leaves its table, and its waiting followers are released with an error. */
  lemma {:induction false} InvalidationReleases(ttl: real, steps: seq<Step>, s: State, target: Target, i: nat)
    requires Run(ttl, steps, Empty) == Some(s) && i < |s.flights|
    requires target == Everything || target == Only(s.flights[i].key.operation)
    ensures var t := AfterInvalidation(s, target);
      && i < |t.flights| && !IsRegistered(t, i)
      && (t.flights[i].kind.Sync? ==> t.flights[i].eventSet)
      && (s.flights[i].kind.Sync? && Waited(s.flights[i]).Blocked? ==> Waited(t.flights[i]) == Raised(Invalidated))
  {
    RunKeepsInv(ttl, steps);
    CancelledAt(s, target, |s.flights|);
    InvalidateKeepsFlight(s, target, i);
    assert SoundFlight(s, i);
  }

  // ---------------------------------------------------------------- insertion order

  /** The entries of `a` are among those of `b`, in the same order. */
  predicate InOrder(a: seq<Entry>, b: seq<Entry>) {
    if a == [] then true
    else if b == [] then false
    else if a[|a| - 1] == b[|b| - 1] then InOrder(a[..|a| - 1], b[..|b| - 1])
    else InOrder(a, b[..|b| - 1])
  }

  lemma {:induction false} SameOrder(a: seq<Entry>)
    ensures InOrder(a, a)
  {
    if a != [] {
      SameOrder(a[..|a| - 1]);
    }
  }

  /** Leaving the last of the longer list out does no harm, whether or not the shorter one has it. */
  lemma {:induction false} OrderSkips(a: seq<Entry>, b: seq<Entry>)
    requires b != [] && InOrder(a, b[..|b| - 1])
    ensures InOrder(a, b)
  {
    if a != [] && a[|a| - 1] == b[|b| - 1] {
      OrderShrinks(a, b[..|b| - 1]);
    }
  }

  lemma {:induction false} OrderShrinks(a: seq<Entry>, b: seq<Entry>)
    requires a != [] && InOrder(a, b)
    ensures InOrder(a[..|a| - 1], b)
  {
    if a[|a| - 1] == b[|b| - 1] {
      OrderSkips(a[..|a| - 1], b);
    } else {
      OrderShrinks(a, b[..|b| - 1]);
      OrderSkips(a[..|a| - 1], b);
    }
  }

  lemma {:induction false} WithoutKeyInOrder(entries: seq<Entry>, key: Key)
    ensures InOrder(WithoutKey(entries, key), entries)
  {
    if entries != [] {
      WithoutKeyInOrder(entries[..|entries| - 1], key);
      if entries[|entries| - 1].key == key {
        OrderSkips(WithoutKey(entries, key), entries);
      }
    }
  }

  lemma {:induction false} UncoveredInOrder(entries: seq<Entry>, target: Target)
    ensures InOrder(Uncovered(entries, target), entries)
  {
    if entries != [] {
      UncoveredInOrder(entries[..|entries| - 1], target);
      if Covers(target, entries[|entries| - 1].key) {
        OrderSkips(Uncovered(entries, target), entries);
      }
    }
  }

  lemma {:induction false} YoungInOrder(entries: seq<Entry>, now: real, ttl: real)
    ensures InOrder(Young(entries, now, ttl), entries)
  {
    if entries != [] {
      YoungInOrder(entries[..|entries| - 1], now, ttl);
      if now - entries[|entries| - 1].timestamp > 2.0 * ttl {
        OrderSkips(Young(entries, now, ttl), entries);
      }
    }
  }

  lemma {:induction false} TailInOrder(entries: seq<Entry>)
    requires entries != []
    ensures InOrder(entries[1..], entries)
  {
    if |entries| > 1 {
      TailInOrder(entries[..|entries| - 1]);
      assert entries[1..][..|entries| - 2] == entries[..|entries| - 1][1..];
    }
  }

  lemma {:induction false} OrderChains(a: seq<Entry>, b: seq<Entry>, d: seq<Entry>)
    requires InOrder(a, b) && InOrder(b, d)
    ensures InOrder(a, d)
    decreases |d|
  {
    if a != [] {
      var front := d[..|d| - 1];
      if b[|b| - 1] == d[|d| - 1] {
        if a[|a| - 1] == b[|b| - 1] {
          OrderChains(a[..|a| - 1], b[..|b| - 1], front);
        } else {
          OrderChains(a, b[..|b| - 1], front);
          OrderSkips(a, d);
        }
      } else {
        OrderChains(a, b, front);
        OrderSkips(a, d);
      }
    }
  }

  /** No step changes the order of the entries it leaves, and what it stores comes last: the first is the oldest. */
  lemma {:induction false} InsertionOrderStays(ttl: real, s: State, step: Step, t: State)
    requires Apply(ttl, step, s) == Some(t)
    ensures if StoreOf(s, step).Some?
            then t.entries != [] && t.entries[|t.entries| - 1] == StoreOf(s, step).value
                 && InOrder(t.entries[..|t.entries| - 1], s.entries)
            else InOrder(t.entries, s.entries)
  {
    SameOrder(s.entries);
    match step
    case Lookup(key, now) => WithoutKeyInOrder(s.entries, key);
    case Invalidate(target) => UncoveredInOrder(s.entries, target);
    case Complete(_, _, _) =>
      if StoreOf(s, step).Some? {
        RoomInOrder(s.entries, StoreOf(s, step).value, ttl);
      }
    case Record(_, _, _) => RoomInOrder(s.entries, StoreOf(s, step).value, ttl);
    case Register(_, _) =>
    case Fail(_) =>
  }

  lemma {:induction false} RoomInOrder(entries: seq<Entry>, e: Entry, ttl: real)
    ensures Stored(entries, e, ttl) != [] && Stored(entries, e, ttl)[|Stored(entries, e, ttl)| - 1] == e
    ensures InOrder(Stored(entries, e, ttl)[..|Stored(entries, e, ttl)| - 1], entries)
  {
    var others := WithoutKey(entries, e.key);
    var young, room := Young(others, e.timestamp, ttl), Room(others, e.timestamp, ttl);
    WithoutKeyInOrder(entries, e.key);
    SameOrder(others);
    if |others| >= MAX_ENTRIES {
      YoungInOrder(others, e.timestamp, ttl);
      if |young| >= MAX_ENTRIES {
        TailInOrder(young);
        OrderChains(room, young, others);
      }
    }
    OrderChains(room, others, entries);
    assert (room + [e])[..|room|] == room;
  }

  /** A cancelled leader that finishes late changes neither the entries nor the flight that replaced its own. */
  lemma {:induction false} LateLeaderIsHarmless(ttl: real, steps: seq<Step>, s: State, step: Step, t: State)
    requires Run(ttl, steps, Empty) == Some(s) && Apply(ttl, step, s) == Some(t)
    requires step.Complete? || step.Fail?
    requires s.flights[step.flight].cancelled
    ensures t.entries == s.entries && t.syncTable == s.syncTable && t.asyncTable == s.asyncTable
    ensures |t.flights| == |s.flights|
    ensures forall j | 0 <= j < |t.flights| && j != step.flight :: t.flights[j] == s.flights[j]
  {
    RunKeepsInv(ttl, steps);
    assert SoundFlight(s, step.flight);
  }

  /** A lookup answers exactly with the key's unexpired entry, and drops nothing but that key's expired one. */
  lemma {:induction false} LookupIsExact(ttl: real, steps: seq<Step>, s: State, key: Key, now: real)
    requires Run(ttl, steps, Empty) == Some(s)
    ensures var (after, hit) := LookedUp(s.entries, key, now, ttl);
      && (forall e :: hit == Some(e) <==> e in s.entries && e.key == key && now - e.timestamp < ttl)
      && (forall e :: e in after <==> e in s.entries && (e.key != key || hit == Some(e)))
  {
    RunKeepsInv(ttl, steps);
    FindIn(s.entries, key);
    WithoutKeyIn(s.entries, key);
    OneEntryPerKey(s.entries, key);
  }

  lemma {:induction false} OneEntryPerKey(entries: seq<Entry>, key: Key)
    requires Distinct(entries)
    ensures forall e | e in entries && e.key == key :: Find(entries, key) == Some(e)
  {
    FindIn(entries, key);
    forall e | e in entries && e.key == key ensures Find(entries, key) == Some(e) {
      var i, j :| 0 <= i < |entries| && 0 <= j < |entries| && entries[i] == e && entries[j] == Find(entries, key).value;
      assert !(i < j) && !(j < i);
    }
  }

  /** The cache never holds more than its limit, nor two entries for a key. */
  lemma {:induction false} CacheIsBounded(ttl: real, steps: seq<Step>, s: State)
    requires Run(ttl, steps, Empty) == Some(s)
    ensures |s.entries| <= 1024 && Distinct(s.entries)
  {
    RunKeepsInv(ttl, steps);
  }

  // ---------------------------------------------------------------- when a probe starts beside an entry

  /** The entry a step puts into the cache. */
  function StoreOf(s: State, step: Step): Option<Entry> {
    match step
    case Complete(i, profile, at) =>
      if i < |s.flights| && !s.flights[i].cancelled
      then Some(Entry(s.flights[i].key, profile, at, Probed(i), |s.invalidations|)) else None
    case Record(key, profile, now) => Some(Entry(key, profile, now, Recorded, |s.invalidations|))
    case _ => None
  }

  predicate Stores(s: State, step: Step, key: Key) {
    StoreOf(s, step).Some? && StoreOf(s, step).value.key == key
  }

  /** Among a full cache the entry has long expired, or none has and it was inserted first. */
  predicate Evicts(others: seq<Entry>, e: Entry, now: real, ttl: real) {
    |others| == 1024
    && (now - e.timestamp > 2.0 * ttl || (e == others[0] && forall x | x in others :: now - x.timestamp <= 2.0 * ttl))
  }

  /** The step takes the key's entry out: an invalidation, an expired lookup, or room made for another key. */
  predicate Drops(ttl: real, s: State, step: Step, key: Key) {
    var found := Find(s.entries, key);
    && found.Some?
    && match step
       case Invalidate(target) => target == Everything || target == Only(key.operation)
       case Lookup(k, now) => k == key && !Fresh(found.value, now, ttl)
       case Register(_, _) => false
       case Fail(_) => false
       case _ =>
         var stored := StoreOf(s, step);
         stored.Some? && stored.value.key != key
         && Evicts(WithoutKey(s.entries, stored.value.key), found.value, stored.value.timestamp, ttl)
  }

  lemma {:induction false} AllYoungStay(entries: seq<Entry>, now: real, ttl: real)
    requires forall x | x in entries :: now - x.timestamp <= 2.0 * ttl
    ensures Young(entries, now, ttl) == entries
  {
    if entries != [] {
      var front := entries[..|entries| - 1];
      assert entries == front + [entries[|entries| - 1]];
      AllYoungStay(front, now, ttl);
    }
  }

  /** Making room drops exactly what is evicted. */
  lemma {:induction false} RoomIff(others: seq<Entry>, e: Entry, now: real, ttl: real)
    requires |others| <= MAX_ENTRIES && Distinct(others) && e in others
    ensures e in Room(others, now, ttl) <==> !Evicts(others, e, now, ttl)
  {
    YoungIn(others, now, ttl);
    var young := Young(others, now, ttl);
    if |others| == MAX_ENTRIES {
      if |young| == MAX_ENTRIES {
        AllYoung(others, now, ttl);
        assert others == [others[0]] + others[1..];
      } else if forall x | x in others :: now - x.timestamp <= 2.0 * ttl {
        AllYoungStay(others, now, ttl);
      }
    }
  }

  lemma {:induction false} FoundIffListed(entries: seq<Entry>, key: Key, e: Entry)
    requires Distinct(entries)
    ensures Find(entries, key) == Some(e) <==> e in entries && e.key == key
  {
    FindIn(entries, key);
    OneEntryPerKey(entries, key);
  }

  /** When one list holds of a key's entry exactly what another does, both find the same. */
  lemma {:induction false} FoundAlike(a: seq<Entry>, b: seq<Entry>, key: Key)
    requires Distinct(a) && Distinct(b) && forall e: Entry | e.key == key :: e in a <==> e in b
    ensures Find(a, key) == Find(b, key)
  {
    FindIn(a, key);
    FindIn(b, key);
    OneEntryPerKey(a, key);
    OneEntryPerKey(b, key);
  }

  lemma {:induction false} FoundAfterStore(entries: seq<Entry>, e: Entry, ttl: real, key: Key)
    requires Distinct(entries) && |entries| <= MAX_ENTRIES
    ensures Find(Stored(entries, e, ttl), key) ==
              if e.key == key then Some(e)
              else if Find(entries, key).Some? && Evicts(WithoutKey(entries, e.key), Find(entries, key).value,
                                                         e.timestamp, ttl)
              then None else Find(entries, key)
  {
    var others := WithoutKey(entries, e.key);
    StoredFacts(entries, e, ttl);
    if e.key != key {
      WithoutKeyIn(entries, e.key);
      FindIn(entries, key);
      FindIn(Stored(entries, e, ttl), key);
      var found := Find(entries, key);
      if found.Some? {
        RoomIff(others, found.value, e.timestamp, ttl);
        FoundIffListed(Stored(entries, e, ttl), key, found.value);
        OneEntryPerKey(entries, key);
      }
    }
  }

  lemma {:induction false} FoundAfterLookup(entries: seq<Entry>, k: Key, now: real, ttl: real, key: Key)
    requires Distinct(entries)
    ensures Find(LookedUp(entries, k, now, ttl).0, key) ==
              if k == key && Find(entries, key).Some? && !Fresh(Find(entries, key).value, now, ttl) then None
                  else Find(entries, key)
  {
    WithoutKeyIn(entries, k);
    if k != key {
      FoundAlike(WithoutKey(entries, k), entries, key);
    } else {
      FindIn(WithoutKey(entries, k), key);
    }
  }

  lemma {:induction false} FoundAfterInvalidation(entries: seq<Entry>, target: Target, key: Key)
    requires Distinct(entries)
    ensures Find(Uncovered(entries, target), key) == if Covers(target, key) then None else Find(entries, key)
  {
    UncoveredIn(entries, target);
    if Covers(target, key) {
      FindIn(Uncovered(entries, target), key);
    } else {
      FoundAlike(Uncovered(entries, target), entries, key);
    }
  }

  /** What a step leaves of a key's entry: what it stored, nothing if it dropped it, else what was there. */
  lemma {:induction false} FoundAfterStep(ttl: real, s: State, step: Step, t: State, key: Key)
    requires EntriesSound(s) && Apply(ttl, step, s) == Some(t)
    ensures Find(t.entries, key) ==
              if Stores(s, step, key) then StoreOf(s, step) else if Drops(ttl, s, step, key) then None
                  else Find(s.entries, key)
  {
    match step
    case Lookup(k, now) => FoundAfterLookup(s.entries, k, now, ttl, key);
    case Invalidate(target) => FoundAfterInvalidation(s.entries, target, key);
    case Complete(_, _, _) =>
      if StoreOf(s, step).Some? { FoundAfterStore(s.entries, StoreOf(s, step).value, ttl, key); }
    case Record(_, _, _) => FoundAfterStore(s.entries, StoreOf(s, step).value, ttl, key);
    case _ =>
  }

  /**
   After `base`, the m-th of the steps `mid` stores an entry of the key that none of the later ones drops or
   replaces.
   */
  ghost predicate Leaves(ttl: real, base: seq<Step>, mid: seq<Step>, m: nat, key: Key) {
    && m < |mid| && StoredAt(ttl, base, mid, m, key).Some?
    && forall n | m < n < |mid| :: Spares(ttl, base, mid, n, key)
  }

  /** The entry of the key that the m-th of the steps `mid` stores. */
  ghost function StoredAt(ttl: real, base: seq<Step>, mid: seq<Step>, m: nat, key: Key): Option<Entry>
    requires m < |mid|
  {
    var s := Run(ttl, base + mid[..m], Empty);
    if s.Some? && Stores(s.value, mid[m], key) then StoreOf(s.value, mid[m]) else None
  }

  ghost predicate Spares(ttl: real, base: seq<Step>, mid: seq<Step>, n: nat, key: Key)
    requires n < |mid|
  {
    var s := Run(ttl, base + mid[..n], Empty);
    s.Some? && !Stores(s.value, mid[n], key) && !Drops(ttl, s.value, mid[n], key)
  }

  /** Which of the steps `mid` left the key's entry, if one did. */
  ghost function LeftBy(ttl: real, base: seq<Step>, mid: seq<Step>, key: Key): (r: Option<nat>)
    ensures r.Some? ==> r.value < |mid|
  {
    if mid == [] then None
    else if StoredAt(ttl, base, mid, |mid| - 1, key).Some? then Some(|mid| - 1)
    else if Spares(ttl, base, mid, |mid| - 1, key) then LeftBy(ttl, base, mid[..|mid| - 1], key)
    else None
  }

  lemma {:induction false} SameEarlier(ttl: real, base: seq<Step>, mid: seq<Step>, m: nat, key: Key)
    requires m < |mid| - 1
    ensures StoredAt(ttl, base, mid, m, key) == StoredAt(ttl, base, mid[..|mid| - 1], m, key)
    ensures Spares(ttl, base, mid, m, key) == Spares(ttl, base, mid[..|mid| - 1], m, key)
  {
    assert mid[..|mid| - 1][..m] == mid[..m];
  }

  lemma {:induction false} LeavesEarlier(ttl: real, base: seq<Step>, mid: seq<Step>, m: nat, key: Key)
    requires m < |mid| - 1
    ensures Leaves(ttl, base, mid, m, key) <==>
              Leaves(ttl, base, mid[..|mid| - 1], m, key) && Spares(ttl, base, mid, |mid| - 1, key)
  {
    var front := mid[..|mid| - 1];
    forall n | m <= n < |front|
      ensures StoredAt(ttl, base, mid, n, key) == StoredAt(ttl, base, front, n, key)
      ensures Spares(ttl, base, mid, n, key) == Spares(ttl, base, front, n, key)
    {
      SameEarlier(ttl, base, mid, n, key);
    }
  }

  lemma {:induction false} LeftByIsLeaves(ttl: real, base: seq<Step>, mid: seq<Step>, m: nat, key: Key)
    ensures LeftBy(ttl, base, mid, key) == Some(m) <==> Leaves(ttl, base, mid, m, key)
  {
    if m < |mid| - 1 {
      LeavesEarlier(ttl, base, mid, m, key);
      LeftByIsLeaves(ttl, base, mid[..|mid| - 1], m, key);
    } else if mid != [] && m == |mid| - 1 {
      assert LeftBy(ttl, base, mid[..|mid| - 1], key) != Some(m);
    }
  }

  /** Running on from a state without an entry of the key, what is found is what some step left. */
  lemma {:induction false} FoundIsLeft(ttl: real, base: seq<Step>, mid: seq<Step>, key: Key)
    requires Run(ttl, base, Empty).Some? && Find(Run(ttl, base, Empty).value.entries, key).None?
    requires Run(ttl, base + mid, Empty).Some?
    ensures var found, m := Find(Run(ttl, base + mid, Empty).value.entries, key), LeftBy(ttl, base, mid, key);
      if m.Some? then StoredAt(ttl, base, mid, m.value, key) == found && found.Some? else found.None?
    decreases |mid|
  {
    if mid == [] {
      assert base + mid == base;
    } else {
      var n := |mid| - 1;
      var front := mid[..n];
      assert (base + mid)[..|base + mid| - 1] == base + front && (base + mid)[|base + mid| - 1] == mid[n];
      FoundIsLeft(ttl, base, front, key);
      RunKeepsEntries(ttl, base + front);
      FoundAfterStep(ttl, Run(ttl, base + front, Empty).value, mid[n], Run(ttl, base + mid, Empty).value, key);
      if LeftBy(ttl, base, front, key).Some? {
        SameEarlier(ttl, base, mid, LeftBy(ttl, base, front, key).value, key);
      }
    }
  }

  lemma {:induction false} RunKeepsEntries(ttl: real, steps: seq<Step>)
    requires Run(ttl, steps, Empty).Some?
    ensures EntriesSound(Run(ttl, steps, Empty).value)
  {
    RunKeepsInv(ttl, steps);
  }

  lemma {:induction false} FoundIffLeft(ttl: real, base: seq<Step>, mid: seq<Step>, key: Key)
    requires Run(ttl, base, Empty).Some? && Find(Run(ttl, base, Empty).value.entries, key).None?
    requires Run(ttl, base + mid, Empty).Some?
    ensures var found := Find(Run(ttl, base + mid, Empty).value.entries, key);
      && (found.Some? <==> exists m :: Leaves(ttl, base, mid, m, key))
      && forall m :: Leaves(ttl, base, mid, m, key) ==> found == StoredAt(ttl, base, mid, m, key)
  {
    FoundIsLeft(ttl, base, mid, key);
    forall m: nat ensures LeftBy(ttl, base, mid, key) == Some(m) <==> Leaves(ttl, base, mid, m, key) {
      LeftByIsLeaves(ttl, base, mid, m, key);
    }
  }

  /**
   The probe a caller leads after it missed the cache starts beside an entry of its key exactly when,
   between its lookup and its registration, some step stored one that no later step dropped, and beside a
   fresh one exactly when that entry is fresh. With no such step in between the cache holds nothing for it.
   */
  lemma {:induction false} ProbeStartsBesideEntryIff(ttl: real, before: seq<Step>, now: real, mid: seq<Step>,
                                                     kind: Kind, key: Key,
                                                     s0: State, s: State, later: real)
    requires Run(ttl, before, Empty) == Some(s0) && LookedUp(s0.entries, key, now, ttl).1.None?
    requires Run(ttl, before + [Lookup(key, now)] + mid, Empty) == Some(s) && key !in TableOf(s, kind)
    ensures var t := Registered(s, kind, key);
            t.entries == s.entries && |t.flights| == |s.flights| + 1 && t.flights[|s.flights|].led
    ensures var base, found := before + [Lookup(key, now)], Find(s.entries, key);
      && (found.Some? <==> exists m :: Leaves(ttl, base, mid, m, key))
      && (found.Some? && Fresh(found.value, later, ttl) <==>
            exists m :: Leaves(ttl, base, mid, m, key) && Fresh(StoredAt(ttl, base, mid, m, key).value, later, ttl))
  {
    AfterStep(ttl, before, s0, Lookup(key, now));
    RunKeepsInv(ttl, before);
    FoundAfterLookup(s0.entries, key, now, ttl, key);
    FoundIffLeft(ttl, before + [Lookup(key, now)], mid, key);
  }

  /**
   Two callers that both missed the cache can lead one probe each within one interval: the second
   registers after the first has stored a fresh entry.
   */
  lemma {:induction false} TwoProbesInOneInterval(ttl: real, key: Key, profile: Profile)
    returns (steps: seq<Step>, s: State)
    requires ttl > 0.0
    ensures Run(ttl, steps, Empty) == Some(s)
    ensures |s.flights| == 2 && s.flights[0].key == s.flights[1].key == key && s.flights[1].led
    ensures LookedUp(s.entries, key, 0.0, ttl).1.Some?
  {
    var missed := [Lookup(key, 0.0), Lookup(key, 0.0)];
    assert Run(ttl, missed[..1], Empty) == Some(Empty) by {
      assert missed[..1][..0] == [];
    }
    assert Run(ttl, missed, Empty) == Some(Empty);
    var s1 := Registered(Empty, Sync, key);
    AfterStep(ttl, missed, Empty, Register(Sync, key));
    var led := missed + [Register(Sync, key)];
    var s2 := Completed(ttl, s1, 0, profile, 0.0);
    AfterStep(ttl, led, s1, Complete(0, profile, 0.0));
    var done := led + [Complete(0, profile, 0.0)];
    AfterStep(ttl, done, s2, Register(Sync, key));
    steps, s := done + [Register(Sync, key)], Registered(s2, Sync, key);
    StoredFacts([], Entry(key, profile, 0.0, Probed(0), 0), ttl);
  }

  lemma {:induction false} AfterStep(ttl: real, steps: seq<Step>, s: State, step: Step)
    requires Run(ttl, steps, Empty) == Some(s)
    ensures Run(ttl, steps + [step], Empty) == Apply(ttl, step, s)
  {
    assert (steps + [step])[..|steps|] == steps;
  }
}
