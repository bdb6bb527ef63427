/**
 The cache as it is kept in memory, for a client that resolves synchronously: an ordered list of
 entries and a table of flight objects. Each method is one section under the cache's lock.
 */
module CapabilityCache {
  import opened Wrappers
  import opened CapabilityMachine
  import opened CapabilitySafety
  import opened CapabilityResults

  /** Two disjoint parts of a whole; when one is empty the other is all. */
  ghost predicate Split(whole: set<Key>, left: set<Key>, done: set<Key>)
    ensures Split(whole, left, done) && left == {} ==> done == whole
  {
    && (forall key :: key in whole <==> key in left || key in done)
    && (forall key | key in left :: key !in done)
  }

  class SyncFlight {
    const key: Key
    const number: nat  // stands for the object's identity
    var eventSet: bool
    var profile: Option<Profile>
    var error: Option<FlightError>
    var cancelled: bool
    ghost var led: bool
    ghost const born: nat

    constructor (key: Key, number: nat, ghost born: nat)
      ensures this.key == key && this.number == number
          && Now() == Flight(Sync, key, false, None, None, false, born, true)
    {
      this.key, this.number, this.born := key, number, born;
      eventSet, profile, error, cancelled, led := false, None, None, false, true;
    }

    ghost function Now(): Flight
      reads this
    {
      Flight(Sync, key, eventSet, profile, error, cancelled, born, led)
    }
  }

  class Cache {
    const ttl: real
    var entries: seq<Entry>
    var syncFlights: map<Key, SyncFlight>
    var generation: nat  // invalidations so far
    var created: nat     // flights so far

    ghost var all: seq<SyncFlight>
    ghost var state: State
    ghost var trace: seq<Step>

    ghost predicate Valid()
      reads this, all
    {
      && state.entries == entries && generation == |state.invalidations| && created == |all|
        && state.asyncTable == map[]
      && Mirrors(state)
      && Run(ttl, trace, Empty) == Some(state)
    }

    /** The flight objects and their table are those of the given machine state. */
    ghost predicate Mirrors(s: State)
      reads `all, `syncFlights, all
    {
      && |all| == |s.flights| && (forall i | 0 <= i < |all| :: all[i].number == i && all[i].Now() == s.flights[i])
      && syncFlights.Keys == s.syncTable.Keys
      && forall key | key in syncFlights :: s.syncTable[key] < |all| && syncFlights[key] == all[s.syncTable[key]]
    }

    constructor (ttl: real)
      ensures Valid() && state == Empty && all == [] && this.ttl == ttl
    {
      this.ttl := ttl;
      entries, syncFlights, generation, created := [], map[], 0, 0;
      all, state, trace := [], Empty, [];
    }

    ghost method Take(step: Step)
      requires Run(ttl, trace, Empty) == Some(state) && Apply(ttl, step, state).Some?
      modifies `state, `trace
      ensures Some(state) == Apply(ttl, step, old(state)) && Run(ttl, trace, Empty) == Some(state)
    {
      assert (trace + [step])[..|trace|] == trace;
      state := Apply(ttl, step, state).value;
      trace := trace + [step];
    }

    // ---------------------------------------------------------------- entries

    /** The dictionary's `pop`. */
    method PopEntry(key: Key)
      modifies `entries
      ensures entries == WithoutKey(old(entries), key)
    {
      var kept, was := [], entries;
      for i := 0 to |was|
        invariant kept == WithoutKey(was[..i], key)
      {
        assert was[..i + 1][..i] == was[..i];
        if was[i].key != key {
          kept := kept + [was[i]];
        }
      }
      assert was[..|was|] == was;
      entries := kept;
    }

    method DropLongExpired(now: real)
      modifies `entries
      ensures entries == Young(old(entries), now, ttl)
    {
      var kept, was := [], entries;
      for i := 0 to |was|
        invariant kept == Young(was[..i], now, ttl)
      {
        assert was[..i + 1][..i] == was[..i];
        if now - was[i].timestamp <= 2.0 * ttl {
          kept := kept + [was[i]];
        }
      }
      assert was[..|was|] == was;
      entries := kept;
    }

    method DropCovered(target: Target)
      modifies `entries
      ensures entries == Uncovered(old(entries), target)
    {
      var kept, was := [], entries;
      for i := 0 to |was|
        invariant kept == Uncovered(was[..i], target)
      {
        assert was[..i + 1][..i] == was[..i];
        if !Covers(target, was[i].key) {
          kept := kept + [was[i]];
        }
      }
      assert was[..|was|] == was;
      entries := kept;
    }

    /** `_store_entry`. */
    method StoreEntry(e: Entry)
      modifies `entries
      ensures entries == Stored(old(entries), e, ttl)
    {
      PopEntry(e.key);
      if |entries| >= MAX_ENTRIES {
        DropLongExpired(e.timestamp);
        if |entries| >= MAX_ENTRIES {
          entries := entries[1..];
        }
      }
      entries := entries + [e];
    }

    method Get(key: Key) returns (found: Option<Entry>)
      ensures found == Find(entries, key)
    {
      found := None;
      for i := 0 to |entries|
        invariant found == Find(entries[..i], key)
      {
        assert entries[..i + 1][..i] == entries[..i];
        if entries[i].key == key {
          found := Some(entries[i]);
        }
      }
      assert entries[..|entries|] == entries;
    }

    /** `_fresh_entry`. */
    method FreshEntry(key: Key, now: real) returns (hit: Option<Entry>)
      requires Valid()
      modifies this
      ensures Valid() && all == old(all) && syncFlights == old(syncFlights)
      ensures (entries, hit) == LookedUp(old(entries), key, now, ttl)
      ensures hit.Some? ==> now - hit.value.timestamp < ttl
    {
      hit := Get(key);
      if hit.Some? && now - hit.value.timestamp >= ttl {
        PopEntry(key);
        hit := None;
      }
      Take(Lookup(key, now));
    }

    /** `record_response` and `record_evidence`, given the profile they derive. */
    method RecordProfile(key: Key, profile: Profile, now: real)
      requires Valid()
      modifies this
      ensures Valid() && all == old(all) && syncFlights == old(syncFlights)
      ensures state.entries == Stored(old(entries), Entry(key, profile, now, Recorded, old(generation)), ttl)
    {
      StoreEntry(Entry(key, profile, now, Recorded, generation));
      Take(Record(key, profile, now));
    }

    // ---------------------------------------------------------------- flights

    /** `_sync_flight`: join the registered flight, or register one and lead it. */
    method JoinOrLead(key: Key) returns (flight: SyncFlight, leader: bool)
      requires Valid()
      modifies this
      ensures Valid() && entries == old(entries) && flight in all && old(all) <= all
      ensures leader <==> key !in old(syncFlights)
      ensures !leader ==> flight == old(syncFlights)[key] && all == old(all)
      ensures leader ==> fresh(flight) && all == old(all) + [flight] && flight.key == key
      ensures key in syncFlights && syncFlights[key] == flight && state == Registered(old(state), Sync, key)
    {
      leader := key !in syncFlights;
      if leader {
        flight := new SyncFlight(key, created, |state.invalidations|);
        syncFlights := syncFlights[key := flight];
        created := created + 1;
        all := all + [flight];
      } else {
        flight := syncFlights[key];
      }
      Take(Register(Sync, key));
    }

    /** `_discard_sync_flight`: only while this very flight owns its key. */
    method DiscardSyncFlight(flight: SyncFlight)
      modifies `syncFlights
      ensures syncFlights == if flight.key in old(syncFlights) && old(syncFlights)[flight.key] == flight
                             then old(syncFlights) - {flight.key} else old(syncFlights)
    {
      if flight.key in syncFlights && syncFlights[flight.key] == flight {
        syncFlights := syncFlights - {flight.key};
      }
    }

    lemma TableMeansRegistered(flight: SyncFlight)
      requires Valid() && flight in all
      ensures flight.number < |all| && all[flight.number] == flight
      ensures flight.key in syncFlights && syncFlights[flight.key] == flight <==> IsRegistered(state, flight.number)
    {
      RunKeepsInv(ttl, trace);
    }

    /** The flight was invalidated while its leader ran: its result is thrown away. */
    method AbandonResult(flight: SyncFlight, profile: Profile, at: real) returns (raised: FlightError)
      requires Valid() && flight in all && flight.led && flight.cancelled
      modifies this, flight
      ensures Valid() && all == old(all) && flight.eventSet && !flight.led && flight.profile.None?
      ensures state == Completed(ttl, old(state), flight.number, profile, at)
      ensures raised == Invalidated && entries == old(entries)
    {
      TableMeansRegistered(flight);
      Cancellation(flight);
      DiscardSyncFlight(flight);
      flight.error := if flight.error.None? then Some(Invalidated) else flight.error;
      flight.eventSet := true;
      flight.led := false;
      raised := flight.error.value;
      Take(Complete(flight.number, profile, at));
    }

    method PublishResult(flight: SyncFlight, profile: Profile, at: real)
      requires Valid() && flight in all && flight.led && !flight.cancelled
      modifies this, flight
      ensures Valid() && all == old(all) && flight.eventSet && !flight.led && flight.profile == Some(profile)
      ensures state == Completed(ttl, old(state), flight.number, profile, at)
    {
      TableMeansRegistered(flight);
      StoreEntry(Entry(flight.key, profile, at, Probed(flight.number), generation));
      flight.profile := Some(profile);
      DiscardSyncFlight(flight);
      flight.eventSet := true;
      flight.led := false;
      Take(Complete(flight.number, profile, at));
    }

    /** `_complete_sync_leader`: store and publish the profile, unless the flight was cancelled meanwhile. */
    method CompleteSyncLeader(flight: SyncFlight, profile: Profile, at: real) returns (raised: Option<FlightError>)
      requires Valid() && flight in all && flight.led
      modifies this, flight
      ensures Valid() && all == old(all) && flight.eventSet && !flight.led
      ensures state == Completed(ttl, old(state), flight.number, profile, at)
      ensures raised == if old(flight.cancelled) then Some(Invalidated) else None
      ensures raised.Some? ==> entries == old(entries) && flight.profile.None?
      ensures raised.None? ==> flight.profile == Some(profile)
    {
      if flight.cancelled {
        var error := AbandonResult(flight, profile, at);
        raised := Some(error);
      } else {
        PublishResult(flight, profile, at);
        raised := None;
      }
    }

    lemma Cancellation(flight: SyncFlight)
      requires Valid() && flight in all && flight.led
      ensures flight.profile.None? && (flight.cancelled ==> flight.error == Some(Invalidated))
    {
      RunKeepsInv(ttl, trace);
      assert SoundFlight(state, flight.number);
    }

    /** `_fail_sync_leader`. */
    method FailSyncLeader(flight: SyncFlight)
      requires Valid() && flight in all && flight.led
      modifies this, flight
      ensures Valid() && all == old(all) && flight.eventSet && !flight.led && flight.error == Some(ProbeFailed)
      ensures state == Failed(old(state), flight.number) && entries == old(entries)
    {
      TableMeansRegistered(flight);
      flight.error := Some(ProbeFailed);
      DiscardSyncFlight(flight);
      flight.eventSet := true;
      flight.led := false;
      Take(Fail(flight.number));
    }

    // ---------------------------------------------------------------- invalidation

    /** What a flight becomes once the covered keys in `done` are dealt with. */
    ghost function PartlyCancelled(target: Target, done: set<Key>, i: nat): Flight
      requires i < |state.flights|
      reads `state
    {
      var f := state.flights[i];
      if IsRegistered(state, i) && Covers(target, f.key) && f.key in done then Cancelled(f) else f
    }

    method CancelFlight(flight: SyncFlight)
      modifies flight
      ensures flight.Now() == Cancelled(old(flight.Now()))
    {
      flight.cancelled := true;
      flight.error := Some(Invalidated);
      flight.eventSet := true;
    }

    /** Each registered flight is its key's, and only its key's, table entry. */
    ghost predicate OnePerKey(table: map<Key, SyncFlight>)
      reads `all, `state
    {
      && |all| == |state.flights|
      && (forall i | 0 <= i < |all| :: all[i].key == state.flights[i].key && state.flights[i].kind.Sync?)
      && (forall i | 0 <= i < |all| :: IsRegistered(state, i) <==> all[i].key in table && table[all[i].key] == all[i])
      && (forall key | key in table ::
            table[key].number < |all| && all[table[key].number] == table[key] && table[key].key == key)
    }

    /** The walk has dealt with the keys in `done`. */
    ghost predicate Swept(target: Target, was: map<Key, SyncFlight>, done: set<Key>)
      requires |all| == |state.flights|
      reads `all, `state, `syncFlights, all
    {
      && (forall key :: key in syncFlights <==> key in was && !(key in done && Covers(target, key)))
      && (forall key | key in syncFlights :: syncFlights[key] == was[key])
      && (forall i | 0 <= i < |all| :: all[i].number == i && all[i].Now() == PartlyCancelled(target, done, i))
    }

    /** Dealing with one more key matters to that key's flight only. */
    lemma OnlyItsFlight(target: Target, was: map<Key, SyncFlight>, done: set<Key>, key: Key)
      requires OnePerKey(was) && key in was && key !in done
      ensures forall j | 0 <= j < |all| && j != was[key].number ::
                PartlyCancelled(target, done + {key}, j) == PartlyCancelled(target, done, j)
      ensures var i := was[key].number;
                PartlyCancelled(target, done, i) == state.flights[i]
                && PartlyCancelled(target, done + {key}, i)
                   == if Covers(target, state.flights[i].key) then Cancelled(state.flights[i]) else state.flights[i]
    {
      var i := was[key].number;
      assert IsRegistered(state, i) && state.flights[i].key == key;
      forall j | 0 <= j < |all| && j != i
        ensures PartlyCancelled(target, done + {key}, j) == PartlyCancelled(target, done, j)
      {
        if state.flights[j].key == key {
          assert !IsRegistered(state, j);
        }
      }
    }

    method SweepKey(target: Target, was: map<Key, SyncFlight>, ghost done: set<Key>, key: Key)
      requires OnePerKey(was) && Swept(target, was, done) && key in was && key !in done
      modifies `syncFlights, was[key]
      ensures OnePerKey(was) && Swept(target, was, done + {key})
    {
      OnlyItsFlight(target, was, done, key);
      if Covers(target, key) {
        CancelFlight(was[key]);
        syncFlights := syncFlights - {key};
      }
    }

    /** The walk over the flight table: cancel, release and forget every covered flight. */
    method CancelFlights(target: Target, was: map<Key, SyncFlight>)
      requires OnePerKey(was) && Swept(target, was, {})
      modifies `syncFlights, all
      ensures OnePerKey(was) && Swept(target, was, was.Keys)
    {
      var left := was.Keys;
      ghost var done: set<Key> := {};
      while left != {}
        invariant Split(was.Keys, left, done)
        invariant OnePerKey(was)
        invariant Swept(target, was, done)
        decreases left
      {
        var key :| key in left;
        SweepKey(target, was, done, key);
        left, done := left - {key}, done + {key};
      }
    }

    lemma SweepStarts(target: Target)
      requires Valid()
      ensures OnePerKey(syncFlights) && Swept(target, syncFlights, {})
    {
      RunKeepsInv(ttl, trace);
    }

    /** What the walk leaves is what invalidation means. */
    lemma SweptAll(target: Target, was: map<Key, SyncFlight>)
      requires OnePerKey(was) && Swept(target, was, was.Keys)
      ensures |AllCancelled(state, target, |state.flights|)| == |all|
      ensures forall i | 0 <= i < |all| :: all[i].Now() == AllCancelled(state, target, |state.flights|)[i]
    {
      CancelledAt(state, target, |state.flights|);
      forall i | 0 <= i < |all| ensures all[i].Now() == AllCancelled(state, target, |state.flights|)[i] {
        assert all[i].Now() == PartlyCancelled(target, was.Keys, i);
      }
    }

    lemma SweptTable(target: Target, was: map<Key, SyncFlight>)
      requires |all| == |state.flights| && Swept(target, was, was.Keys) && was.Keys == state.syncTable.Keys
      requires forall key | key in was :: state.syncTable[key] < |all| && was[key] == all[state.syncTable[key]]
      ensures syncFlights.Keys == Kept(state.syncTable, target).Keys
      ensures forall key | key in syncFlights ::
                Kept(state.syncTable, target)[key] < |all|
                  && syncFlights[key] == all[Kept(state.syncTable, target)[key]]
    {
    }

    ghost method TakeInvalidate(target: Target)
      requires Run(ttl, trace, Empty) == Some(state)
      modifies `state, `trace
      ensures state == AfterInvalidation(old(state), target) && Run(ttl, trace, Empty) == Some(state)
    {
      Take(Invalidate(target));
    }

    method ForgetFlights(target: Target)
      requires Mirrors(state) && OnePerKey(syncFlights) && Swept(target, syncFlights, {})
      modifies `syncFlights, all
      ensures Mirrors(AfterInvalidation(state, target))
    {
      ghost var was := syncFlights;
      CancelFlights(target, syncFlights);
      SweptAll(target, was);
      SweptTable(target, was);
    }

    /** `invalidate`, for one operation or for all: the entries and flights it names, and no others. */
    method Forget(target: Target)
      requires Valid()
      modifies this, all
      ensures Valid() && all == old(all) && state == AfterInvalidation(old(state), target)
      ensures target == Everything ==> entries == [] && syncFlights == map[]
      ensures forall e :: e in entries <==>
                e in old(entries) && !(target == Everything || target == Only(e.key.operation))
      ensures forall key :: key in syncFlights <==>
                key in old(syncFlights) && !(target == Everything || target == Only(key.operation))
      ensures forall i | 0 <= i < |all| ::
                if old(InTable(all[i])) && (target == Everything || target == Only(all[i].key.operation))
                then all[i].cancelled && all[i].eventSet && all[i].error == Some(Invalidated)
                else all[i].Now() == old(all[i].Now())
    {
      ghost var before := state;
      ForgetsOperations(before, target);
      ForgetAll(target);
    }

    method ForgetAll(target: Target)
      requires Valid()
      modifies this, all
      ensures Valid() && all == old(all) && state == AfterInvalidation(old(state), target)
    {
      SweepStarts(target);
      DropCovered(target);
      ForgetFlights(target);
      generation := generation + 1;
      TakeInvalidate(target);
    }

    ghost predicate InTable(flight: SyncFlight)
      reads this
    {
      flight.key in syncFlights && syncFlights[flight.key] == flight
    }

    /** Invalidation, read off the fields. */
    lemma ForgetsOperations(before: State, target: Target)
      requires Valid() && before == state
      ensures var t := AfterInvalidation(before, target);
        && (target == Everything ==> t.entries == [] && t.syncTable == map[])
        && (forall e :: e in t.entries <==> e in entries && !(target == Everything || target == Only(e.key.operation)))
        && (forall key :: key in t.syncTable <==>
              key in syncFlights && !(target == Everything || target == Only(key.operation)))
        && |t.flights| == |all|
        && forall i | 0 <= i < |all| ::
             if InTable(all[i]) && (target == Everything || target == Only(all[i].key.operation))
             then t.flights[i].cancelled && t.flights[i].eventSet && t.flights[i].error == Some(Invalidated)
             else t.flights[i] == all[i].Now()
    {
      var t := AfterInvalidation(before, target);
      UncoveredIn(before.entries, target);
      if target == Everything {
        NothingIsLeft(before.entries);
      }
      CancelledAt(before, target, |before.flights|);
      forall i | 0 <= i < |all|
        ensures if InTable(all[i]) && (target == Everything || target == Only(all[i].key.operation))
                then t.flights[i].cancelled && t.flights[i].eventSet && t.flights[i].error == Some(Invalidated)
                else t.flights[i] == all[i].Now()
      {
        TableMeansRegistered(all[i]);
        InvalidationAt(before, target, i);
      }
    }
  }
}
