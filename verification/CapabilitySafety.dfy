/** Single flight, no forgotten follower, and no stale entry, over every interleaving. */
module CapabilitySafety {
  import opened Wrappers
  import opened CapabilityMachine

  // ---------------------------------------------------------------- the entry list

  ghost predicate Distinct(entries: seq<Entry>) {
    forall i, j | 0 <= i < j < |entries| :: entries[i].key != entries[j].key
  }

  lemma {:induction false} WithoutKeyIn(entries: seq<Entry>, key: Key)
    ensures forall e :: e in WithoutKey(entries, key) <==> e in entries && e.key != key
    ensures |WithoutKey(entries, key)| <= |entries|
    ensures Distinct(entries) ==> Distinct(WithoutKey(entries, key))
  {
    if entries != [] {
      var front := entries[..|entries| - 1];
      assert entries == front + [entries[|entries| - 1]];
      WithoutKeyIn(front, key);
    }
  }

  lemma {:induction false} UncoveredIn(entries: seq<Entry>, target: Target)
    ensures forall e :: e in Uncovered(entries, target) <==> e in entries && !Covers(target, e.key)
    ensures |Uncovered(entries, target)| <= |entries|
    ensures Distinct(entries) ==> Distinct(Uncovered(entries, target))
  {
    if entries != [] {
      var front := entries[..|entries| - 1];
      assert entries == front + [entries[|entries| - 1]];
      UncoveredIn(front, target);
    }
  }

  lemma {:induction false} YoungIn(entries: seq<Entry>, now: real, ttl: real)
    ensures forall e :: e in Young(entries, now, ttl) <==> e in entries && now - e.timestamp <= 2.0 * ttl
    ensures |Young(entries, now, ttl)| <= |entries|
    ensures Distinct(entries) ==> Distinct(Young(entries, now, ttl))
  {
    if entries != [] {
      var front := entries[..|entries| - 1];
      assert entries == front + [entries[|entries| - 1]];
      YoungIn(front, now, ttl);
    }
  }

  lemma {:induction false} FindIn(entries: seq<Entry>, key: Key)
    ensures Find(entries, key).None? <==> forall e | e in entries :: e.key != key
    ensures Find(entries, key).Some? ==> Find(entries, key).value in entries && Find(entries, key).value.key == key
  {
    if entries != [] {
      var front := entries[..|entries| - 1];
      assert entries == front + [entries[|entries| - 1]];
      FindIn(front, key);
    }
  }

  lemma {:induction false} RoomFacts(others: seq<Entry>, now: real, ttl: real)
    requires |others| <= MAX_ENTRIES
    ensures |Room(others, now, ttl)| < MAX_ENTRIES
    ensures forall e | e in Room(others, now, ttl) :: e in others
    ensures Distinct(others) ==> Distinct(Room(others, now, ttl))
  {
    YoungIn(others, now, ttl);
  }

  /**
   Storing replaces the key's entry and keeps the cache within bounds. Others are dropped only when it
   is full: then the long expired ones, or failing those the one inserted first.
   */
  lemma {:induction false} StoredFacts(entries: seq<Entry>, e: Entry, ttl: real)
    requires |entries| <= MAX_ENTRIES && Distinct(entries)
    ensures var t := Stored(entries, e, ttl);
      && |t| <= 1024 && Distinct(t) && e in t && Find(t, e.key) == Some(e)
      && (forall x | x in t :: x == e || (x in entries && x.key != e.key))
      && (|WithoutKey(entries, e.key)| < 1024 ==> forall x | x in entries && x.key != e.key :: x in t)
      && (forall x | x in entries && x.key != e.key && x !in t ::
            e.timestamp - x.timestamp > 2.0 * ttl || x == WithoutKey(entries, e.key)[0])
  {
    var others := WithoutKey(entries, e.key);
    WithoutKeyIn(entries, e.key);
    RoomFacts(others, e.timestamp, ttl);
    DroppedFacts(others, e.timestamp, ttl);
  }

  /** What making room drops. */
  lemma {:induction false} DroppedFacts(others: seq<Entry>, now: real, ttl: real)
    requires |others| <= MAX_ENTRIES
    ensures forall x | x in others && x !in Room(others, now, ttl) ::
              |others| == MAX_ENTRIES && (now - x.timestamp > 2.0 * ttl || x == others[0])
  {
    YoungIn(others, now, ttl);
    var young := Young(others, now, ttl);
    if |young| == MAX_ENTRIES {
      AllYoung(others, now, ttl);
      assert others == [others[0]] + others[1..];
    }
  }

  lemma {:induction false} YoungShrinks(entries: seq<Entry>, now: real, ttl: real)
    ensures |Young(entries, now, ttl)| <= |entries|
  {
    if entries != [] {
      YoungShrinks(entries[..|entries| - 1], now, ttl);
    }
  }

  lemma {:induction false} AllYoung(entries: seq<Entry>, now: real, ttl: real)
    requires |Young(entries, now, ttl)| == |entries|
    ensures Young(entries, now, ttl) == entries
  {
    if entries != [] {
      var front := entries[..|entries| - 1];
      YoungShrinks(front, now, ttl);
      AllYoung(front, now, ttl);
      assert entries == front + [entries[|entries| - 1]];
    }
  }

  // ---------------------------------------------------------------- the invariant

  /** No invalidation from the `from`-th on covers the key. */
  ghost predicate ClearSince(invalidations: seq<Target>, from: nat, key: Key) {
    from <= |invalidations| && forall j | from <= j < |invalidations| :: !Covers(invalidations[j], key)
  }

  /** A flight is in its table exactly while its leader runs uncancelled; out of it, its followers are released. */
  ghost predicate SoundFlight(s: State, i: nat)
    requires i < |s.flights|
  {
    var f := s.flights[i];
    && (IsRegistered(s, i) <==> f.led && !f.cancelled)
    && (f.kind.Sync? ==> SoundSync(f))
    && f.born <= |s.invalidations|
    && (IsRegistered(s, i) ==> ClearSince(s.invalidations, f.born, f.key))
  }

  predicate SoundSync(f: Flight) {
    && (f.eventSet <==> f.cancelled || !f.led)
    && (f.eventSet ==> f.profile.Some? || f.error.Some?) && (f.led ==> f.profile.None?)
    && (f.led ==> f.error == if f.cancelled then Some(Invalidated) else None)
    && (f.cancelled ==> f.error.Some? && f.profile.None?)
  }

  ghost predicate SoundTable(flights: seq<Flight>, table: map<Key, nat>, kind: Kind) {
    forall key | key in table :: table[key] < |flights| && flights[table[key]].key == key
      && flights[table[key]].kind == kind
  }

  /** An entry was stored after the last invalidation of its key, and so was its probe's flight born. */
  ghost predicate SoundEntry(flights: seq<Flight>, invalidations: seq<Target>, e: Entry) {
    && ClearSince(invalidations, e.since, e.key)
    && (e.origin.Probed? ==> ProbedBy(flights, invalidations, e))
  }

  ghost predicate ProbedBy(flights: seq<Flight>, invalidations: seq<Target>, e: Entry)
    requires e.origin.Probed?
  {
    && e.origin.flight < |flights|
    && var f := flights[e.origin.flight];
       f.key == e.key && ClearSince(invalidations, f.born, e.key) && f.profile == Some(e.profile) && !f.cancelled
       && !f.led
  }

  ghost predicate FlightsSound(s: State) {
    && SoundTable(s.flights, s.syncTable, Sync) && SoundTable(s.flights, s.asyncTable, Async)
    && forall i | 0 <= i < |s.flights| :: SoundFlight(s, i)
  }

  ghost predicate EntriesSound(s: State) {
    && Distinct(s.entries) && |s.entries| <= MAX_ENTRIES
    && forall e | e in s.entries :: SoundEntry(s.flights, s.invalidations, e)
  }

  ghost predicate Inv(s: State) {
    FlightsSound(s) && EntriesSound(s)
  }

  // ---------------------------------------------------------------- flights, step by step

  lemma {:induction false} RegisterKeepsFlights(s: State, kind: Kind, key: Key)
    requires FlightsSound(s)
    ensures FlightsSound(Registered(s, kind, key))
  {
    var t := Registered(s, kind, key);
    forall i | 0 <= i < |t.flights| ensures SoundFlight(t, i) {
      if i < |s.flights| {
        assert SoundFlight(s, i);
      }
    }
  }

  /** Ending flight `i` leaves the others registered as they were. */
  lemma {:induction false} DiscardFacts(s: State, i: nat)
    requires FlightsSound(s) && i < |s.flights|
    ensures var t := Discarded(s, i);
      && t.flights == s.flights && t.entries == s.entries && t.invalidations == s.invalidations
      && SoundTable(t.flights, t.syncTable, Sync) && SoundTable(t.flights, t.asyncTable, Async)
      && !IsRegistered(t, i) && forall j | 0 <= j < |s.flights| && j != i :: IsRegistered(t, j) == IsRegistered(s, j)
  {
  }

  /** A leader's end: same flight apart from its result. */
  ghost predicate Ended(s: State, t: State, i: nat) {
    && i < |s.flights| && s.flights[i].led
    && |t.flights| == |s.flights| && t.flights == s.flights[i := t.flights[i]]
    && t.syncTable == Discarded(s, i).syncTable && t.asyncTable == Discarded(s, i).asyncTable
    && t.invalidations == s.invalidations
    && var f, g := s.flights[i], t.flights[i];
       g.kind == f.kind && g.key == f.key && g.born == f.born && g.cancelled == f.cancelled && !g.led
  }

  lemma {:induction false} EndKeepsFlights(s: State, t: State, i: nat)
    requires FlightsSound(s) && Ended(s, t, i)
    requires t.flights[i].kind.Sync? ==> SoundSync(t.flights[i])
    ensures FlightsSound(t)
  {
    DiscardFacts(s, i);
    forall j | 0 <= j < |t.flights| ensures SoundFlight(t, j) {
      assert SoundFlight(s, j);
      assert IsRegistered(t, j) == IsRegistered(Discarded(s, i), j);
    }
  }

  lemma {:induction false} CompleteKeepsFlights(ttl: real, s: State, i: nat, profile: Profile, at: real)
    requires FlightsSound(s) && i < |s.flights| && s.flights[i].led
    ensures Ended(s, Completed(ttl, s, i, profile, at), i)
    ensures FlightsSound(Completed(ttl, s, i, profile, at))
  {
    assert SoundFlight(s, i);
    EndKeepsFlights(s, Completed(ttl, s, i, profile, at), i);
  }

  lemma {:induction false} FailKeepsFlights(s: State, i: nat)
    requires FlightsSound(s) && i < |s.flights| && s.flights[i].led
    ensures Ended(s, Failed(s, i), i) && FlightsSound(Failed(s, i))
  {
    assert SoundFlight(s, i);
    EndKeepsFlights(s, Failed(s, i), i);
  }

  lemma {:induction false} CancelledAt(s: State, target: Target, n: nat)
    requires n <= |s.flights|
    ensures |AllCancelled(s, target, n)| == n
    ensures forall i | 0 <= i < n :: AllCancelled(s, target, n)[i] ==
              if IsRegistered(s, i) && Covers(target, s.flights[i].key) then Cancelled(s.flights[i]) else s.flights[i]
  {
    if n > 0 {
      CancelledAt(s, target, n - 1);
    }
  }

  lemma {:induction false} InvalidateKeepsFlight(s: State, target: Target, i: nat)
    requires FlightsSound(s) && i < |s.flights|
    ensures |AllCancelled(s, target, |s.flights|)| == |s.flights|
    ensures SoundFlight(AfterInvalidation(s, target), i)
  {
    CancelledAt(s, target, |s.flights|);
    assert SoundFlight(s, i);
  }

  lemma {:induction false} InvalidateKeepsFlights(s: State, target: Target)
    requires FlightsSound(s)
    ensures FlightsSound(AfterInvalidation(s, target))
  {
    CancelledAt(s, target, |s.flights|);
    forall i | 0 <= i < |s.flights| ensures SoundFlight(AfterInvalidation(s, target), i) {
      InvalidateKeepsFlight(s, target, i);
    }
  }

  // ---------------------------------------------------------------- entries, step by step

  lemma {:induction false} LookupKeepsEntries(ttl: real, s: State, key: Key, now: real)
    requires EntriesSound(s)
    ensures EntriesSound(s.(entries := LookedUp(s.entries, key, now, ttl).0))
  {
    WithoutKeyIn(s.entries, key);
  }

  lemma {:induction false} StoreKeepsEntries(ttl: real, s: State, flights: seq<Flight>, e: Entry)
    requires EntriesSound(s) && SoundEntry(flights, s.invalidations, e)
    requires forall x | x in s.entries :: SoundEntry(flights, s.invalidations, x)
    ensures EntriesSound(s.(flights := flights, entries := Stored(s.entries, e, ttl)))
  {
    StoredFacts(s.entries, e, ttl);
  }

  /** Entries survive a change of flights that leaves the ended, uncancelled ones alone. */
  lemma {:induction false} EntriesSurvive(s: State, flights: seq<Flight>)
    requires EntriesSound(s) && |s.flights| <= |flights|
    requires forall i | 0 <= i < |s.flights| && !s.flights[i].led :: flights[i] == s.flights[i]
    ensures forall e | e in s.entries :: SoundEntry(flights, s.invalidations, e)
  {
    forall e | e in s.entries ensures SoundEntry(flights, s.invalidations, e) {
      assert SoundEntry(s.flights, s.invalidations, e);
    }
  }

  lemma {:induction false} CompleteKeepsEntries(ttl: real, s: State, i: nat, profile: Profile, at: real)
    requires Inv(s) && i < |s.flights| && s.flights[i].led
    ensures EntriesSound(Completed(ttl, s, i, profile, at))
  {
    var t := Completed(ttl, s, i, profile, at);
    assert SoundFlight(s, i);
    EntriesSurvive(s, t.flights);
    if !s.flights[i].cancelled {
      StoreKeepsEntries(ttl, s, t.flights, Entry(s.flights[i].key, profile, at, Probed(i), |s.invalidations|));
    }
  }

  lemma {:induction false} InvalidateKeepsEntries(s: State, target: Target)
    requires Inv(s)
    ensures EntriesSound(AfterInvalidation(s, target))
  {
    var t := AfterInvalidation(s, target);
    UncoveredIn(s.entries, target);
    CancelledAt(s, target, |s.flights|);
    forall i | 0 <= i < |s.flights| && !s.flights[i].led ensures t.flights[i] == s.flights[i] {
      assert SoundFlight(s, i);
    }
    EntriesSurvive(s, t.flights);
    forall e | e in t.entries ensures SoundEntry(t.flights, t.invalidations, e) {
      assert SoundEntry(t.flights, s.invalidations, e);
    }
  }

  // ---------------------------------------------------------------- every step, every run

  lemma {:induction false} StepKeepsFlights(ttl: real, s: State, step: Step, t: State)
    requires FlightsSound(s) && Apply(ttl, step, s) == Some(t)
    ensures FlightsSound(t)
  {
    match step
    case Register(kind, key) => RegisterKeepsFlights(s, kind, key);
    case Complete(i, profile, at) => CompleteKeepsFlights(ttl, s, i, profile, at);
    case Fail(i) => FailKeepsFlights(s, i);
    case Invalidate(target) => InvalidateKeepsFlights(s, target);
    case _ =>
      forall i | 0 <= i < |t.flights| ensures SoundFlight(t, i) {
        assert SoundFlight(s, i);
      }
  }

  lemma {:induction false} StepKeepsEntries(ttl: real, s: State, step: Step, t: State)
    requires Inv(s) && Apply(ttl, step, s) == Some(t)
    ensures EntriesSound(t)
  {
    match step
    case Lookup(key, now) => LookupKeepsEntries(ttl, s, key, now);
    case Register(kind, key) => EntriesSurvive(s, t.flights);
    case Complete(i, profile, at) => CompleteKeepsEntries(ttl, s, i, profile, at);
    case Fail(i) => EntriesSurvive(s, t.flights);
    case Invalidate(target) => InvalidateKeepsEntries(s, target);
    case Record(key, profile, now) =>
      StoreKeepsEntries(ttl, s, s.flights, Entry(key, profile, now, Recorded, |s.invalidations|));
  }

  lemma {:induction false} RunKeepsInv(ttl: real, steps: seq<Step>)
    requires Run(ttl, steps, Empty).Some?
    ensures Inv(Run(ttl, steps, Empty).value)
  {
    if steps != [] {
      var s, t := Run(ttl, steps[..|steps| - 1], Empty).value, Run(ttl, steps, Empty).value;
      RunKeepsInv(ttl, steps[..|steps| - 1]);
      StepKeepsFlights(ttl, s, steps[|steps| - 1], t);
      StepKeepsEntries(ttl, s, steps[|steps| - 1], t);
    }
  }
}
