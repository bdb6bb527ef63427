/** The file-backed state store: one file of envelope bytes per key, replaced whole. */
module StateStore {
  import opened Wrappers
  import opened StateCodec
  import Chain = VersionChain

  type Bytes = Chain.Bytes

  datatype StoreError = Invalid(why: StateError) | Corrupt(why: StateError) | NotJson | Conflict | Backend

  /** The version a writer goes on from after its first `k` writes. */
  ghost function LastKnown(first: Option<Bytes>, written: seq<Bytes>, k: nat): Option<Bytes>
    requires k <= |written|
  {
    if k == 0 then first else Some(written[k - 1])
  }

  class FileStateStore {
    const checks: Checks
    const dumps: Json -> Bytes
    const loads: Bytes -> Option<Json>

    var files: map<string, Bytes>

    ghost predicate Valid() {
      forall j :: loads(dumps(j)) == Some(j)
    }

    constructor (checks: Checks, dumps: Json -> Bytes, loads: Bytes -> Option<Json>)
      requires forall j :: loads(dumps(j)) == Some(j)
      ensures Valid() && files == map[] && this.checks == checks && this.dumps == dumps && this.loads == loads
    {
      this.checks, this.dumps, this.loads, files := checks, dumps, loads, map[];
    }

    function Version(key: string): Option<Bytes>
      reads this
    {
      if key in files then Some(files[key]) else None
    }

    /** What the bytes mean to a reader of this key. */
    function Meaning(key: string, raw: Bytes): Result<SyncState, StoreError> {
      if loads(raw).None? then Err(NotJson)
      else
        var decoded := Decode(checks, key, loads(raw).value);
        if decoded.Ok? then Ok(decoded.value) else Err(Corrupt(decoded.error))
    }

    /** State and version come from one read. */
    method GetWithVersion(key: string) returns (r: Result<(Option<SyncState>, Option<Bytes>), StoreError>)
      ensures key !in files ==> r == Ok((None, None))
      ensures key in files ==>
                match Meaning(key, files[key])
                case Ok(s) => r == Ok((Some(s), Some(files[key])))
                case Err(e) => r == Err(e)
    {
      if key !in files {
        return Ok((None, None));
      }
      var raw := files[key];
      var text := loads(raw);
      if text.None? {
        return Err(NotJson);
      }
      var decoded := Decode(checks, key, text.value);
      r := if decoded.Ok? then Ok((Some(decoded.value), Some(raw))) else Err(Corrupt(decoded.error));
    }

    /** `_publish`: the file is replaced whole, or, when the backend fails, left as it was. */
    method Publish(key: string, payload: Bytes, fails: bool) returns (ok: bool)
      modifies this
      ensures ok == !fails && files == if fails then old(files) else old(files)[key := payload]
    {
      ok := !fails;
      if ok {
        files := files[key := payload];
      }
    }

    /**
     Write only over the expected version. Success means the bytes on disk were the expected ones and
     are now the returned ones, from which this key's readers get exactly `state` back. `fails` says
     whether the backend fails to publish.
     */
    method ConditionalPut(key: string, state: SyncState, expected: Option<Bytes>, fails: bool)
      returns (r: Result<Bytes, StoreError>)
      requires Valid()
      modifies this
      ensures r.Ok? ==>
                && Chain.Raw(old(Version(key))) == Chain.Raw(expected)
                && files == old(files)[key := r.value] && Meaning(key, r.value) == Ok(state)
      ensures r.Err? ==> files == old(files)
      ensures r.Ok? <==> Validate(checks, key, state).None? && Chain.Raw(old(Version(key))) == Chain.Raw(expected)
                         && !fails
      ensures Validate(checks, key, state).Some? ==> r == Err(Invalid(Validate(checks, key, state).value))
      ensures r.Err? && r.error.Invalid? ==> Validate(checks, key, state).Some?
      ensures r == Err(Conflict) <==>
                Validate(checks, key, state).None? && Chain.Raw(old(Version(key))) != Chain.Raw(expected)
      ensures r.Err? && !r.error.Invalid? && r != Err(Conflict) ==> r == Err(Backend)
    {
      var invalid := Validate(checks, key, state);
      if invalid.Some? {
        return Err(Invalid(invalid.value));
      }
      RoundTrip(checks, key, state);
      var payload := dumps(Encode(key, state));
      var actual := if key in files then files[key] else [];
      if actual != Chain.Raw(expected) {
        return Err(Conflict);
      }
      var published := Publish(key, payload, fails);
      if !published {
        return Err(Backend);
      }
      r := Ok(payload);
    }

    /** Some other process replaces, or does not replace, the state. */
    method OthersMayWrite(key: string)
      modifies this
    {
      var writes: bool, payload: Bytes := *, *;
      if writes {
        files := files[key := payload];
      }
    }

    /**
     Successive states written by one pass, each over the version the last write returned, while others
     may write in between. It gets through only if what it found each time is what it last knew, and it
     stops at the first state that is invalid, meets other bytes, or meets a backend that fails.
     */
    method PutInTurn(key: string, states: seq<SyncState>, first: Option<Bytes>, fails: nat -> bool)
      returns (r: Result<Option<Bytes>, StoreError>, ghost found: seq<Option<Bytes>>, ghost written: seq<Bytes>)
      requires Valid()
      modifies this
      ensures |found| == |written| <= |states| && (r.Ok? ==> |written| == |states|)
      ensures r.Ok? ==> r.value == LastKnown(first, written, |written|)
      ensures forall k | 0 <= k < |written| :: Followed(key, first, found, written, states, k)
      ensures r.Err? ==> |written| < |states| && Stops(key, states, first, written, fails, r.error)
    {
      var version := first;
      found, written := [], [];
      var i := 0;
      while i < |states|
        invariant i == |found| == |written| <= |states| && version == LastKnown(first, written, i)
        invariant forall k | 0 <= k < i :: Followed(key, first, found, written, states, k)
      {
        OthersMayWrite(key);
        ghost var there := Version(key);
        var put := ConditionalPut(key, states[i], version, fails(i));
        if put.Err? {
          return Err(put.error), found, written;
        }
        Follows(key, first, found, written, states, there, put.value);
        found, written := found + [there], written + [put.value];
        version := Some(put.value);
        i := i + 1;
      }
      r := Ok(version);
    }

    /** Why the write after the last one that got through did not. */
    ghost predicate Stops(key: string, states: seq<SyncState>, first: Option<Bytes>, written: seq<Bytes>,
                          fails: nat -> bool, error: StoreError)
      requires |written| < |states|
      reads this
    {
      var n := |written|;
      if Validate(checks, key, states[n]).Some? then error == Invalid(Validate(checks, key, states[n]).value)
      else if Chain.Raw(Version(key)) != Chain.Raw(LastKnown(first, written, n)) then error == Conflict
      else error == Backend && fails(n)
    }

    /** The k-th write went over the bytes last known and reads back as the k-th state. */
    ghost predicate Followed(key: string, first: Option<Bytes>, found: seq<Option<Bytes>>, written: seq<Bytes>,
                             states: seq<SyncState>, k: nat)
      requires k < |found| == |written| <= |states|
    {
      Chain.Raw(found[k]) == Chain.Raw(LastKnown(first, written, k)) && Meaning(key, written[k]) == Ok(states[k])
    }

    lemma Follows(key: string, first: Option<Bytes>, found: seq<Option<Bytes>>, written: seq<Bytes>,
                  states: seq<SyncState>, there: Option<Bytes>, put: Bytes)
      requires |found| == |written| < |states|
      requires forall k | 0 <= k < |written| :: Followed(key, first, found, written, states, k)
      requires Chain.Raw(there) == Chain.Raw(LastKnown(first, written, |written|))
      requires Meaning(key, put) == Ok(states[|written|])
      ensures forall k | 0 <= k <= |written| :: Followed(key, first, found + [there], written + [put], states, k)
    {
      forall k | 0 <= k <= |written| ensures Followed(key, first, found + [there], written + [put], states, k) {
        if k < |written| {
          assert Followed(key, first, found, written, states, k);
        }
      }
    }

    /** `rm` on the key's file: a missing one is tolerated, anything else may fail. */
    method Remove(key: string, fails: bool) returns (failed: bool)
      modifies this
      ensures failed == fails && (files == old(files) || files == old(files) - {key})
      ensures !failed ==> files == old(files) - {key}
    {
      failed := fails;
      var gone: bool := *;
      if !failed || gone {
        files := files - {key};
      }
    }

    /** A missing file is no error; a backend that fails is one, and may or may not have removed the file. */
    method Delete(key: string, fails: bool) returns (error: Option<StoreError>)
      modifies this
      ensures error == if fails then Some(Backend) else None
      ensures !fails ==> files == old(files) - {key} && Version(key) == None
      ensures fails ==> files == old(files) || files == old(files) - {key}
      ensures forall other | other != key :: Version(other) == old(Version(other))
    {
      var failed := Remove(key, fails);
      error := if failed then Some(Backend) else None;
    }
  }
}
