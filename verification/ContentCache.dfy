/**
 Caches over one directory, their operations run one at a time: together they are a plain map from
 keys to bytes whose entries expire. Sweeps, shared payloads and failed writes do not show. The directory
 may hold rows from before payload naming; what the others' writes and deletions do to them is stated too.
 */
module ContentCache {
  import opened Wrappers
  import opened ContentMachine

  const SWEEP_INTERVAL_SECONDS := 60.0

  /** An entry of the plain map. */
  datatype Stored = Stored(data: Bytes, at: real)

  /** Where a write fails: before the file is in place, or between that and the row. */
  datatype Fault = NoFault | AtFile | AtRow

  class Directory {
    const h: Hash
    const ttl: real
    var files: map<Digest, Bytes>
    var rows: map<Digest, Row>

    ghost var stored: map<Key, Stored>
    ghost var clock: real

    /** Open a directory, empty or left behind by a program that did not name payloads. */
    constructor (h: Hash, ttl: real, files: map<Digest, Bytes>, rows: map<Digest, Row>)
      requires Injective(h) && forall k | k in rows :: rows[k].origin.None? && rows[k].content.None?
      ensures Valid() && stored == map[] && clock == 0.0
      ensures this.ttl == ttl && this.h == h && this.files == files && this.rows == rows
    {
      this.h, this.ttl, this.files, this.rows, stored, clock := h, ttl, files, rows, map[], 0.0;
    }

    ghost predicate Valid()
      reads this
    {
      && Injective(h)
      && (forall key | key in stored :: Held(key))
      && (forall k | k in rows :: Rooted(k))
    }

    /** A row belongs to an entry, or is older than payload naming. */
    ghost predicate Rooted(k: Digest)
      requires k in rows
      reads this
    {
      if rows[k].origin.Some? then rows[k].origin.value.key in stored && RowKey(h, rows[k].origin.value.key) == k
      else rows[k].content.None?
    }

    /** An entry has its row and its file, or has long expired. */
    ghost predicate Held(key: Key)
      requires key in stored
      reads this
    {
      var k, e := RowKey(h, key), stored[key];
      if k in rows then
        && rows[k] == Row(Some(Put(key, e.data)), e.at, true, Some(h.sha(e.data)))
        && h.sha(e.data) in files && files[h.sha(e.data)] == e.data
      else e.at + ttl < clock
    }

    /** A live row from before payload naming answers for the key. */
    ghost predicate Older(key: Key, now: real)
      reads this
    {
      key !in stored && RowKey(h, key) in rows && Live(ttl, rows[RowKey(h, key)], now)
    }

    /** What the plain map answers at a given time; for an older row, the file of its own name. */
    ghost function Lookup(key: Key, now: real): Option<Bytes>
      reads this
    {
      if key in stored && now <= stored[key].at + ttl then Some(stored[key].data)
      else if Older(key, now) && RowKey(h, key) in files then Some(files[RowKey(h, key)])
      else None
    }

    /** A file no newer row names can go; only an older row of that name would miss it. */
    method Remove(name: Digest)
      requires Valid() && !Referenced(rows, name)
      modifies `files
      ensures Valid() && files == old(files) - {name}
      ensures forall key, t ::
                Lookup(key, t) == if RowKey(h, key) == name && Older(key, t) then None else old(Lookup(key, t))
    {
      files := files - {name};
      forall key | key in stored ensures Held(key) {
        assert old(Held(key));
        assert RowKey(h, key) in rows ==> rows[RowKey(h, key)].content != Some(name);
      }
    }

    /** The sweep's transaction. */
    method DropExpired(now: real) returns (known: set<Digest>)
      requires Valid() && clock <= now
      modifies `rows, `clock
      ensures Valid() && clock == now && known == Known(rows) && rows == KeptRows(ttl, old(rows), now)
      ensures forall d | d !in known :: !Referenced(rows, d) && (d in rows ==> rows[d].content.Some?)
      ensures forall key, t | now <= t :: Lookup(key, t) == old(Lookup(key, t))
    {
      rows := KeptRows(ttl, rows, now);
      clock := now;
      known := Known(rows);
      forall key | key in stored ensures Held(key) {
        assert old(Held(key));
      }
    }

    /**
     `_put_internal` from staging to commit: either step may fail and leave every entry as it was. A
     published payload that is the text of an older row's key has taken that row's file name.
     */
    method Write(key: Key, data: Bytes, at: real, fault: Fault) returns (ok: bool)
      requires Valid() && clock <= at
      modifies this
      ensures Valid() && clock == at && ok == fault.NoFault?
      ensures stored == if ok then old(stored)[key := Stored(data, at)] else old(stored)
      ensures forall other, t | other != key || !ok ::
                Lookup(other, t) == old(Overwritten(other, t, !fault.AtFile?, data))
    {
      Tick(at);
      ok := !fault.AtFile?;
      if !ok {
        return;
      }
      Publish(data);
      ok := !fault.AtRow?;
      if ok {
        Commit(key, data, at);
      }
    }

    /** What a lookup answers once `data` may have been published. */
    ghost function Overwritten(key: Key, now: real, published: bool, data: Bytes): Option<Bytes>
      reads this
    {
      if published && Older(key, now) && h.encode(key) == data then Some(data) else Lookup(key, now)
    }

    ghost method Tick(now: real)
      requires Valid() && clock <= now
      modifies `clock
      ensures Valid() && clock == now && forall key, t :: Lookup(key, t) == old(Lookup(key, t))
    {
      clock := now;
      forall key | key in stored ensures Held(key) {
        assert old(Held(key));
      }
    }

    method Publish(data: Bytes)
      requires Valid()
      modifies `files
      ensures Valid() && files == old(files)[h.sha(data) := data]
      ensures forall key, t :: Lookup(key, t) == old(Overwritten(key, t, true, data))
    {
      files := files[h.sha(data) := data];
      forall key | key in stored ensures Held(key) {
        assert old(Held(key));
      }
    }

    method Commit(key: Key, data: Bytes, at: real)
      requires Valid() && h.sha(data) in files && files[h.sha(data)] == data
      modifies `rows, `stored
      ensures Valid() && stored == old(stored)[key := Stored(data, at)]
      ensures forall other, t | other != key :: Lookup(other, t) == old(Lookup(other, t))
    {
      rows := rows[RowKey(h, key) := Row(Some(Put(key, data)), at, true, Some(h.sha(data)))];
      stored := stored[key := Stored(data, at)];
      forall other | other in stored ensures Held(other) {
        if other != key {
          assert old(Held(other));
          assert RowKey(h, other) != RowKey(h, key);
        }
      }
    }

    /** The file that deleting the key would remove. */
    ghost function NameOf(key: Key): Digest
      reads this
    {
      var k := RowKey(h, key);
      if k in rows && rows[k].content.Some? then rows[k].content.value else k
    }

    /** `delete`: the row, then the file if no newer row names it; an older row may lose its file to that. */
    method Delete(key: Key)
      requires Valid()
      modifies this
      ensures Valid() && stored == old(stored) - {key} && clock == old(clock)
      ensures forall t :: Lookup(key, t) == None
      ensures forall other, t | other != key :: Lookup(other, t) ==
                if RowKey(h, other) == old(NameOf(key)) && Older(other, t) && !Referenced(rows, old(NameOf(key))) then
                    None
                else old(Lookup(other, t))
      ensures old(NameOf(key)) in files <==>
                old(NameOf(key) in files) && exists k | k in rows :: rows[k].content == Some(old(NameOf(key)))
      ensures files == old(files) || files == old(files) - {old(NameOf(key))}
    {
      var k := RowKey(h, key);
      var name := if k in rows && rows[k].content.Some? then rows[k].content.value else k;
      Unlink(key);
      if !Referenced(rows, name) && name in files {
        Remove(name);
      }
    }

    method Unlink(key: Key)
      requires Valid()
      modifies `rows, `stored
      ensures Valid() && stored == old(stored) - {key} && RowKey(h, key) !in rows
      ensures forall other, t | other != key ::
                Lookup(other, t) == old(Lookup(other, t)) && Older(other, t) == old(Older(other, t))
    {
      rows := rows - {RowKey(h, key)};
      stored := stored - {key};
      forall other | other in stored ensures Held(other) {
        assert old(Held(other));
        assert RowKey(h, other) != RowKey(h, key);
      }
    }

    /** The row and then the file, as `get` reads them. */
    method Read(key: Key, now: real) returns (data: Option<Bytes>)
      requires Valid() && clock <= now
      ensures data == Lookup(key, now)
    {
      var k := RowKey(h, key);
      if key in stored {
        assert Held(key);
      }
      if k !in rows || !Live(ttl, rows[k], now) {
        return None;
      }
      var name := if rows[k].content.Some? then rows[k].content.value else k;
      data := if name in files then Some(files[name]) else None;
    }
  }

  class Cache {
    const dir: Directory
    var lastSweep: real
    var orphanCandidates: set<Digest>

    constructor (dir: Directory)
      ensures this.dir == dir
    {
      this.dir, lastSweep, orphanCandidates := dir, 0.0, {};
    }

    /** A row of the directory vouches for the file of this name. */
    ghost predicate Vouched(name: Digest)
      reads dir
    {
      exists k | k in dir.rows :: dir.rows[k].content == Some(name) || (dir.rows[k].content.None? && k == name)
    }

    /**
     What a sweep that nothing interrupts leaves: the rows that are neither expired nor stale, the files but
     for those unvouched now and at the last sweep, and as candidates the files unvouched now.
     */
    ghost predicate SweptClean(files: map<Digest, Bytes>, rows: map<Digest, Row>, candidates: set<Digest>, now: real)
      reads this, dir
    {
      && (forall k :: k in dir.rows <==>
            k in rows && rows[k].fetchedAt + (if rows[k].ready then dir.ttl else 300.0) >= now)
      && (forall k | k in dir.rows :: dir.rows[k] == rows[k])
      && (forall name :: name in dir.files <==> name in files && (Vouched(name) || name !in candidates))
      && (forall name | name in dir.files :: dir.files[name] == files[name])
      && (forall name :: name in orphanCandidates <==> name in files && !Vouched(name))
    }

    /** `_maybe_sweep`, which may meet a failure at any point and then simply stops. */
    method MaybeSweep(now: real, fails: bool)
      requires dir.Valid() && dir.clock <= now
      modifies this, dir
      ensures now - old(lastSweep) < 60.0 ==>
                dir.files == old(dir.files) && dir.rows == old(dir.rows)
                && lastSweep == old(lastSweep) && orphanCandidates == old(orphanCandidates)
      ensures now - old(lastSweep) >= 60.0 ==> lastSweep == now
      ensures now - old(lastSweep) >= 60.0 && !fails ==>
                SweptClean(old(dir.files), old(dir.rows), old(orphanCandidates), now)
      ensures dir.Valid() && dir.clock == now && dir.stored == old(dir.stored)
      ensures forall key, t | now <= t :: dir.Lookup(key, t) == old(dir.Lookup(key, t))
      ensures forall name | name in old(dir.files) && name !in dir.files :: name in old(orphanCandidates)
    {
      dir.Tick(now);
      if now - lastSweep < SWEEP_INTERVAL_SECONDS {
        return;
      }
      lastSweep := now;
      var entries := dir.files.Keys;
      var reached: bool := *;
      if fails && !reached {
        return;
      }
      var known := dir.DropExpired(now);
      var candidates := entries - known;
      var stale := candidates * orphanCandidates;
      orphanCandidates := candidates;
      RemoveAll(stale, fails);
      KnownMeansVouched(known);
    }

    lemma KnownMeansVouched(known: set<Digest>)
      requires known == Known(dir.rows)
      ensures forall name :: name in known <==> Vouched(name)
    {
    }

    method RemoveAll(stale: set<Digest>, fails: bool)
      requires dir.Valid()
      requires forall name | name in stale ::
                 !Referenced(dir.rows, name) && (name in dir.rows ==> dir.rows[name].content.Some?)
      modifies dir`files
      ensures dir.Valid() && forall key, t :: dir.Lookup(key, t) == old(dir.Lookup(key, t))
      ensures forall name | name in old(dir.files) && name !in dir.files :: name in stale
      ensures !fails ==> dir.files == old(dir.files) - stale
    {
      var left := stale;
      while left != {}
        invariant dir.Valid() && left <= stale && dir.files == old(dir.files) - (stale - left)
        invariant forall key, t :: dir.Lookup(key, t) == old(dir.Lookup(key, t))
        invariant forall name | name in old(dir.files) && name !in dir.files :: name in stale
        decreases left
      {
        var name :| name in left;
        dir.Remove(name);
        left := left - {name};
        var reached: bool := *;
        if fails && !reached {
          return;
        }
      }
    }

    /** `get`: exactly what the plain map holds and has not expired, as it was before the call. */
    method Get(key: Key, sweepAt: real, now: real, sweepFails: bool) returns (data: Option<Bytes>)
      requires dir.Valid() && dir.clock <= sweepAt <= now
      modifies this, dir
      ensures dir.Valid() && dir.clock == now && dir.stored == old(dir.stored)
      ensures data == old(dir.Lookup(key, now))
      ensures forall other, t | now <= t :: dir.Lookup(other, t) == old(dir.Lookup(other, t))
    {
      MaybeSweep(sweepAt, sweepFails);
      data := dir.Read(key, now);
      dir.Tick(now);
    }

    /** `put` and `put_with_metadata`. */
    method Put(key: Key, data: Bytes, at: real, fault: Fault, sweepAt: real, sweepFails: bool) returns (ok: bool)
      requires dir.Valid() && dir.clock <= at <= sweepAt
      modifies this, dir
      ensures dir.Valid() && at <= dir.clock <= sweepAt && ok == fault.NoFault?
      ensures forall other, t | (other != key || !ok) && sweepAt <= t ::
                dir.Lookup(other, t) == old(dir.Overwritten(other, t, !fault.AtFile?, data))
      ensures dir.stored == if ok then old(dir.stored)[key := Stored(data, at)] else old(dir.stored)
    {
      ok := dir.Write(key, data, at, fault);
      if ok {
        MaybeSweep(sweepAt, sweepFails);
      }
    }

    method Delete(key: Key)
      requires dir.Valid()
      modifies dir
      ensures dir.Valid() && dir.stored == old(dir.stored) - {key} && forall t :: dir.Lookup(key, t) == None
    {
      dir.Delete(key);
    }
  }
}
