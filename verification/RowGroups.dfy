/**
 The physical row groups of a Parquet source and the continuation cursors a batch stream
 hands out over them. A row group is a sequence of rows, possibly empty. Empty groups are
 skipped by the reader but still counted by the physical position of a cursor.
 */
module RowGroups {
  import opened Wrappers

  type Row(==, !new)
  type Batch = seq<Row>

  /** The shard count and the physical row group that follow an emitted batch. */
  datatype Cursor = Cursor(nextBatch: nat, rowGroup: nat)

  datatype ReadResult = Pairs(pairs: seq<(nat, Batch)>) | NegativeStart | StartPastFooter

  datatype StreamResult = Emitted(batches: seq<(Batch, Cursor)>)
                        | NotMonotone(before: seq<(Batch, Cursor)>)
                        | StreamClosed

  /** The non-empty groups with physical index in `lo..hi`, in order. */
  ghost function NonEmpty(groups: seq<Batch>, lo: nat, hi: nat): seq<(nat, Batch)>
    requires lo <= hi <= |groups|
    decreases hi
  {
    if lo == hi then []
    else if groups[hi - 1] == [] then NonEmpty(groups, lo, hi - 1)
    else NonEmpty(groups, lo, hi - 1) + [(hi - 1, groups[hi - 1])]
  }

  /** How many of the first `n` groups are non-empty: the shard count at physical position `n`. */
  ghost function Count(groups: seq<Batch>, n: nat): nat
    requires n <= |groups|
  {
    |NonEmpty(groups, 0, n)|
  }

  /** The `i`-th shard of a source: its `i`-th non-empty row group. */
  ghost function Shard(groups: seq<Batch>, i: nat): Batch
    requires i < Count(groups, |groups|)
  {
    NonEmpty(groups, 0, |groups|)[i].1
  }

  /** Every row of the first `n` groups, in order. */
  ghost function RowsUpTo(groups: seq<Batch>, n: nat): seq<Row>
    requires n <= |groups|
  {
    if n == 0 then [] else RowsUpTo(groups, n - 1) + groups[n - 1]
  }

  ghost function AllRows(groups: seq<Batch>): seq<Row> {
    RowsUpTo(groups, |groups|)
  }

  /** Batches paired with the cursor of the next unread row group, numbering shards from `first`. */
  ghost function WithCursors(pairs: seq<(nat, Batch)>, first: nat): (r: seq<(Batch, Cursor)>)
    ensures |r| == |pairs|
    ensures forall i | 0 <= i < |pairs| :: r[i] == (pairs[i].1, Cursor(first + i + 1, pairs[i].0 + 1))
  {
    seq(|pairs|, i requires 0 <= i < |pairs| => (pairs[i].1, Cursor(first + i + 1, pairs[i].0 + 1)))
  }

  /** Physical indexes strictly increase, starting at `floor` or later. */
  ghost predicate Ascending(pairs: seq<(nat, Batch)>, floor: nat) {
    var n := |pairs|;
    n > 0 ==> Floor(pairs, floor, n - 1) <= pairs[n - 1].0 && Ascending(pairs[..n - 1], floor)
  }

  ghost function Floor(pairs: seq<(nat, Batch)>, floor: nat, i: nat): nat
    requires i <= |pairs|
  {
    if i == 0 then floor else pairs[i - 1].0 + 1
  }

  /** `ParquetReader.read_batches_from_row_group` over a parsed footer. */
  method ReadBatchesFromRowGroup(groups: seq<Batch>, start: int) returns (r: ReadResult)
    ensures r.NegativeStart? <==> start < 0
    ensures r.StartPastFooter? <==> start > |groups|
    ensures 0 <= start <= |groups| ==> r == Pairs(NonEmpty(groups, start, |groups|))
  {
    if start < 0 {
      return NegativeStart;
    }
    if start > |groups| {
      return StartPastFooter;
    }
    var pairs := [];
    for index := start to |groups|
      invariant pairs == NonEmpty(groups, start, index)
    {
      var batch := groups[index];
      if |batch| > 0 {
        pairs := pairs + [(index, batch)];
      }
    }
    r := Pairs(pairs);
  }

  /** What releasing a resource may raise. */
  type Failure(==, !new)

  /** The positions of the first `n` resources that have a `close`, in order. */
  ghost function Closable(owned: seq<bool>, n: nat): seq<nat>
    requires n <= |owned|
  {
    if n == 0 then [] else if owned[n - 1] then Closable(owned, n - 1) + [n - 1] else Closable(owned, n - 1)
  }

  /** The first failure among the first `n` resources that have a `close`. */
  ghost function FirstFailure(owned: seq<bool>, raises: seq<Option<Failure>>, n: nat): Option<Failure>
    requires n <= |owned| == |raises|
  {
    if n == 0 then None
    else if FirstFailure(owned, raises, n - 1).Some? then FirstFailure(owned, raises, n - 1)
    else if owned[n - 1] then raises[n - 1] else None
  }

  /** Every resource with a `close` is in the list once, and no other. */
  lemma {:induction false} ClosableIsExact(owned: seq<bool>, n: nat)
    requires n <= |owned|
    ensures forall i | 0 <= i < |owned| :: i in Closable(owned, n) <==> i < n && owned[i]
    ensures forall i, j | 0 <= i < j < |Closable(owned, n)| :: Closable(owned, n)[i] < Closable(owned, n)[j]
    ensures forall i | 0 <= i < |Closable(owned, n)| :: Closable(owned, n)[i] < n
  {
    if n > 0 {
      ClosableIsExact(owned, n - 1);
    }
  }

  /** The failure reported is one raised before every other, and there is none exactly when nothing failed. */
  lemma {:induction false} FirstFailureIsFirst(owned: seq<bool>, raises: seq<Option<Failure>>, n: nat)
    requires n <= |owned| == |raises|
    ensures FirstFailure(owned, raises, n).None? <==> forall i | 0 <= i < n && owned[i] :: raises[i].None?
    ensures FirstFailure(owned, raises, n).Some? ==>
              exists i | 0 <= i < n && owned[i] ::
                raises[i] == FirstFailure(owned, raises, n) && forall j | 0 <= j < i && owned[j] :: raises[j].None?
  {
    if n > 0 {
      FirstFailureIsFirst(owned, raises, n - 1);
    }
  }

  class BatchStream {
    const source: seq<(nat, Batch)>
    const startBatch: nat
    const startRowGroup: nat
    // Which of the reader and the closeables handed over, in that order, have a `close`.
    const owned: seq<bool>
    var closed: bool

    // The owned resources whose `close` was called, by position.
    ghost var attempted: seq<nat>

    constructor (source: seq<(nat, Batch)>, startBatch: nat, startRowGroup: nat, owned: seq<bool>)
      ensures this.source == source && this.startBatch == startBatch && this.owned == owned
      ensures this.startRowGroup == startRowGroup && !closed && attempted == []
    {
      this.source, this.startBatch, this.startRowGroup, this.owned := source, startBatch, startRowGroup, owned;
      closed, attempted := false, [];
    }

    /**
     `close`, where `raises[i]` is what closing the i-th owned resource raises: all of them are attempted
     in order whatever fails, the first failure is raised, and a second call does nothing.
     */
    method Close(raises: seq<Option<Failure>>) returns (error: Option<Failure>)
      requires |raises| == |owned|
      modifies this
      ensures closed
      ensures old(closed) ==> error == None && attempted == old(attempted)
      ensures !old(closed) ==> attempted == old(attempted) + Closable(owned, |owned|)
      ensures !old(closed) ==> error == FirstFailure(owned, raises, |owned|)
    {
      if closed {
        return None;
      }
      closed := true;
      error := None;
      for i := 0 to |owned|
        invariant closed && attempted == old(attempted) + Closable(owned, i)
        invariant error == FirstFailure(owned, raises, i)
      {
        if owned[i] {
          attempted := attempted + [i];
          if error.None? {
            error := raises[i];
          }
        }
      }
    }

    /** The indexed form of `iter_batches_with_cursors`, run to its end. */
    method IterBatchesWithCursors() returns (r: StreamResult)
      ensures r.StreamClosed? <==> closed
      ensures r.Emitted? <==> !closed && Ascending(source, startRowGroup)
      ensures r.Emitted? ==> r.batches == WithCursors(source, startBatch)
      ensures r.NotMonotone? ==>
        && |r.before| < |source|
        && r.before == WithCursors(source[..|r.before|], startBatch)
        && Ascending(source[..|r.before|], startRowGroup)
        && !Ascending(source[..|r.before| + 1], startRowGroup)
    {
      if closed {
        return StreamClosed;
      }
      var out: seq<(Batch, Cursor)>, nextBatch := [], startBatch;
      var lastPhysical: int := startRowGroup - 1;
      for i := 0 to |source|
        invariant nextBatch == startBatch + i
        invariant out == WithCursors(source[..i], startBatch)
        invariant lastPhysical == Floor(source, startRowGroup, i) - 1
        invariant Ascending(source[..i], startRowGroup)
      {
        var (physical, batch) := source[i];
        AscendingExtends(source, startRowGroup, i);
        if physical <= lastPhysical {
          return NotMonotone(out);
        }
        out := out + [(batch, Cursor(nextBatch + 1, physical + 1))];
        assert source[..i + 1][..i] == source[..i];
        nextBatch, lastPhysical := nextBatch + 1, physical;
      }
      assert source[..|source|] == source;
      r := Emitted(out);
    }
  }

  lemma {:induction false} AscendingExtends(pairs: seq<(nat, Batch)>, floor: nat, i: nat)
    requires i < |pairs|
    ensures Ascending(pairs[..i + 1], floor) <==>
            Ascending(pairs[..i], floor) && Floor(pairs, floor, i) <= pairs[i].0
    ensures Ascending(pairs, floor) ==> Ascending(pairs[..i + 1], floor)
  {
    assert pairs[..i + 1][..i] == pairs[..i];
    if i + 1 < |pairs| {
      var shorter := pairs[..|pairs| - 1];
      AscendingExtends(shorter, floor, i);
      assert shorter[..i + 1] == pairs[..i + 1];
    } else {
      assert pairs[..i + 1] == pairs;
    }
  }

  // ---------------------------------------------------------------- facts about positions

  lemma {:induction false} NonEmptySplit(groups: seq<Batch>, lo: nat, mid: nat, hi: nat)
    requires lo <= mid <= hi <= |groups|
    ensures NonEmpty(groups, lo, hi) == NonEmpty(groups, lo, mid) + NonEmpty(groups, mid, hi)
    decreases hi
  {
    if mid < hi {
      NonEmptySplit(groups, lo, mid, hi - 1);
    }
  }

  /** Each listed group is non-empty, is the source's own group, and sits inside the range. */
  lemma {:induction false} NonEmptyInRange(groups: seq<Batch>, lo: nat, hi: nat)
    requires lo <= hi <= |groups|
    ensures forall i | 0 <= i < |NonEmpty(groups, lo, hi)| ::
      var p := NonEmpty(groups, lo, hi)[i];
      lo <= p.0 < hi && p.1 == groups[p.0] && p.1 != []
    ensures Ascending(NonEmpty(groups, lo, hi), lo)
    decreases hi
  {
    if lo < hi {
      NonEmptyInRange(groups, lo, hi - 1);
      var all := NonEmpty(groups, lo, hi);
      assert groups[hi - 1] != [] ==> all[..|all| - 1] == NonEmpty(groups, lo, hi - 1);
    }
  }

  /** The shard count at the position just past the `k`-th listed group is `k + 1`. */
  lemma {:induction false} CountAtListed(groups: seq<Batch>, hi: nat, k: nat)
    requires hi <= |groups| && k < Count(groups, hi)
    ensures var p := NonEmpty(groups, 0, hi)[k]; p.0 < hi && Count(groups, p.0) == k && Count(groups, p.0 + 1) == k + 1
    ensures NonEmpty(groups, 0, hi)[k + 1..] == NonEmpty(groups, NonEmpty(groups, 0, hi)[k].0 + 1, hi)
    decreases hi
  {
    var shorter := NonEmpty(groups, 0, hi - 1);
    if k < |shorter| {
      CountAtListed(groups, hi - 1, k);
      NonEmptySplit(groups, shorter[k].0 + 1, hi - 1, hi);
      if groups[hi - 1] != [] {
        assert NonEmpty(groups, 0, hi)[k + 1..] == shorter[k + 1..] + [(hi - 1, groups[hi - 1])];
      }
    }
  }

  lemma {:induction false} CountMonotone(groups: seq<Batch>, lo: nat, hi: nat)
    requires lo <= hi <= |groups|
    ensures Count(groups, lo) <= Count(groups, hi)
    ensures NonEmpty(groups, 0, lo) == NonEmpty(groups, 0, hi)[..Count(groups, lo)]
  {
    NonEmptySplit(groups, 0, lo, hi);
  }

  /** Reading group `n` adds one shard exactly when it is non-empty, and that shard is the group. */
  lemma {:induction false} CountStep(groups: seq<Batch>, n: nat)
    requires n < |groups|
    ensures groups[n] == [] ==> Count(groups, n + 1) == Count(groups, n)
    ensures groups[n] != [] ==>
      && Count(groups, n + 1) == Count(groups, n) + 1 <= Count(groups, |groups|)
      && Shard(groups, Count(groups, n)) == groups[n]
  {
    CountMonotone(groups, n + 1, |groups|);
  }

  /** The rows of all shards, concatenated, are the rows of the source. */
  lemma {:induction false} ShardRows(groups: seq<Batch>, n: nat, shards: seq<Batch>)
    requires n <= |groups| && |shards| == Count(groups, n)
    requires forall i | 0 <= i < |shards| :: shards[i] == NonEmpty(groups, 0, n)[i].1
    ensures Concat(shards) == RowsUpTo(groups, n)
  {
    if n > 0 {
      if groups[n - 1] == [] {
        ShardRows(groups, n - 1, shards);
      } else {
        ShardRows(groups, n - 1, shards[..|shards| - 1]);
      }
    }
  }

  ghost function Concat(shards: seq<Batch>): seq<Row> {
    if shards == [] then [] else Concat(shards[..|shards| - 1]) + shards[|shards| - 1]
  }

  // ---------------------------------------------------------------- cursor splitting

  /** An emitted cursor counts the non-empty groups before its position, and a reader reopened there ascends. */
  lemma {:induction false} CursorCountsShards(groups: seq<Batch>, k: nat, c: Cursor)
    requires k < Count(groups, |groups|) && c == WithCursors(NonEmpty(groups, 0, |groups|), 0)[k].1
    ensures c.rowGroup <= |groups| && c.nextBatch == Count(groups, c.rowGroup) == k + 1
    ensures Ascending(NonEmpty(groups, c.rowGroup, |groups|), c.rowGroup)
  {
    CountAtListed(groups, |groups|, k);
    NonEmptyInRange(groups, c.rowGroup, |groups|);
  }

  /** Restarting at any emitted cursor yields exactly the remaining (batch, cursor) pairs. */
  lemma {:induction false} ResumeAtCursor(groups: seq<Batch>, k: nat, c: Cursor)
    requires k < Count(groups, |groups|) && c == WithCursors(NonEmpty(groups, 0, |groups|), 0)[k].1
    requires c.rowGroup <= |groups|
    ensures WithCursors(NonEmpty(groups, c.rowGroup, |groups|), c.nextBatch)
         == WithCursors(NonEmpty(groups, 0, |groups|), 0)[k + 1..]
  {
    CountAtListed(groups, |groups|, k);
    WithCursorsDrop(NonEmpty(groups, 0, |groups|), 0, k + 1);
  }

  lemma {:induction false} WithCursorsDrop(pairs: seq<(nat, Batch)>, first: nat, k: nat)
    requires k <= |pairs|
    ensures WithCursors(pairs[k..], first + k) == WithCursors(pairs, first)[k..]
  {
  }

  /** The same through the methods: a second reader opened at the cursor continues the first stream. */
  method ReopenAtCursor(groups: seq<Batch>, k: nat) returns (first: StreamResult, second: StreamResult)
    requires k < Count(groups, |groups|)
    ensures first.Emitted? && k < |first.batches|
    ensures second == Emitted(first.batches[k + 1..])
  {
    NonEmptyInRange(groups, 0, |groups|);
    var read := ReadBatchesFromRowGroup(groups, 0);
    var stream := new BatchStream(read.pairs, 0, 0, [true]);
    first := stream.IterBatchesWithCursors();
    var cursor := first.batches[k].1;
    CursorCountsShards(groups, k, cursor);
    ResumeAtCursor(groups, k, cursor);
    var rest := ReadBatchesFromRowGroup(groups, cursor.rowGroup);
    var reopened := new BatchStream(rest.pairs, cursor.nextBatch, cursor.rowGroup, [true]);
    second := reopened.IterBatchesWithCursors();
  }
}
