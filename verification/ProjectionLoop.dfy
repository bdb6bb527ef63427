/** The projection as it runs: a recursion that spends one shared budget and collects entries in a loop. */
module ProjectionLoop {
  import opened RecordProjection

  class Budget {
    var left: nat

    constructor (left: nat)
      ensures this.left == left
    {
      this.left := left;
    }
  }

  /** `_record_projection`. */
  method ProjectRecord(r: Rules, v: Json, budget: Budget, depth: nat, structural: bool) returns (out: Json)
    requires depth <= MAX_DEPTH
    modifies budget
    ensures (out, budget.left) == Project(r, v, old(budget.left), depth, structural)
    decreases MAX_DEPTH - depth, 0
  {
    if budget.left == 0 || depth >= MAX_DEPTH {
      return Marker;
    }
    budget.left := budget.left - 1;
    if IsContainer(v) {
      out := ProjectContainer(r, v, budget, depth, structural);
    } else if structural {
      out := Text(StructuralScalar(v));
    } else if v.Text? {
      out := Text(r.redact(v.text));
    } else if v.Int? && IsHuge(v.n) {
      out := Marker;
    } else {
      out := v;
    }
  }

  /** `_container_projection`, after the container's own node is paid for. */
  method ProjectContainer(r: Rules, v: Json, budget: Budget, depth: nat, structural: bool) returns (out: Json)
    requires depth < MAX_DEPTH && IsContainer(v)
    modifies budget
    ensures var (outs, left) := Entries(r, v, 0, old(budget.left), depth + 1, structural);
      out == Assembled(r, v, outs, structural) && budget.left == left
    decreases MAX_DEPTH - depth - 1, 2
  {
    var outs, fields := ProjectEntries(r, v, budget, depth + 1, structural);
    if structural {
      var marked := MarkItems(outs, Size(v));
      return Obj([Field("type", Text(if v.Obj? then "object" else "array")), Field("size", Int(Size(v))),
                  Field("entries", Arr(marked))]);
    }
    if v.Arr? {
      var marked := MarkItems(outs, Size(v));
      return Arr(marked);
    }
    var marked := MarkFields(fields, Size(v));
    out := Obj(marked);
  }

  /** The loop over the first 32 entries: a list, and for a mapping in value mode a dictionary. */
  method ProjectEntries(r: Rules, v: Json, budget: Budget, depth: nat, structural: bool)
    returns (outs: seq<Json>, fields: seq<Field>)
    requires depth <= MAX_DEPTH && IsContainer(v)
    modifies budget
    ensures (outs, budget.left) == Entries(r, v, 0, old(budget.left), depth, structural)
    ensures v.Obj? && !structural ==> |outs| <= |v.fields| && fields == Named(r, v.fields, outs)
    decreases MAX_DEPTH - depth, 1
  {
    outs, fields := [], [];
    var i := 0;
    Starts(r, v, budget.left, depth, structural);
    while i < Size(v) && i < MAX_ENTRIES && budget.left > 0
      invariant i == |outs| <= Size(v)
      invariant Continues(r, v, old(budget.left), outs, budget.left, depth, structural)
      invariant v.Obj? && !structural ==> fields == Named(r, v.fields, outs)
      decreases Size(v) - i
    {
      GoesOn(r, v, old(budget.left), outs, budget.left, depth, structural);
      var out := ProjectRecord(r, Child(r, v, i, structural), budget, depth, structural);
      if v.Obj? && !structural {
        NamedGrows(r, v.fields, outs, out);
        fields := Put(fields, Field(r.redact(v.fields[i].name), out));
      }
      outs := outs + [out];
      i := i + 1;
    }
    assert outs + [] == outs;
  }

  /** What is collected so far, followed by the entries to come, is all the entries. */
  ghost predicate Continues(r: Rules, v: Json, first: nat, outs: seq<Json>, left: nat, depth: nat, structural: bool)
    requires IsContainer(v) && depth <= MAX_DEPTH
  {
    var (rest, end) := Entries(r, v, |outs|, left, depth, structural);
    Entries(r, v, 0, first, depth, structural) == (outs + rest, end)
  }

  lemma {:induction false} NamedGrows(r: Rules, fields: seq<Field>, outs: seq<Json>, out: Json)
    requires |outs| < |fields|
    ensures Named(r, fields, outs + [out]) == Put(Named(r, fields, outs), Field(r.redact(fields[|outs|].name), out))
  {
    assert (outs + [out])[..|outs|] == outs;
  }

  lemma {:induction false} Starts(r: Rules, v: Json, first: nat, depth: nat, structural: bool)
    requires IsContainer(v) && depth <= MAX_DEPTH
    ensures Continues(r, v, first, [], first, depth, structural)
  {
    assert [] + Entries(r, v, 0, first, depth, structural).0 == Entries(r, v, 0, first, depth, structural).0;
  }

  lemma {:induction false} GoesOn(r: Rules, v: Json, first: nat, outs: seq<Json>, left: nat, depth: nat,
                                  structural: bool)
    requires IsContainer(v) && depth <= MAX_DEPTH && |outs| < Size(v) && |outs| < MAX_ENTRIES && left > 0
    requires Continues(r, v, first, outs, left, depth, structural)
    ensures var (out, next) := Project(r, Child(r, v, |outs|, structural), left, depth, structural);
      Continues(r, v, first, outs + [out], next, depth, structural)
  {
    var (out, next) := Project(r, Child(r, v, |outs|, structural), left, depth, structural);
    var rest := Entries(r, v, |outs| + 1, next, depth, structural).0;
    assert outs + ([out] + rest) == (outs + [out]) + rest;
  }

  /** `_mark_truncation` on a list. */
  method MarkItems(outs: seq<Json>, size: nat) returns (marked: seq<Json>)
    ensures marked == MarkedItems(outs, size)
  {
    marked := outs;
    if |marked| >= size {
      return;
    }
    if |marked| == MAX_ENTRIES {
      marked := marked[..|marked| - 1];
    }
    marked := marked + [Marker];
  }

  /** `_mark_truncation` on a dictionary. */
  method MarkFields(fields: seq<Field>, size: nat) returns (marked: seq<Field>)
    ensures marked == MarkedFields(fields, size)
  {
    marked := fields;
    if |marked| >= size {
      return;
    }
    if |marked| == MAX_ENTRIES {
      marked := marked[..|marked| - 1];
    }
    marked := Put(marked, Field(TRUNCATED, Marker));
  }
}
