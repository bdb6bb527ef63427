/** A payload that is small and clean comes through the projection as it is. */
module ProjectionFaithful {
  import opened RecordProjection

  /** Nothing in it is masked or rewritten, and no container or nesting exceeds a limit. */
  ghost predicate Clean(r: Rules, v: Json, levels: nat)
    decreases levels
  {
    levels > 0 &&
    match v
    case Text(s) => r.redact(s) == s
    case Int(n) => !IsHuge(n)
    case Arr(items) => |items| <= 32 && forall i | 0 <= i < |items| :: Clean(r, items[i], levels - 1)
    case Obj(fields) =>
      && |fields| <= 32 && NamesClean(r, fields)
      && forall i | 0 <= i < |fields| :: Clean(r, fields[i].value, levels - 1)
    case _ => true
  }

  /** Distinct names that redaction leaves alone, none of them masked. */
  ghost predicate NamesClean(r: Rules, fields: seq<Field>) {
    && (forall i, j | 0 <= i < j < |fields| :: fields[i].name != fields[j].name)
    && forall i | 0 <= i < |fields| :: r.redact(fields[i].name) == fields[i].name && !r.masks(fields[i].name)
  }

  /** The nodes of a payload of at most that many levels. */
  ghost function Weight(r: Rules, v: Json, levels: nat): nat
    decreases levels, 0
  {
    if levels == 0 || !IsContainer(v) then 1 else 1 + WeightFrom(r, v, 0, levels - 1)
  }

  /** The nodes of the entries from the i-th on. */
  ghost function WeightFrom(r: Rules, v: Json, i: nat, levels: nat): nat
    requires IsContainer(v)
    decreases levels, 1, Size(v) - i
  {
    if i >= Size(v) then 0 else Weight(r, Child(r, v, i, true), levels) + WeightFrom(r, v, i + 1, levels)
  }

  /** The values of a container from the i-th on. */
  ghost function ValuesFrom(r: Rules, v: Json, i: nat): seq<Json>
    requires IsContainer(v)
    decreases Size(v) - i
  {
    if i >= Size(v) then [] else [Child(r, v, i, true)] + ValuesFrom(r, v, i + 1)
  }

  lemma {:induction false} ValuesAt(r: Rules, v: Json, i: nat)
    requires IsContainer(v) && i <= Size(v)
    ensures |ValuesFrom(r, v, i)| == Size(v) - i
    ensures forall k | 0 <= k < Size(v) - i :: ValuesFrom(r, v, i)[k] == Child(r, v, i + k, true)
    decreases Size(v) - i
  {
    if i < Size(v) {
      ValuesAt(r, v, i + 1);
    }
  }

  lemma {:induction false} NameIsNew(fields: seq<Field>, n: nat, k: nat)
    requires k <= n < |fields| && forall i, j | 0 <= i < j < |fields| :: fields[i].name != fields[j].name
    ensures !HasName(fields[..k], fields[n].name)
  {
    if k > 0 {
      NameIsNew(fields, n, k - 1);
      assert fields[..k][..k - 1] == fields[..k - 1];
    }
  }

  lemma {:induction false} NamedIsFields(r: Rules, fields: seq<Field>, outs: seq<Json>)
    requires NamesClean(r, fields) && |outs| <= |fields| && forall k | 0 <= k < |outs| :: outs[k] == fields[k].value
    ensures Named(r, fields, outs) == fields[..|outs|]
  {
    if outs != [] {
      var n := |outs| - 1;
      NamedIsFields(r, fields, outs[..n]);
      NameIsNew(fields, n, n);
      assert fields[..n] + [fields[n]] == fields[..n + 1];
    }
  }

  lemma {:induction false} CleanChild(r: Rules, v: Json, i: nat, levels: nat)
    requires Clean(r, v, levels) && IsContainer(v) && i < Size(v)
    ensures levels > 0 && Child(r, v, i, false) == Child(r, v, i, true) && Clean(r, Child(r, v, i, true), levels - 1)
    ensures Size(v) <= 32
  {
  }

  /** With budget enough a clean payload is projected to itself, at the price of its nodes. */
  lemma {:induction false} CleanIsUnchanged(r: Rules, v: Json, budget: nat, depth: nat)
    requires depth <= MAX_DEPTH && Clean(r, v, MAX_DEPTH - depth) && Weight(r, v, MAX_DEPTH - depth) <= budget
    ensures Project(r, v, budget, depth, false) == (v, budget - Weight(r, v, MAX_DEPTH - depth))
    decreases MAX_DEPTH - depth, 0
  {
    if IsContainer(v) {
      EntriesUnchanged(r, v, 0, budget - 1, depth + 1);
      WholeContainer(r, v, Entries(r, v, 0, budget - 1, depth + 1, false).0);
    }
  }

  lemma {:induction false} WholeContainer(r: Rules, v: Json, outs: seq<Json>)
    requires IsContainer(v) && outs == ValuesFrom(r, v, 0) && (v.Obj? ==> NamesClean(r, v.fields))
    ensures |outs| == Size(v) && Assembled(r, v, outs, false) == v
  {
    ValuesAt(r, v, 0);
    if v.Obj? {
      NamedIsFields(r, v.fields, outs);
      assert v.fields[..|outs|] == v.fields;
    } else {
      assert outs == v.items;
    }
  }

  lemma {:induction false} EntriesUnchanged(r: Rules, v: Json, i: nat, budget: nat, depth: nat)
    requires 0 < depth <= MAX_DEPTH && IsContainer(v) && Clean(r, v, MAX_DEPTH - depth + 1) && i <= Size(v)
    requires WeightFrom(r, v, i, MAX_DEPTH - depth) <= budget
    ensures Entries(r, v, i, budget, depth, false)
        == (ValuesFrom(r, v, i), budget - WeightFrom(r, v, i, MAX_DEPTH - depth))
    decreases MAX_DEPTH - depth, 1, Size(v) - i
  {
    if i < Size(v) {
      var child := Child(r, v, i, true);
      CleanChild(r, v, i, MAX_DEPTH - depth + 1);
      WeightIsPositive(r, child, MAX_DEPTH - depth);
      CleanIsUnchanged(r, child, budget, depth);
      EntriesUnchanged(r, v, i + 1, budget - Weight(r, child, MAX_DEPTH - depth), depth);
      OneEntry(r, v, i, budget, depth, budget - Weight(r, child, MAX_DEPTH - depth));
    }
  }

  lemma {:induction false} OneEntry(r: Rules, v: Json, i: nat, budget: nat, depth: nat, left: nat)
    requires depth <= MAX_DEPTH && IsContainer(v) && i < Size(v) && i < MAX_ENTRIES && budget > 0
    requires Child(r, v, i, false) == Child(r, v, i, true)
    requires Project(r, Child(r, v, i, true), budget, depth, false) == (Child(r, v, i, true), left)
    ensures Entries(r, v, i, budget, depth, false) ==
              ([Child(r, v, i, true)] + Entries(r, v, i + 1, left, depth, false).0,
               Entries(r, v, i + 1, left, depth, false).1)
  {
  }

  lemma {:induction false} WeightIsPositive(r: Rules, v: Json, levels: nat)
    ensures Weight(r, v, levels) > 0
  {
  }

  /** A record payload of at most 256 clean nodes within the limits is retained unchanged. */
  lemma {:induction false} SmallPayloadIsRetained(r: Rules, v: Json, budget: nat, depth: nat)
    requires budget == MAX_NODES && depth == 0 && Clean(r, v, 8) && Weight(r, v, 8) <= 256
    ensures Project(r, v, budget, depth, false).0 == v
  {
    CleanIsUnchanged(r, v, budget, depth);
  }
}
