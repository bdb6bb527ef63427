/** What the value projection makes of a payload: every text in it goes through redaction, masked fields too. */
module ProjectionRedaction {
  import opened RecordProjection
  import opened ProjectionBounds
  import opened ProjectionFaithful
  import opened ProjectionEvidence

  // ---------------------------------------------------------------- any payload, any budget

  predicate IsRedacted(r: Rules, t: string, s: string) {
    t == r.redact(s)
  }

  /** Every text of it, field names included, is what redaction made of some string, or the marker. */
  ghost predicate AllRedacted(r: Rules, j: Json)
    decreases j
  {
    match j
    case Text(t) => t == TRUNCATED || exists s :: IsRedacted(r, t, s)
    case Arr(items) => forall i | 0 <= i < |items| :: AllRedacted(r, items[i])
    case Obj(fields) => forall i | 0 <= i < |fields| :: FieldRedacted(r, fields[i])
    case _ => true
  }

  ghost predicate FieldRedacted(r: Rules, f: Field)
    decreases f
  {
    (f.name == TRUNCATED || exists s :: IsRedacted(r, f.name, s)) && AllRedacted(r, f.value)
  }

  ghost predicate FieldsRedacted(r: Rules, fields: seq<Field>) {
    forall i | 0 <= i < |fields| :: FieldRedacted(r, fields[i])
  }

  lemma {:induction false} PutRedacted(r: Rules, fields: seq<Field>, f: Field)
    requires FieldsRedacted(r, fields) && FieldRedacted(r, f)
    ensures FieldsRedacted(r, Replaced(fields, f)) && FieldsRedacted(r, Put(fields, f))
  {
    if fields != [] && fields[|fields| - 1].name != f.name {
      PutRedacted(r, fields[..|fields| - 1], f);
    }
  }

  lemma {:induction false} NamedRedacted(r: Rules, fields: seq<Field>, outs: seq<Json>)
    requires |outs| <= |fields| && forall i | 0 <= i < |outs| :: AllRedacted(r, outs[i])
    ensures FieldsRedacted(r, Named(r, fields, outs))
  {
    if outs != [] {
      var n := |outs| - 1;
      NamedRedacted(r, fields, outs[..n]);
      assert IsRedacted(r, r.redact(fields[n].name), fields[n].name);
      PutRedacted(r, Named(r, fields, outs[..n]), Field(r.redact(fields[n].name), outs[n]));
    }
  }

  lemma {:induction false} MarkedRedacted(r: Rules, fields: seq<Field>, size: nat)
    requires FieldsRedacted(r, fields)
    ensures FieldsRedacted(r, MarkedFields(fields, size))
  {
    var marker := Field(TRUNCATED, Marker);
    assert FieldRedacted(r, marker);
    PutRedacted(r, fields, marker);
    if |fields| == MAX_ENTRIES {
      PutRedacted(r, fields[..|fields| - 1], marker);
    }
  }

  /** Whatever the payload and the budget, no text reaches a value projection but through redaction. */
  lemma {:induction false} EveryTextIsRedacted(r: Rules, v: Json, budget: nat, depth: nat)
    requires depth <= MAX_DEPTH
    ensures AllRedacted(r, Project(r, v, budget, depth, false).0)
    decreases MAX_DEPTH - depth, 0
  {
    if budget > 0 && depth < MAX_DEPTH {
      if IsContainer(v) {
        var outs := Entries(r, v, 0, budget - 1, depth + 1, false).0;
        EntriesAreRedacted(r, v, 0, budget - 1, depth + 1);
        ContainerIsRedacted(r, v, outs);
      } else if v.Text? {
        assert IsRedacted(r, r.redact(v.text), v.text);
      }
    }
  }

  lemma {:induction false} ContainerIsRedacted(r: Rules, v: Json, outs: seq<Json>)
    requires IsContainer(v) && |outs| <= Size(v) && forall i | 0 <= i < |outs| :: AllRedacted(r, outs[i])
    ensures AllRedacted(r, Assembled(r, v, outs, false))
  {
    if v.Obj? {
      NamedRedacted(r, v.fields, outs);
      MarkedRedacted(r, Named(r, v.fields, outs), Size(v));
    } else {
      assert forall i | 0 <= i < |MarkedItems(outs, Size(v))| :: AllRedacted(r, MarkedItems(outs, Size(v))[i]);
    }
  }

  lemma {:induction false} EntriesAreRedacted(r: Rules, v: Json, i: nat, budget: nat, depth: nat)
    requires IsContainer(v) && depth <= MAX_DEPTH
    ensures forall k | 0 <= k < |Entries(r, v, i, budget, depth, false).0| ::
              AllRedacted(r, Entries(r, v, i, budget, depth, false).0[k])
    decreases MAX_DEPTH - depth, 1, MAX_ENTRIES - i
  {
    if !(i >= Size(v) || i >= MAX_ENTRIES || budget == 0) {
      EveryTextIsRedacted(r, Child(r, v, i, false), budget, depth);
      EntriesAreRedacted(r, v, i + 1, Project(r, Child(r, v, i, false), budget, depth, false).1, depth);
    }
  }

  // ---------------------------------------------------------------- within the limits

  /** An integer of more than 768 binary digits. */
  ghost predicate TooLong(n: int) {
    n >= Power(768) || -n >= Power(768)
  }

  ghost function Power(k: nat): nat {
    if k == 0 then 1 else 2 * Power(k - 1)
  }

  lemma {:induction false} DigitsIff(n: nat, k: nat)
    ensures BitLength(n) <= k <==> n < Power(k)
  {
    if n > 0 && k > 0 {
      DigitsIff(n / 2, k - 1);
    } else if n == 0 {
      PowerIsPositive(k);
    }
  }

  lemma {:induction false} PowerIsPositive(k: nat)
    ensures Power(k) > 0
  {
    if k > 0 {
      PowerIsPositive(k - 1);
    }
  }

  lemma {:induction false} HugeIff(n: int)
    ensures IsHuge(n) <==> TooLong(n)
  {
    DigitsIff(if n < 0 then -n else n, 768);
    PowerIsPositive(768);
  }

  /** Every text and name redacted, every masked value the mask, every long integer the marker, else the same. */
  ghost predicate RedactionOf(r: Rules, out: Json, v: Json)
    decreases v
  {
    match v
    case Text(s) => out == Text(r.redact(s))
    case Int(n) => out == if TooLong(n) then Text("[TRUNCATED]") else v
    case Arr(items) =>
      out.Arr? && |out.items| == |items| && forall i | 0 <= i < |items| :: RedactionOf(r, out.items[i], items[i])
    case Obj(fields) =>
      && out.Obj? && |out.fields| == |fields|
      && forall i | 0 <= i < |fields| ::
           && out.fields[i].name == r.redact(fields[i].name)
           && if r.masks(fields[i].name) then out.fields[i].value == Text(r.redact("***"))
              else RedactionOf(r, out.fields[i].value, fields[i].value)
    case _ => out == v
  }

  /** No two names of a mapping anywhere in it become equal. */
  ghost predicate Unambiguous(r: Rules, v: Json)
    decreases v
  {
    match v
    case Arr(items) => forall i | 0 <= i < |items| :: Unambiguous(r, items[i])
    case Obj(fields) =>
      && (forall i, j | 0 <= i < j < |fields| :: r.redact(fields[i].name) != r.redact(fields[j].name))
      && forall i | 0 <= i < |fields| :: Unambiguous(r, fields[i].value)
    case _ => true
  }

  /** What the i-th entry's output is, once masked or redacted. */
  ghost predicate EntryRedaction(r: Rules, out: Json, v: Json, i: nat)
    requires IsContainer(v) && i < Size(v)
  {
    if v.Obj? && r.masks(v.fields[i].name) then out == Text(r.redact("***"))
    else RedactionOf(r, out, Child(r, v, i, true))
  }

  lemma {:induction false} NamedApart(r: Rules, fields: seq<Field>, outs: seq<Json>)
    requires |outs| <= |fields|
    requires forall i, j | 0 <= i < j < |fields| :: r.redact(fields[i].name) != r.redact(fields[j].name)
    ensures |Named(r, fields, outs)| == |outs|
    ensures forall i | 0 <= i < |outs| :: Named(r, fields, outs)[i] == Field(r.redact(fields[i].name), outs[i])
  {
    if outs != [] {
      var n := |outs| - 1;
      NamedApart(r, fields, outs[..n]);
      NotYetNamed(r, fields, outs[..n]);
    }
  }

  lemma {:induction false} NotYetNamed(r: Rules, fields: seq<Field>, outs: seq<Json>)
    requires |outs| < |fields|
    requires forall i | 0 <= i < |outs| :: r.redact(fields[i].name) != r.redact(fields[|outs|].name)
    ensures !HasName(Named(r, fields, outs), r.redact(fields[|outs|].name))
  {
    NamedHas(r, fields, outs);
    BecomesSome(r, fields, |outs|, r.redact(fields[|outs|].name));
  }

  lemma {:induction false} WholeRedaction(r: Rules, v: Json, outs: seq<Json>)
    requires IsContainer(v) && |outs| == Size(v) && Unambiguous(r, v)
    requires forall i | 0 <= i < |outs| :: EntryRedaction(r, outs[i], v, i)
    ensures RedactionOf(r, Assembled(r, v, outs, false), v)
  {
    if v.Obj? {
      NamedApart(r, v.fields, outs);
      forall i | 0 <= i < |outs| && !r.masks(v.fields[i].name) ensures RedactionOf(r, outs[i], v.fields[i].value) {
        assert EntryRedaction(r, outs[i], v, i);
      }
      forall i | 0 <= i < |outs| && r.masks(v.fields[i].name) ensures outs[i] == Text(r.redact("***")) {
        assert EntryRedaction(r, outs[i], v, i);
      }
    } else {
      forall i | 0 <= i < |outs| ensures RedactionOf(r, outs[i], v.items[i]) {
        assert EntryRedaction(r, outs[i], v, i);
      }
    }
  }

  /**
   Within the limits, whatever is sensitive in it, a payload is projected to its redaction: nothing is left
   out, nothing that redaction or masking takes away remains, and the rest is as it was.
   */
  lemma {:induction false} ProjectsRedaction(r: Rules, v: Json, budget: nat, depth: nat)
    requires depth <= MAX_DEPTH && Small(r, v, MAX_DEPTH - depth) && Unambiguous(r, v)
    requires Weight(r, v, MAX_DEPTH - depth) <= budget
    ensures RedactionOf(r, Project(r, v, budget, depth, false).0, v)
    ensures Project(r, v, budget, depth, false).1 >= budget - Weight(r, v, MAX_DEPTH - depth)
    decreases MAX_DEPTH - depth, 0
  {
    if IsContainer(v) {
      EntriesRedaction(r, v, 0, budget - 1, depth + 1);
      WholeRedaction(r, v, Entries(r, v, 0, budget - 1, depth + 1, false).0);
    } else if v.Int? {
      HugeIff(v.n);
    }
  }

  lemma {:induction false} EntriesRedaction(r: Rules, v: Json, i: nat, budget: nat, depth: nat)
    requires 0 < depth <= MAX_DEPTH && IsContainer(v) && Small(r, v, MAX_DEPTH - depth + 1) && Unambiguous(r, v)
    requires i <= Size(v) && WeightFrom(r, v, i, MAX_DEPTH - depth) <= budget
    ensures var (outs, left) := Entries(r, v, i, budget, depth, false);
      && |outs| == Size(v) - i && left >= budget - WeightFrom(r, v, i, MAX_DEPTH - depth)
      && forall k | 0 <= k < |outs| :: EntryRedaction(r, outs[k], v, i + k)
    decreases MAX_DEPTH - depth, 1, Size(v) - i
  {
    if i < Size(v) {
      SmallChild(r, v, i, MAX_DEPTH - depth + 1);
      WeightIsPositive(r, Child(r, v, i, true), MAX_DEPTH - depth);
      OneRedaction(r, v, i, budget, depth);
      assert WeightFrom(r, v, i, MAX_DEPTH - depth)
          == Weight(r, Child(r, v, i, true), MAX_DEPTH - depth) + WeightFrom(r, v, i + 1, MAX_DEPTH - depth);
      var (out, left) := Project(r, Child(r, v, i, false), budget, depth, false);
      EntriesRedaction(r, v, i + 1, left, depth);
      OneMoreRedaction(r, v, i, budget, depth, out, left);
    }
  }

  lemma {:induction false} OneMoreRedaction(r: Rules, v: Json, i: nat, budget: nat, depth: nat, out: Json, left: nat)
    requires depth <= MAX_DEPTH && IsContainer(v) && i < Size(v) && i < MAX_ENTRIES && budget > 0
    requires Project(r, Child(r, v, i, false), budget, depth, false) == (out, left)
    requires EntryRedaction(r, out, v, i)
    requires var rest := Entries(r, v, i + 1, left, depth, false).0;
      |rest| == Size(v) - i - 1 && forall k | 0 <= k < |rest| :: EntryRedaction(r, rest[k], v, i + 1 + k)
    ensures var (outs, end) := Entries(r, v, i, budget, depth, false);
      && |outs| == Size(v) - i && end == Entries(r, v, i + 1, left, depth, false).1
      && forall k | 0 <= k < |outs| :: EntryRedaction(r, outs[k], v, i + k)
  {
    var rest := Entries(r, v, i + 1, left, depth, false).0;
    assert Entries(r, v, i, budget, depth, false).0 == [out] + rest;
    forall k | 0 <= k <= |rest| ensures EntryRedaction(r, ([out] + rest)[k], v, i + k) {
      if k > 0 {
        assert EntryRedaction(r, rest[k - 1], v, i + 1 + (k - 1));
      }
    }
  }

  lemma {:induction false} OneRedaction(r: Rules, v: Json, i: nat, budget: nat, depth: nat)
    requires 0 < depth <= MAX_DEPTH && IsContainer(v) && i < Size(v) && Unambiguous(r, v)
    requires Small(r, Child(r, v, i, true), MAX_DEPTH - depth)
    requires 0 < Weight(r, Child(r, v, i, true), MAX_DEPTH - depth) <= budget
    ensures EntryRedaction(r, Project(r, Child(r, v, i, false), budget, depth, false).0, v, i)
    ensures Project(r, Child(r, v, i, false), budget, depth, false).1
         >= budget - Weight(r, Child(r, v, i, true), MAX_DEPTH - depth)
    decreases MAX_DEPTH - depth, 1, 0
  {
    if !(v.Obj? && r.masks(v.fields[i].name)) {
      ProjectsRedaction(r, Child(r, v, i, true), budget, depth);
    }
  }
}
