/** The evidence of a payload within the limits tells its shape, all of it and nothing else. */
module ProjectionEvidence {
  import opened RecordProjection
  import opened ProjectionBounds
  import opened ProjectionFaithful

  /** No container or nesting exceeds a limit. */
  ghost predicate Small(r: Rules, v: Json, levels: nat)
    decreases levels
  {
    levels > 0
    && (IsContainer(v) ==> Size(v) <= 32 && forall i | 0 <= i < Size(v) ::
        Small(r, Child(r, v, i, true), levels - 1))
  }

  /** All that the evidence says of a single value. */
  ghost function KindOf(v: Json): string {
    match v
    case Null => "null"
    case Bool(_) => "boolean"
    case Int(_) => "integer"
    case Number(_) => "number"
    case Text(_) => "string"
    case Arr(_) => "array"
    case Obj(_) => "object"
  }

  /** The shape of a payload, spelled out. */
  ghost function Evidence(r: Rules, v: Json, levels: nat): Json
    decreases levels, 0
  {
    if levels == 0 || !IsContainer(v) then Text(KindOf(v))
    else Obj([Field("type", Text(KindOf(v))), Field("size", Int(Size(v))),
              Field("entries", Arr(EvidenceFrom(r, v, 0, levels - 1)))])
  }

  ghost function EvidenceFrom(r: Rules, v: Json, i: nat, levels: nat): seq<Json>
    requires IsContainer(v)
    decreases levels, 1, Size(v) - i
  {
    if i >= Size(v) then [] else [Evidence(r, Child(r, v, i, true), levels)] + EvidenceFrom(r, v, i + 1, levels)
  }

  lemma {:induction false} EvidenceAt(r: Rules, v: Json, i: nat, levels: nat)
    requires IsContainer(v) && i <= Size(v)
    ensures |EvidenceFrom(r, v, i, levels)| == Size(v) - i
    ensures forall k | 0 <= k < Size(v) - i ::
              EvidenceFrom(r, v, i, levels)[k] == Evidence(r, Child(r, v, i + k, true), levels)
    decreases Size(v) - i
  {
    if i < Size(v) {
      EvidenceAt(r, v, i + 1, levels);
    }
  }

  lemma {:induction false} SmallChild(r: Rules, v: Json, i: nat, levels: nat)
    requires Small(r, v, levels) && IsContainer(v) && i < Size(v)
    ensures levels > 0 && Size(v) <= 32 && Small(r, Child(r, v, i, true), levels - 1)
  {
  }

  lemma {:induction false} WholeEvidence(r: Rules, v: Json, outs: seq<Json>, levels: nat)
    requires levels > 0 && IsContainer(v) && outs == EvidenceFrom(r, v, 0, levels - 1)
    ensures |outs| == Size(v) && Assembled(r, v, outs, true) == Evidence(r, v, levels)
  {
    EvidenceAt(r, v, 0, levels - 1);
  }

  /** With budget enough the structural projection of a small payload is its evidence. */
  lemma {:induction false} ProjectsEvidence(r: Rules, v: Json, budget: nat, depth: nat)
    requires depth <= MAX_DEPTH && Small(r, v, MAX_DEPTH - depth) && Weight(r, v, MAX_DEPTH - depth) <= budget
    ensures Project(r, v, budget, depth, true) == (Evidence(r, v, MAX_DEPTH - depth),
                                                   budget - Weight(r, v, MAX_DEPTH - depth))
    decreases MAX_DEPTH - depth, 0
  {
    if IsContainer(v) {
      EntriesEvidence(r, v, 0, budget - 1, depth + 1);
      WholeEvidence(r, v, Entries(r, v, 0, budget - 1, depth + 1, true).0, MAX_DEPTH - depth);
    }
  }

  lemma {:induction false} EntriesEvidence(r: Rules, v: Json, i: nat, budget: nat, depth: nat)
    requires 0 < depth <= MAX_DEPTH && IsContainer(v) && Small(r, v, MAX_DEPTH - depth + 1) && i <= Size(v)
    requires WeightFrom(r, v, i, MAX_DEPTH - depth) <= budget
    ensures Entries(r, v, i, budget, depth, true) ==
              (EvidenceFrom(r, v, i, MAX_DEPTH - depth), budget - WeightFrom(r, v, i, MAX_DEPTH - depth))
    decreases MAX_DEPTH - depth, 1, Size(v) - i
  {
    if i < Size(v) {
      var child := Child(r, v, i, true);
      SmallChild(r, v, i, MAX_DEPTH - depth + 1);
      WeightIsPositive(r, child, MAX_DEPTH - depth);
      ProjectsEvidence(r, child, budget, depth);
      EntriesEvidence(r, v, i + 1, budget - Weight(r, child, MAX_DEPTH - depth), depth);
      OneMore(r, v, i, budget, depth, Evidence(r, child, MAX_DEPTH - depth),
              budget - Weight(r, child, MAX_DEPTH - depth));
    }
  }

  lemma {:induction false} OneMore(r: Rules, v: Json, i: nat, budget: nat, depth: nat, out: Json, left: nat)
    requires depth <= MAX_DEPTH && IsContainer(v) && i < Size(v) && i < MAX_ENTRIES && budget > 0
    requires Project(r, Child(r, v, i, true), budget, depth, true) == (out, left)
    ensures Entries(r, v, i, budget, depth, true) ==
              ([out] + Entries(r, v, i + 1, left, depth, true).0, Entries(r, v, i + 1, left, depth, true).1)
  {
  }

  lemma {:induction false} EvidenceParts(r: Rules, a: Json, b: Json, levels: nat)
    requires levels > 0 && IsContainer(a) && IsContainer(b) && Evidence(r, a, levels) == Evidence(r, b, levels)
    ensures (a.Arr? <==> b.Arr?) && Size(a) == Size(b)
    ensures EvidenceFrom(r, a, 0, levels - 1) == EvidenceFrom(r, b, 0, levels - 1)
  {
    var x, y := Evidence(r, a, levels).fields, Evidence(r, b, levels).fields;
    assert x[0] == y[0] && x[1] == y[1] && x[2] == y[2];
    assert "object"[0] != "array"[0];
  }

  lemma {:induction false} ScalarNames(a: Json, b: Json)
    requires !IsContainer(a) && !IsContainer(b)
    ensures KindOf(a) == KindOf(b) <==> SameScalarKind(a, b)
  {
    assert |"null"| == 4 && |"boolean"| == 7 && |"integer"| == 7 && |"number"| == 6 && |"string"| == 6;
    assert "boolean"[0] != "integer"[0] && "number"[0] != "string"[0];
  }

  /** Payloads with the same evidence have the same shape. */
  lemma {:induction false} EvidenceTellsShape(r: Rules, a: Json, b: Json, levels: nat)
    requires Small(r, a, levels) && Small(r, b, levels) && Evidence(r, a, levels) == Evidence(r, b, levels)
    ensures SameShape(a, b)
    decreases levels
  {
    if IsContainer(a) && IsContainer(b) {
      EvidenceParts(r, a, b, levels);
      EvidenceAt(r, a, 0, levels - 1);
      EvidenceAt(r, b, 0, levels - 1);
      forall i | 0 <= i < Size(a) ensures SameShape(Child(r, a, i, true), Child(r, b, i, true)) {
        SmallChild(r, a, i, levels);
        SmallChild(r, b, i, levels);
        assert EvidenceFrom(r, a, 0, levels - 1)[i] == Evidence(r, Child(r, a, i, true), levels - 1);
        assert EvidenceFrom(r, b, 0, levels - 1)[i] == Evidence(r, Child(r, b, i, true), levels - 1);
        EvidenceTellsShape(r, Child(r, a, i, true), Child(r, b, i, true), levels - 1);
      }
      ShapeOfParts(r, a, b);
    } else if !IsContainer(a) && !IsContainer(b) {
      ScalarNames(a, b);
    }
  }

  lemma {:induction false} ShapeOfParts(r: Rules, a: Json, b: Json)
    requires IsContainer(a) && IsContainer(b) && (a.Arr? <==> b.Arr?) && Size(a) == Size(b)
    requires forall i | 0 <= i < Size(a) :: SameShape(Child(r, a, i, true), Child(r, b, i, true))
    ensures SameShape(a, b)
  {
    if a.Arr? {
      forall i | 0 <= i < |a.items| ensures SameShape(a.items[i], b.items[i]) {
        assert Child(r, a, i, true) == a.items[i] && Child(r, b, i, true) == b.items[i];
      }
    } else {
      forall i | 0 <= i < |a.fields| ensures SameShape(a.fields[i].value, b.fields[i].value) {
        assert Child(r, a, i, true) == a.fields[i].value && Child(r, b, i, true) == b.fields[i].value;
      }
    }
  }

  /** Within the limits two payloads have the same evidence if and only if they have the same shape. */
  lemma {:induction false} EvidenceIsShape(r: Rules, a: Json, b: Json, budget: nat, depth: nat)
    requires depth <= MAX_DEPTH && Small(r, a, MAX_DEPTH - depth) && Small(r, b, MAX_DEPTH - depth)
    requires Weight(r, a, MAX_DEPTH - depth) <= budget && Weight(r, b, MAX_DEPTH - depth) <= budget
    ensures Project(r, a, budget, depth, true).0 == Project(r, b, budget, depth, true).0 <==> SameShape(a, b)
  {
    ProjectsEvidence(r, a, budget, depth);
    ProjectsEvidence(r, b, budget, depth);
    if Evidence(r, a, MAX_DEPTH - depth) == Evidence(r, b, MAX_DEPTH - depth) {
      EvidenceTellsShape(r, a, b, MAX_DEPTH - depth);
    }
    if SameShape(a, b) {
      NonInterference(r, a, b, budget, depth, true);
    }
  }
}
