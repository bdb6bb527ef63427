/** How large a projection can be, what it may depend on, and when it says that it left something out. */
module ProjectionBounds {
  import opened RecordProjection

  // ---------------------------------------------------------------- size

  /** Nested at most `h` levels, at most 32 entries a container, at most 256 characters a text. */
  ghost predicate Fits(j: Json, h: nat)
    decreases h
  {
    match j
    case Arr(items) => h > 0 && |items| <= 32 && forall i | 0 <= i < |items| :: Fits(items[i], h - 1)
    case Obj(fields) =>
      && h > 0 && |fields| <= 32
      && forall i | 0 <= i < |fields| :: |fields[i].name| <= 256 && Fits(fields[i].value, h - 1)
    case Text(s) => |s| <= 256
    case _ => true
  }

  ghost predicate FieldFits(f: Field, h: nat)
  {
    |f.name| <= 256 && Fits(f.value, h)
  }

  lemma {:induction false} ReplacedFits(fields: seq<Field>, f: Field, h: nat)
    requires FieldFits(f, h) && forall i | 0 <= i < |fields| :: FieldFits(fields[i], h)
    ensures |Replaced(fields, f)| == |fields|
    ensures forall i | 0 <= i < |fields| :: FieldFits(Replaced(fields, f)[i], h)
  {
    if fields != [] && fields[|fields| - 1].name != f.name {
      ReplacedFits(fields[..|fields| - 1], f, h);
    }
  }

  lemma {:induction false} PutFits(fields: seq<Field>, f: Field, h: nat)
    requires FieldFits(f, h) && forall i | 0 <= i < |fields| :: FieldFits(fields[i], h)
    ensures |fields| <= |Put(fields, f)| <= |fields| + 1
    ensures forall i | 0 <= i < |Put(fields, f)| :: FieldFits(Put(fields, f)[i], h)
  {
    ReplacedFits(fields, f, h);
  }

  lemma {:induction false} NamedFits(r: Rules, fields: seq<Field>, outs: seq<Json>, h: nat)
    requires Bounding(r) && |outs| <= |fields| && forall i | 0 <= i < |outs| :: Fits(outs[i], h)
    ensures |Named(r, fields, outs)| <= |outs|
    ensures forall i | 0 <= i < |Named(r, fields, outs)| :: FieldFits(Named(r, fields, outs)[i], h)
  {
    if outs != [] {
      var front := outs[..|outs| - 1];
      NamedFits(r, fields, front, h);
      PutFits(Named(r, fields, front), Field(r.redact(fields[|outs| - 1].name), outs[|outs| - 1]), h);
    }
  }

  lemma {:induction false} MarkedFits(r: Rules, fields: seq<Field>, size: nat, h: nat)
    requires |fields| <= MAX_ENTRIES && forall i | 0 <= i < |fields| :: FieldFits(fields[i], h)
    ensures |MarkedFields(fields, size)| <= MAX_ENTRIES
    ensures forall i | 0 <= i < |MarkedFields(fields, size)| :: FieldFits(MarkedFields(fields, size)[i], h)
  {
    var marker := Field(TRUNCATED, Marker);
    assert FieldFits(marker, h);
    if |fields| == MAX_ENTRIES {
      PutFits(fields[..|fields| - 1], marker, h);
    } else {
      PutFits(fields, marker, h);
    }
  }

  /** Levels a projected container takes: evidence wraps its entries once more. */
  function Levels(structural: bool, depth: nat): nat
    requires depth <= MAX_DEPTH
  {
    if structural then 2 * (MAX_DEPTH - depth) else MAX_DEPTH - depth
  }

  lemma {:induction false} AssembledFits(r: Rules, v: Json, outs: seq<Json>, structural: bool, depth: nat)
    requires Bounding(r) && IsContainer(v) && |outs| <= Size(v) && |outs| <= MAX_ENTRIES && depth < MAX_DEPTH
    requires forall i | 0 <= i < |outs| :: Fits(outs[i], Levels(structural, depth + 1))
    ensures Fits(Assembled(r, v, outs, structural), Levels(structural, depth))
  {
    var h := Levels(structural, depth + 1);
    var items := MarkedItems(outs, Size(v));
    assert |items| <= MAX_ENTRIES && forall i | 0 <= i < |items| :: Fits(items[i], h);
    if structural {
      assert Fits(Arr(items), h + 1);
      assert FieldFits(Field("entries", Arr(items)), h + 1);
    } else if v.Obj? {
      NamedFits(r, v.fields, outs, h);
      MarkedFits(r, Named(r, v.fields, outs), Size(v), h);
    }
  }

  lemma {:induction false} ProjectFits(r: Rules, v: Json, budget: nat, depth: nat, structural: bool)
    requires Bounding(r) && depth <= MAX_DEPTH
    ensures Fits(Project(r, v, budget, depth, structural).0, Levels(structural, depth))
    decreases MAX_DEPTH - depth, 0
  {
    if budget > 0 && depth < MAX_DEPTH && IsContainer(v) {
      EntriesFit(r, v, 0, budget - 1, depth + 1, structural);
      AssembledFits(r, v, Entries(r, v, 0, budget - 1, depth + 1, structural).0, structural, depth);
    }
  }

  lemma {:induction false} EntriesFit(r: Rules, v: Json, i: nat, budget: nat, depth: nat, structural: bool)
    requires Bounding(r) && IsContainer(v) && depth <= MAX_DEPTH
    ensures forall o | o in Entries(r, v, i, budget, depth, structural).0 :: Fits(o, Levels(structural, depth))
    decreases MAX_DEPTH - depth, 1, MAX_ENTRIES - i
  {
    if !(i >= Size(v) || i >= MAX_ENTRIES || budget == 0) {
      ProjectFits(r, Child(r, v, i, structural), budget, depth, structural);
      var (_, left) := Project(r, Child(r, v, i, structural), budget, depth, structural);
      EntriesFit(r, v, i + 1, left, depth, structural);
    }
  }

  /** Whatever the payload, its projection nests at most 8 levels with at most 32 entries each. */
  lemma {:induction false} PayloadFits(r: Rules, v: Json)
    requires Bounding(r)
    ensures Fits(Project(r, v, MAX_NODES, 0, false).0, 8)
    ensures Fits(Project(r, v, MAX_NODES, 0, true).0, 16)
  {
    ProjectFits(r, v, MAX_NODES, 0, false);
    ProjectFits(r, v, MAX_NODES, 0, true);
  }

  // ---------------------------------------------------------------- the node budget

  /** Nodes of an output, not counting truncation markers. */
  ghost function Nodes(j: Json): nat {
    match j
    case Arr(items) => 1 + NodesIn(items)
    case Obj(fields) => 1 + FieldNodes(fields)
    case _ => if j == Marker then 0 else 1
  }

  ghost function NodesIn(items: seq<Json>): nat {
    if items == [] then 0 else NodesIn(items[..|items| - 1]) + Nodes(items[|items| - 1])
  }

  ghost function FieldNodes(fields: seq<Field>): nat {
    if fields == [] then 0 else FieldNodes(fields[..|fields| - 1]) + Nodes(fields[|fields| - 1].value)
  }

  lemma {:induction false} NodesAppend(items: seq<Json>, j: Json)
    ensures NodesIn(items + [j]) == NodesIn(items) + Nodes(j)
  {
    assert (items + [j])[..|items|] == items;
  }

  lemma {:induction false} NodesPrepend(j: Json, items: seq<Json>)
    ensures NodesIn([j] + items) == Nodes(j) + NodesIn(items)
  {
    if items == [] {
      assert [j] + items == [] + [j];
      NodesAppend([], j);
    } else {
      var front, last := items[..|items| - 1], items[|items| - 1];
      NodesPrepend(j, front);
      assert [j] + items == ([j] + front) + [last];
      NodesAppend([j] + front, last);
    }
  }

  lemma {:induction false} MarkedItemsNodes(outs: seq<Json>, size: nat)
    ensures NodesIn(MarkedItems(outs, size)) <= NodesIn(outs)
  {
    NodesAppend(outs, Marker);
    if |outs| == MAX_ENTRIES {
      NodesAppend(outs[..|outs| - 1], Marker);
    }
  }

  lemma {:induction false} ReplacedNodes(fields: seq<Field>, f: Field)
    ensures FieldNodes(Replaced(fields, f)) <= FieldNodes(fields) + Nodes(f.value)
  {
    if fields != [] {
      var front, last := fields[..|fields| - 1], fields[|fields| - 1];
      if last.name == f.name {
        assert (front + [f])[..|front|] == front;
      } else {
        ReplacedNodes(front, f);
        var replaced := Replaced(front, f);
        assert (replaced + [last])[..|replaced|] == replaced;
      }
    }
  }

  lemma {:induction false} PutNodes(fields: seq<Field>, f: Field)
    ensures FieldNodes(Put(fields, f)) <= FieldNodes(fields) + Nodes(f.value)
  {
    ReplacedNodes(fields, f);
    assert (fields + [f])[..|fields|] == fields;
  }

  lemma {:induction false} NamedNodes(r: Rules, fields: seq<Field>, outs: seq<Json>)
    requires |outs| <= |fields|
    ensures FieldNodes(Named(r, fields, outs)) <= NodesIn(outs)
  {
    if outs != [] {
      NamedNodes(r, fields, outs[..|outs| - 1]);
      PutNodes(Named(r, fields, outs[..|outs| - 1]), Field(r.redact(fields[|outs| - 1].name), outs[|outs| - 1]));
    }
  }

  lemma {:induction false} MarkedFieldsNodes(fields: seq<Field>, size: nat)
    ensures FieldNodes(MarkedFields(fields, size)) <= FieldNodes(fields)
  {
    PutNodes(fields, Field(TRUNCATED, Marker));
    if |fields| == MAX_ENTRIES {
      PutNodes(fields[..|fields| - 1], Field(TRUNCATED, Marker));
    }
  }

  /** One projected node pays for one output node; in evidence for four, an object with three fields. */
  predicate Paid(nodes: nat, left: nat, budget: nat, structural: bool) {
    if structural then nodes + 4 * left <= 4 * budget else nodes + left <= budget
  }

  lemma {:induction false} ThreeFieldNodes(a: Field, b: Field, c: Field)
    ensures FieldNodes([a, b, c]) == Nodes(a.value) + Nodes(b.value) + Nodes(c.value)
  {
    assert [a, b, c][..2] == [a, b] && [a, b][..1] == [a] && [a][..0] == [];
    assert FieldNodes([a]) == Nodes(a.value);
    assert FieldNodes([a, b]) == FieldNodes([a]) + Nodes(b.value);
  }

  lemma {:induction false} AssembledNodes(r: Rules, v: Json, outs: seq<Json>, structural: bool)
    requires IsContainer(v) && |outs| <= Size(v)
    ensures Nodes(Assembled(r, v, outs, structural)) <= NodesIn(outs) + if structural then 4 else 1
  {
    MarkedItemsNodes(outs, Size(v));
    if structural {
      var fields := Assembled(r, v, outs, structural).fields;
      ThreeFieldNodes(fields[0], fields[1], fields[2]);
    } else if v.Obj? {
      NamedNodes(r, v.fields, outs);
      MarkedFieldsNodes(Named(r, v.fields, outs), Size(v));
    }
  }

  ghost predicate PaidFor(r: Rules, v: Json, budget: nat, depth: nat, structural: bool)
    requires depth <= MAX_DEPTH
  {
    var (out, left) := Project(r, v, budget, depth, structural);
    Paid(Nodes(out), left, budget, structural)
  }

  /** Every node of the output was paid for out of the budget. */
  lemma {:induction false} ProjectNodes(r: Rules, v: Json, budget: nat, depth: nat, structural: bool)
    requires depth <= MAX_DEPTH
    ensures PaidFor(r, v, budget, depth, structural)
    decreases MAX_DEPTH - depth, 0
  {
    if budget > 0 && depth < MAX_DEPTH && IsContainer(v) {
      EntriesNodes(r, v, 0, budget - 1, depth + 1, structural);
      ContainerNodes(r, v, budget, depth, structural, Entries(r, v, 0, budget - 1, depth + 1, structural));
    } else {
      LeafNodes(r, v, budget, depth, structural);
    }
  }

  lemma {:induction false} LeafNodes(r: Rules, v: Json, budget: nat, depth: nat, structural: bool)
    requires depth <= MAX_DEPTH && (budget == 0 || depth == MAX_DEPTH || !IsContainer(v))
    ensures PaidFor(r, v, budget, depth, structural)
  {
  }

  lemma {:induction false} ContainerNodes(r: Rules, v: Json, budget: nat, depth: nat, structural: bool,
                                          e: (seq<Json>, nat))
    requires IsContainer(v) && budget > 0 && depth < MAX_DEPTH
    requires e == Entries(r, v, 0, budget - 1, depth + 1, structural) && Paid(NodesIn(e.0), e.1, budget - 1, structural)
    ensures PaidFor(r, v, budget, depth, structural)
  {
    AssembledNodes(r, v, e.0, structural);
  }

  lemma {:induction false} EntriesNodes(r: Rules, v: Json, i: nat, budget: nat, depth: nat, structural: bool)
    requires IsContainer(v) && depth <= MAX_DEPTH
    ensures var (outs, left) := Entries(r, v, i, budget, depth, structural);
      Paid(NodesIn(outs), left, budget, structural)
    decreases MAX_DEPTH - depth, 1, MAX_ENTRIES - i
  {
    if !(i >= Size(v) || i >= MAX_ENTRIES || budget == 0) {
      ProjectNodes(r, Child(r, v, i, structural), budget, depth, structural);
      var (out, left) := Project(r, Child(r, v, i, structural), budget, depth, structural);
      EntriesNodes(r, v, i + 1, left, depth, structural);
      NodesPrepend(out, Entries(r, v, i + 1, left, depth, structural).0);
    }
  }

  /** A payload's projection has at most 256 nodes, its evidence at most four times as many. */
  lemma {:induction false} PayloadNodes(r: Rules, v: Json, budget: nat, depth: nat)
    requires budget <= MAX_NODES && depth <= MAX_DEPTH
    ensures Nodes(Project(r, v, budget, depth, false).0) <= 256
    ensures Nodes(Project(r, v, budget, depth, true).0) <= 1024
  {
    ProjectNodes(r, v, budget, depth, false);
    ProjectNodes(r, v, budget, depth, true);
  }

  // ---------------------------------------------------------------- what an output may depend on

  /** Names that redaction makes equal and that are masked alike. */
  predicate SameName(r: Rules, a: string, b: string) {
    r.redact(a) == r.redact(b) && r.masks(a) == r.masks(b)
  }

  /** Equal once every text and name is redacted, but for the values of sensitive and private fields. */
  ghost predicate Alike(r: Rules, a: Json, b: Json)
    decreases a
  {
    if a.Arr? && b.Arr? then
      |a.items| == |b.items| && forall i | 0 <= i < |a.items| :: Alike(r, a.items[i], b.items[i])
    else if a.Obj? && b.Obj? then
      && |a.fields| == |b.fields|
      && forall i | 0 <= i < |a.fields| ::
           && SameName(r, a.fields[i].name, b.fields[i].name)
           && (r.masks(a.fields[i].name) || Alike(r, a.fields[i].value, b.fields[i].value))
    else if a.Text? && b.Text? then r.redact(a.text) == r.redact(b.text)
    else a == b
  }

  predicate SameScalarKind(a: Json, b: Json) {
    || (a.Null? && b.Null?) || (a.Bool? && b.Bool?) || (a.Int? && b.Int?) || (a.Number? && b.Number?)
      || (a.Text? && b.Text?)
  }

  /** Equal in kind, size and order, whatever the names and the values. */
  ghost predicate SameShape(a: Json, b: Json)
    decreases a
  {
    if a.Arr? && b.Arr? then
      |a.items| == |b.items| && forall i | 0 <= i < |a.items| :: SameShape(a.items[i], b.items[i])
    else if a.Obj? && b.Obj? then
      |a.fields| == |b.fields| && forall i | 0 <= i < |a.fields| :: SameShape(a.fields[i].value, b.fields[i].value)
    else SameScalarKind(a, b)
  }

  /** What the projection in each mode cannot tell apart. */
  ghost predicate Indistinguishable(r: Rules, a: Json, b: Json, structural: bool) {
    if structural then SameShape(a, b) else Alike(r, a, b)
  }

  lemma {:induction false} ChildrenIndistinguishable(r: Rules, a: Json, b: Json, i: nat, structural: bool)
    requires Indistinguishable(r, a, b, structural) && IsContainer(a)
    ensures IsContainer(b) && Size(a) == Size(b) && (a.Arr? <==> b.Arr?)
    ensures i < Size(a) ==> Indistinguishable(r, Child(r, a, i, structural), Child(r, b, i, structural), structural)
  {
  }

  lemma {:induction false} NamedSame(r: Rules, a: seq<Field>, b: seq<Field>, outs: seq<Json>)
    requires |outs| <= |a| == |b| && forall i | 0 <= i < |a| :: SameName(r, a[i].name, b[i].name)
    ensures Named(r, a, outs) == Named(r, b, outs)
  {
    if outs != [] {
      NamedSame(r, a, b, outs[..|outs| - 1]);
    }
  }

  lemma {:induction false} AssembledSame(r: Rules, a: Json, b: Json, outs: seq<Json>, structural: bool)
    requires Indistinguishable(r, a, b, structural) && IsContainer(a) && |outs| <= Size(a)
    ensures IsContainer(b) && |outs| <= Size(b) && Assembled(r, a, outs, structural)
        == Assembled(r, b, outs, structural)
  {
    if a.Obj? && !structural {
      NamedSame(r, a.fields, b.fields, outs);
    }
  }

  /**
   Payloads that differ only under sensitive or private names, or in what redaction takes out of texts and
   names, have the same projection, and payloads of one shape have the same evidence: neither output carries
   anything of the rest.
   */
  lemma {:induction false} NonInterference(r: Rules, a: Json, b: Json, budget: nat, depth: nat, structural: bool)
    requires depth <= MAX_DEPTH && Indistinguishable(r, a, b, structural)
    ensures Project(r, a, budget, depth, structural) == Project(r, b, budget, depth, structural)
    decreases MAX_DEPTH - depth, 0
  {
    if IsContainer(a) && budget > 0 && depth < MAX_DEPTH {
      var e := EntriesSame(r, a, b, 0, budget - 1, depth + 1, structural);
      AssembledSame(r, a, b, e.0, structural);
      ContainersSame(r, a, b, budget, depth, structural, e);
    } else {
      OutsideSame(r, a, b, budget, depth, structural);
    }
  }

  lemma {:induction false} ContainersSame(r: Rules, a: Json, b: Json, budget: nat, depth: nat, structural: bool,
                                          e: (seq<Json>, nat))
    requires IsContainer(a) && IsContainer(b) && budget > 0 && depth < MAX_DEPTH
    requires Entries(r, a, 0, budget - 1, depth + 1, structural) == e
    requires Entries(r, b, 0, budget - 1, depth + 1, structural) == e
    requires |e.0| <= Size(a) && |e.0| <= Size(b)
    requires Assembled(r, a, e.0, structural) == Assembled(r, b, e.0, structural)
    ensures Project(r, a, budget, depth, structural) == Project(r, b, budget, depth, structural)
  {
  }

  lemma {:induction false} OutsideSame(r: Rules, a: Json, b: Json, budget: nat, depth: nat, structural: bool)
    requires depth <= MAX_DEPTH && Indistinguishable(r, a, b, structural)
    requires !IsContainer(a) || budget == 0 || depth == MAX_DEPTH
    ensures Project(r, a, budget, depth, structural) == Project(r, b, budget, depth, structural)
  {
  }

  lemma {:induction false} EntriesSame(r: Rules, a: Json, b: Json, i: nat, budget: nat, depth: nat, structural: bool)
    returns (e: (seq<Json>, nat))
    requires depth <= MAX_DEPTH && IsContainer(a) && Indistinguishable(r, a, b, structural)
    ensures IsContainer(b) && Size(a) == Size(b) && (i == 0 ==> |e.0| <= Size(a))
    ensures Entries(r, a, i, budget, depth, structural) == e
    ensures Entries(r, b, i, budget, depth, structural) == e
    decreases MAX_DEPTH - depth, 1, MAX_ENTRIES - i
  {
    ChildrenIndistinguishable(r, a, b, i, structural);
    e := Entries(r, a, i, budget, depth, structural);
    if !(i >= Size(a) || i >= MAX_ENTRIES || budget == 0) {
      NonInterference(r, Child(r, a, i, structural), Child(r, b, i, structural), budget, depth, structural);
      var rest := EntriesSame(r, a, b, i + 1, Project(r, Child(r, a, i, structural), budget, depth, structural).1,
                              depth, structural);
    }
  }

  // ---------------------------------------------------------------- when the marker appears

  /** While budget is left, exactly the first 32 entries are projected. */
  lemma {:induction false} AllEntriesWhileBudgetLasts(r: Rules, v: Json, i: nat, budget: nat, depth: nat,
                                                      structural: bool)
    requires IsContainer(v) && depth <= MAX_DEPTH && i <= Size(v) && i <= MAX_ENTRIES
    requires Entries(r, v, i, budget, depth, structural).1 > 0
    ensures i + |Entries(r, v, i, budget, depth, structural).0| == if Size(v) < 32 then Size(v) else 32
    decreases MAX_DEPTH - depth, 1, MAX_ENTRIES - i
  {
    if !(i >= Size(v) || i >= MAX_ENTRIES || budget == 0) {
      AllEntriesWhileBudgetLasts(r, v, i + 1, Project(r, Child(r, v, i, structural), budget, depth, structural).1,
                                 depth, structural);
    }
  }

  lemma {:induction false} ReplacedNames(fields: seq<Field>, f: Field)
    ensures |Replaced(fields, f)| == |fields|
    ensures forall i | 0 <= i < |fields| :: Replaced(fields, f)[i].name == fields[i].name
  {
    if fields != [] && fields[|fields| - 1].name != f.name {
      ReplacedNames(fields[..|fields| - 1], f);
    }
  }

  lemma {:induction false} PutNames(fields: seq<Field>, f: Field)
    ensures |Put(fields, f)| == |fields| + 1 <==> !HasName(fields, f.name)
    ensures |fields| <= |Put(fields, f)| <= |fields| + 1
    ensures forall name :: HasName(Put(fields, f), name) <==> HasName(fields, name) || name == f.name
  {
    ReplacedNames(fields, f);
    NamesAppend(fields, f);
    if HasName(fields, f.name) {
      SameNames(fields, Replaced(fields, f));
    }
  }

  lemma {:induction false} SameNames(a: seq<Field>, b: seq<Field>)
    requires |a| == |b| && forall i | 0 <= i < |a| :: a[i].name == b[i].name
    ensures forall name :: HasName(a, name) <==> HasName(b, name)
  {
    if a != [] {
      SameNames(a[..|a| - 1], b[..|b| - 1]);
    }
  }

  lemma {:induction false} NamesAppend(fields: seq<Field>, f: Field)
    ensures forall name :: HasName(fields + [f], name) <==> HasName(fields, name) || name == f.name
  {
    assert (fields + [f])[..|fields|] == fields;
  }

  /** No two of the first `n` names are the same once redacted. */
  ghost predicate NamesStayApart(r: Rules, fields: seq<Field>, n: nat)
    requires n <= |fields|
  {
    forall i, j | 0 <= i < j < n :: r.redact(fields[i].name) != r.redact(fields[j].name)
  }

  /** One of the first `n` names becomes this one once redacted. */
  ghost predicate BecomesName(r: Rules, fields: seq<Field>, n: nat, name: string)
    requires n <= |fields|
  {
    n > 0 && (r.redact(fields[n - 1].name) == name || BecomesName(r, fields, n - 1, name))
  }

  lemma {:induction false} BecomesSome(r: Rules, fields: seq<Field>, n: nat, name: string)
    requires n <= |fields|
    ensures BecomesName(r, fields, n, name) <==> exists i | 0 <= i < n :: r.redact(fields[i].name) == name
  {
    if n > 0 {
      BecomesSome(r, fields, n - 1, name);
    }
  }

  lemma {:induction false} NamedHas(r: Rules, fields: seq<Field>, outs: seq<Json>)
    requires |outs| <= |fields|
    ensures forall name :: HasName(Named(r, fields, outs), name) <==> BecomesName(r, fields, |outs|, name)
  {
    if outs != [] {
      var n := |outs| - 1;
      NamedHas(r, fields, outs[..n]);
      PutNames(Named(r, fields, outs[..n]), Field(r.redact(fields[n].name), outs[n]));
    }
  }

  lemma {:induction false} ApartGrows(r: Rules, fields: seq<Field>, n: nat)
    requires n < |fields|
    ensures NamesStayApart(r, fields, n + 1) <==>
              NamesStayApart(r, fields, n) && !BecomesName(r, fields, n, r.redact(fields[n].name))
  {
    BecomesSome(r, fields, n, r.redact(fields[n].name));
  }

  lemma {:induction false} NamedNames(r: Rules, fields: seq<Field>, outs: seq<Json>)
    requires |outs| <= |fields|
    ensures |Named(r, fields, outs)| <= |outs|
    ensures |Named(r, fields, outs)| == |outs| <==> NamesStayApart(r, fields, |outs|)
  {
    if outs != [] {
      var n := |outs| - 1;
      NamedNames(r, fields, outs[..n]);
      NamedHas(r, fields, outs[..n]);
      ApartGrows(r, fields, n);
      PutNames(Named(r, fields, outs[..n]), Field(r.redact(fields[n].name), outs[n]));
    }
  }

  lemma {:induction false} MarkedIff(named: seq<Field>, size: nat)
    requires |named| <= size
    ensures |named| == size ==> MarkedFields(named, size) == named
    ensures HasName(MarkedFields(named, size), TRUNCATED) <==> |named| < size || HasName(named, TRUNCATED)
  {
    PutNames(named, Field(TRUNCATED, Marker));
    if |named| == MAX_ENTRIES {
      PutNames(named[..|named| - 1], Field(TRUNCATED, Marker));
    }
  }

  /**
   The marker says more than that entries were cut off: a mapping carries it exactly when some entries were
   not projected, or redaction made two of the projected names equal (and then a field is missing too), or
   redaction gives one of them the marker's own name.
   */
  lemma {:induction false} MarkerIff(r: Rules, v: Json, budget: nat, depth: nat, outs: seq<Json>, left: nat)
    requires v.Obj? && depth < MAX_DEPTH && budget > 0
    requires Entries(r, v, 0, budget - 1, depth + 1, false) == (outs, left)
    ensures |outs| <= |v.fields|
    ensures Project(r, v, budget, depth, false).0.Obj?
    ensures HasName(Project(r, v, budget, depth, false).0.fields, TRUNCATED) <==>
              || |outs| < |v.fields|
              || !NamesStayApart(r, v.fields, |outs|)
              || exists i | 0 <= i < |outs| :: r.redact(v.fields[i].name) == TRUNCATED
  {
    NamedNames(r, v.fields, outs);
    NamedHas(r, v.fields, outs);
    BecomesSome(r, v.fields, |outs|, TRUNCATED);
    MarkedIff(Named(r, v.fields, outs), |v.fields|);
  }

  /** So a mapping small enough, with budget left, carries the marker although nothing was cut off exactly then. */
  lemma {:induction false} MarkerWithoutTruncation(r: Rules, v: Json, budget: nat, depth: nat, outs: seq<Json>,
                                                   left: nat)
    requires v.Obj? && |v.fields| <= MAX_ENTRIES && depth < MAX_DEPTH && budget > 0
    requires Entries(r, v, 0, budget - 1, depth + 1, false) == (outs, left) && left > 0
    ensures |outs| == |v.fields| && Project(r, v, budget, depth, false).0.Obj?
    ensures HasName(Project(r, v, budget, depth, false).0.fields, TRUNCATED) <==>
              || !NamesStayApart(r, v.fields, |v.fields|)
              || exists i | 0 <= i < |v.fields| :: r.redact(v.fields[i].name) == TRUNCATED
  {
    assert |outs| == |v.fields| by {
      AllEntriesWhileBudgetLasts(r, v, 0, budget - 1, depth + 1, false);
    }
    MarkerIff(r, v, budget, depth, outs, left);
  }
}
