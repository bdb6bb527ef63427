/**
 The bounded projection of record payloads: at most 8 levels, 32 entries a container and 256 nodes in
 all, with sensitive and private fields masked, or, for evidence, only the shape.
 */
module RecordProjection {
  datatype Json =
    | Null
    | Bool(flag: bool)
    | Int(n: int)
    | Number(number: real)
    | Text(text: string)
    | Arr(items: seq<Json>)
    | Obj(fields: seq<Field>)  // in insertion order, names distinct

  datatype Field = Field(name: string, value: Json)

  /** Redaction of one string, and which field names are sensitive or private. */
  datatype Rules = Rules(redact: string -> string, masks: string -> bool)

  const MAX_DEPTH: nat := 8
  const MAX_ENTRIES: nat := 32
  const MAX_NODES: nat := 256
  const MAX_TEXT: nat := 256
  const REDACTED := "***"
  const TRUNCATED := "[TRUNCATED]"
  const Marker := Text(TRUNCATED)

  ghost predicate Bounding(r: Rules) {
    forall s :: |r.redact(s)| <= MAX_TEXT
  }

  // ---------------------------------------------------------------- the projection

  /** Binary digits, as Python's `int.bit_length` counts them. */
  function BitLength(n: nat): nat {
    if n == 0 then 0 else BitLength(n / 2) + 1
  }

  predicate IsHuge(n: int) {
    BitLength(if n < 0 then -n else n) > MAX_TEXT * 3
  }

  function StructuralScalar(v: Json): string {
    match v
    case Null => "null"
    case Bool(_) => "boolean"
    case Int(_) => "integer"
    case Number(_) => "number"
    case Text(_) => "string"
    case _ => "unknown"
  }

  predicate IsContainer(v: Json) {
    v.Arr? || v.Obj?
  }

  function Size(v: Json): nat
    requires IsContainer(v)
  {
    if v.Arr? then |v.items| else |v.fields|
  }

  /** What the i-th entry contributes: in value mode masked fields give only the mask. */
  function Child(r: Rules, v: Json, i: nat, structural: bool): Json
    requires IsContainer(v) && i < Size(v)
  {
    if v.Arr? then v.items[i]
    else if !structural && r.masks(v.fields[i].name) then Text(REDACTED)
    else v.fields[i].value
  }

  predicate HasName(fields: seq<Field>, name: string) {
    fields != [] && (fields[|fields| - 1].name == name || HasName(fields[..|fields| - 1], name))
  }

  function Replaced(fields: seq<Field>, f: Field): seq<Field> {
    if fields == [] then []
    else if fields[|fields| - 1].name == f.name then fields[..|fields| - 1] + [f]
    else Replaced(fields[..|fields| - 1], f) + [fields[|fields| - 1]]
  }

  /** A dictionary assignment: an existing name keeps its place, a new one comes last. */
  function Put(fields: seq<Field>, f: Field): seq<Field> {
    if HasName(fields, f.name) then Replaced(fields, f) else fields + [f]
  }

  function Named(r: Rules, fields: seq<Field>, outs: seq<Json>): seq<Field>
    requires |outs| <= |fields|
  {
    if outs == [] then []
    else Put(Named(r, fields, outs[..|outs| - 1]), Field(r.redact(fields[|outs| - 1].name), outs[|outs| - 1]))
  }

  function MarkedItems(outs: seq<Json>, size: nat): seq<Json> {
    if |outs| >= size then outs
    else if |outs| == MAX_ENTRIES then outs[..|outs| - 1] + [Marker]
    else outs + [Marker]
  }

  function MarkedFields(fields: seq<Field>, size: nat): seq<Field> {
    if |fields| >= size then fields
    else if |fields| == MAX_ENTRIES then Put(fields[..|fields| - 1], Field(TRUNCATED, Marker))
    else Put(fields, Field(TRUNCATED, Marker))
  }

  function Assembled(r: Rules, v: Json, outs: seq<Json>, structural: bool): Json
    requires IsContainer(v) && |outs| <= Size(v)
  {
    if structural then
      Obj([Field("type", Text(if v.Obj? then "object" else "array")), Field("size", Int(Size(v))),
           Field("entries", Arr(MarkedItems(outs, Size(v))))])
    else if v.Arr? then Arr(MarkedItems(outs, Size(v)))
    else Obj(MarkedFields(Named(r, v.fields, outs), Size(v)))
  }

  /** `_record_projection`: the output and what is left of the budget. */
  function Project(r: Rules, v: Json, budget: nat, depth: nat, structural: bool): (Json, nat)
    requires depth <= MAX_DEPTH
    decreases MAX_DEPTH - depth, 0
  {
    if budget == 0 || depth >= MAX_DEPTH then (Marker, budget)
    else if IsContainer(v) then
      var (outs, left) := Entries(r, v, 0, budget - 1, depth + 1, structural);
      (Assembled(r, v, outs, structural), left)
    else if structural then (Text(StructuralScalar(v)), budget - 1)
    else if v.Text? then (Text(r.redact(v.text)), budget - 1)
    else if v.Int? && IsHuge(v.n) then (Marker, budget - 1)
    else (v, budget - 1)
  }

  /** The entries from the i-th on, until the limit or the end of the budget. */
  function Entries(r: Rules, v: Json, i: nat, budget: nat, depth: nat, structural: bool): (result: (seq<Json>, nat))
    requires IsContainer(v) && depth <= MAX_DEPTH
    ensures i <= Size(v) && i <= MAX_ENTRIES ==> i + |result.0| <= Size(v) && i + |result.0| <= MAX_ENTRIES
    decreases MAX_DEPTH - depth, 1, MAX_ENTRIES - i
  {
    if i >= Size(v) || i >= MAX_ENTRIES || budget == 0 then ([], budget)
    else
      var (out, left) := Project(r, Child(r, v, i, structural), budget, depth, structural);
      var (rest, end) := Entries(r, v, i + 1, left, depth, structural);
      ([out] + rest, end)
  }
}
