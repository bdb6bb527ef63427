/**
 The durable form of a sync state: what may be written, how it is written, how it is read back, and
 the checkpoint a later pass decodes from it. The text layer (JSON) is a value here.
 */
module StateCodec {
  import opened Wrappers

  datatype Json =
    | Null
    | Bool(flag: bool)
    | Num(number: int)
    | Str(text: string)
    | Arr(items: seq<Json>)
    | Obj(fields: map<string, Json>)

  datatype SyncState = SyncState(
    cursor: map<string, string>,
    partitions: map<string, Json>,
    lastSyncedAt: Json,
    extra: map<string, Json>)

  datatype StateError =
    | UnsupportedSchema
    | CorruptState
    | CorruptTop
    | CorruptCursor
    | CorruptField(name: string)
    | InvalidCursor
    | InvalidPartitions
    | InvalidTimestamp
    | InvalidExtra
    | InvalidCheckpoint
    | InvalidCheckpointVersion
    | InvalidCheckpointPosition
    | InvalidArtifact
    | InvalidSourceVersion

  /** The checks on opaque text: an accepted watermark, an aware timestamp, a decodable artifact. */
  datatype Checks = Checks(watermark: string -> bool, timestamp: string -> bool, artifact: Json -> bool)

  const WATERMARK_SCHEMA := "datasluice_completed_watermark_v1"
  const CHECKPOINT := "datasluice_checkpoint"
  const ARTIFACT := "datasluice_completed_artifact"
  const SOURCE_VERSION := "datasluice_source_version"
  const CHECKPOINT_KEYS := {"version", "status", "next_batch_index", "position", "source_version",
                            "destination_identity"}

  // ---------------------------------------------------------------- validation before a write

  predicate IsSha256(value: Json) {
    && value.Str? && |value.text| == 64
    && forall i | 0 <= i < 64 ::
         '0' <= value.text[i] <= '9' || 'a' <= value.text[i] <= 'f' || 'A' <= value.text[i] <= 'F'
  }

  predicate IsSourceVersion(value: Json) {
    value.Null? || IsSha256(value)
  }

  predicate IsIndex(value: Json) {
    value.Num? && value.number >= 0
  }

  function ValidateCursor(checks: Checks, key: string, cursor: map<string, string>): Option<StateError> {
    if cursor == map[] then None
    else if cursor.Keys == {key} && checks.watermark(cursor[key]) then None
    else Some(InvalidCursor)
  }

  function ValidateTimestamp(checks: Checks, value: Json): Option<StateError> {
    if value.Null? then None
    else if value.Str? && 0 < |value.text| <= 128 && checks.timestamp(value.text) then None
    else Some(InvalidTimestamp)
  }

  function ValidateCheckpoint(fields: map<string, Json>): Option<StateError> {
    if fields.Keys != CHECKPOINT_KEYS then Some(InvalidCheckpoint) else
    var position := fields["position"];
    if !position.Obj? || position.fields.Keys != {"kind", "row_group_index"} then Some(InvalidCheckpointPosition)
    else if && IsIndex(fields["next_batch_index"]) && IsIndex(position.fields["row_group_index"])
            && position.fields["kind"] == Str("parquet_row_group") && fields["status"] == Str("in_progress")
            && IsSourceVersion(fields["source_version"]) && IsSha256(fields["destination_identity"])
    then None
    else Some(InvalidCheckpoint)
  }

  function ValidateExtra(checks: Checks, extra: map<string, Json>): Option<StateError> {
    if extra == map[] then None
    else if ARTIFACT in extra && extra.Keys <= {ARTIFACT, SOURCE_VERSION} then
      if !checks.artifact(extra[ARTIFACT]) then Some(InvalidArtifact)
      else if SOURCE_VERSION in extra && !IsSourceVersion(extra[SOURCE_VERSION]) then Some(InvalidSourceVersion)
      else None
    else if extra.Keys != {CHECKPOINT} then Some(InvalidExtra)
    else if !extra[CHECKPOINT].Obj? then Some(InvalidCheckpoint)
    else
      var fields := extra[CHECKPOINT].fields;
      if "version" !in fields || fields["version"] != Num(3) then Some(InvalidCheckpointVersion)
      else ValidateCheckpoint(fields)
  }

  /** `_validate_state_for_write`: the first rule that fails. */
  function Validate(checks: Checks, key: string, s: SyncState): Option<StateError> {
    if ValidateCursor(checks, key, s.cursor).Some? then ValidateCursor(checks, key, s.cursor)
    else if s.partitions != map[] then Some(InvalidPartitions)
    else if ValidateTimestamp(checks, s.lastSyncedAt).Some? then ValidateTimestamp(checks, s.lastSyncedAt)
    else ValidateExtra(checks, s.extra)
  }

  // ---------------------------------------------------------------- writing and reading

  /** The cursor is stored without its key: the file's name already says whose state it is. */
  function EncodeCursor(key: string, cursor: map<string, string>): Json
    requires cursor == map[] || key in cursor
  {
    if cursor == map[] then Obj(map[])
    else Obj(map["schema" := Str(WATERMARK_SCHEMA), "watermark" := Str(cursor[key])])
  }

  function Encode(key: string, s: SyncState): Json
    requires s.cursor == map[] || key in s.cursor
  {
    Obj(map["schema_version" := Num(1),
            "state" := Obj(map["cursor" := EncodeCursor(key, s.cursor), "partitions" := Obj(map[]),
                               "last_synced_at" := s.lastSyncedAt, "extra" := Obj(s.extra)])])
  }

  function Field(fields: map<string, Json>, name: string, default: Json): Json {
    if name in fields then fields[name] else default
  }

  function DecodeCursor(key: string, cursor: Json): Result<map<string, string>, StateError> {
    if cursor == Obj(map[]) then Ok(map[])
    else if !cursor.Obj? || cursor.fields.Keys != {"schema", "watermark"} then Err(CorruptCursor)
    else if cursor.fields["schema"] != Str(WATERMARK_SCHEMA) || !cursor.fields["watermark"].Str? then Err(CorruptCursor)
    else Ok(map[key := cursor.fields["watermark"].text])
  }

  /** The version check also lets the JSON value `true` through, as Python's equality does. */
  predicate IsSchemaOne(value: Json) {
    value == Num(1) || value == Bool(true)
  }

  /** `_decode_envelope`, given the parsed text. */
  function Decode(checks: Checks, key: string, envelope: Json): Result<SyncState, StateError> {
    if !envelope.Obj? || !IsSchemaOne(Field(envelope.fields, "schema_version", Null)) then Err(UnsupportedSchema)
    else if !Field(envelope.fields, "state", Null).Obj? then Err(CorruptState)
    else if envelope.fields.Keys != {"schema_version", "state"} then Err(CorruptTop)
    else
      var fields := envelope.fields["state"].fields;
      var cursor := DecodeCursor(key, Field(fields, "cursor", Obj(map[])));
      if cursor.Err? then Err(cursor.error)
      else if !Field(fields, "partitions", Obj(map[])).Obj? then Err(CorruptField("partitions"))
      else if !Field(fields, "extra", Obj(map[])).Obj? then Err(CorruptField("extra"))
      else
        var s := SyncState(cursor.value, Field(fields, "partitions", Obj(map[])).fields,
                           Field(fields, "last_synced_at", Null), Field(fields, "extra", Obj(map[])).fields);
        if Validate(checks, key, s).Some? then Err(Validate(checks, key, s).value) else Ok(s)
  }

  // ---------------------------------------------------------------- the checkpoint inside

  datatype Checkpoint = Checkpoint(nextBatch: nat, rowGroup: nat, version: Option<string>, destination: string)

  /** `_in_progress_state`. */
  function InProgressState(c: Checkpoint): SyncState {
    SyncState(map[], map[], Null, map[CHECKPOINT := Obj(map[
      "version" := Num(3), "status" := Str("in_progress"), "next_batch_index" := Num(c.nextBatch),
      "position" := Obj(map["kind" := Str("parquet_row_group"), "row_group_index" := Num(c.rowGroup)]),
      "source_version" := if c.version.Some? then Str(c.version.value) else Null,
      "destination_identity" := Str(c.destination)])])
  }

  datatype CheckpointError = NotADict | UnsupportedVersion | UnexpectedKeys | InvalidValues

  /** `_decode_checkpoint`: the pass's own reading of a state, written apart from the store's checks. */
  function DecodeCheckpoint(s: SyncState): Result<Option<Checkpoint>, CheckpointError> {
    if CHECKPOINT !in s.extra then Ok(None)
    else if !s.extra[CHECKPOINT].Obj? then Err(NotADict)
    else
      var f := s.extra[CHECKPOINT].fields;
      if "version" !in f || f["version"] != Num(3) then Err(UnsupportedVersion)
      else if f.Keys != CHECKPOINT_KEYS then Err(UnexpectedKeys)
      else
        var p := f["position"];
        if || f["status"] != Str("in_progress") || !IsIndex(f["next_batch_index"]) || !p.Obj?
           || p.fields.Keys != {"kind", "row_group_index"} || p.fields["kind"] != Str("parquet_row_group")
           || !IsIndex(p.fields["row_group_index"]) || !IsSourceVersion(f["source_version"])
           || !IsSha256(f["destination_identity"])
        then Err(InvalidValues)
        else Ok(Some(Checkpoint(f["next_batch_index"].number, p.fields["row_group_index"].number,
                                if f["source_version"].Str? then Some(f["source_version"].text) else None,
                                f["destination_identity"].text)))
  }

  // ---------------------------------------------------------------- what holds

  lemma {:induction false} CursorRoundTrip(checks: Checks, key: string, cursor: map<string, string>)
    requires ValidateCursor(checks, key, cursor).None?
    ensures cursor == map[] || key in cursor
    ensures DecodeCursor(key, EncodeCursor(key, cursor)) == Ok(cursor)
  {
    if cursor != map[] {
      var j := EncodeCursor(key, cursor);
      assert "schema" in j.fields && j != Obj(map[]);
      assert j.fields.Keys == {"schema", "watermark"};
      assert map[key := cursor[key]] == cursor;
    }
  }

  /** What is written is read back unchanged. */
  lemma {:induction false} RoundTrip(checks: Checks, key: string, s: SyncState)
    requires Validate(checks, key, s).None?
    ensures s.cursor == map[] || key in s.cursor
    ensures Decode(checks, key, Encode(key, s)) == Ok(s)
  {
    CursorRoundTrip(checks, key, s.cursor);
    var j := Encode(key, s);
    assert j.fields.Keys == {"schema_version", "state"};
  }

  /** The states some envelope decodes to are exactly those that may be written. */
  lemma {:induction false} ReadableIffWritable(checks: Checks, key: string, s: SyncState)
    ensures (exists j :: Decode(checks, key, j) == Ok(s)) <==> Validate(checks, key, s).None?
  {
    if Validate(checks, key, s).None? {
      RoundTrip(checks, key, s);
    }
  }

  /** Different states never share an encoding, so equal bytes mean equal states. */
  lemma {:induction false} EncodingIsInjective(checks: Checks, key: string, s: SyncState, t: SyncState)
    requires Validate(checks, key, s).None? && Validate(checks, key, t).None?
    requires s.cursor == map[] || key in s.cursor
    requires t.cursor == map[] || key in t.cursor
    ensures Encode(key, s) == Encode(key, t) <==> s == t
  {
    RoundTrip(checks, key, s);
    RoundTrip(checks, key, t);
  }

  /** The pass never rejects a checkpoint that the store let through, nor reads one the store refuses. */
  lemma {:induction false} StoreAndPassAgree(checks: Checks, s: SyncState)
    requires CHECKPOINT in s.extra
    ensures ValidateExtra(checks, s.extra).None? <==> s.extra.Keys == {CHECKPOINT} && DecodeCheckpoint(s).Ok?
  {
    assert CHECKPOINT !in {ARTIFACT, SOURCE_VERSION};
    if s.extra.Keys == {CHECKPOINT} {
      assert ARTIFACT !in s.extra;
    }
  }

  predicate WellFormed(c: Checkpoint) {
    (c.version.Some? ==> IsSha256(Str(c.version.value))) && IsSha256(Str(c.destination))
  }

  /** A checkpoint survives the store exactly when its digests are digests. */
  lemma {:induction false} CheckpointSurvives(checks: Checks, key: string, c: Checkpoint)
    ensures Validate(checks, key, InProgressState(c)).None? <==> WellFormed(c)
    ensures WellFormed(c) ==>
              && Decode(checks, key, Encode(key, InProgressState(c))) == Ok(InProgressState(c))
              && DecodeCheckpoint(InProgressState(c)) == Ok(Some(c))
  {
    var s := InProgressState(c);
    var f := s.extra[CHECKPOINT].fields;
    assert s.extra.Keys == {CHECKPOINT};
    assert f.Keys == CHECKPOINT_KEYS;
    assert f["position"].fields.Keys == {"kind", "row_group_index"};
    StoreAndPassAgree(checks, s);
    if WellFormed(c) {
      RoundTrip(checks, key, s);
    }
  }

  // ---------------------------------------------------------------- the rules, spelled out

  /** Sixty-four hexadecimal digits. */
  predicate IsDigest(j: Json) {
    j.Str? && |j.text| == 64 && forall i | 0 <= i < 64 :: j.text[i] in "0123456789abcdefABCDEF"
  }

  lemma {:induction false} DigestIff(j: Json)
    ensures IsSha256(j) <==> IsDigest(j)
  {
    if j.Str? && |j.text| == 64 {
      forall i | 0 <= i < 64
        ensures j.text[i] in "0123456789abcdefABCDEF" <==>
                  '0' <= j.text[i] <= '9' || 'a' <= j.text[i] <= 'f' || 'A' <= j.text[i] <= 'F'
      {
        HexDigit(j.text[i]);
      }
    }
  }

  lemma {:induction false} HexDigit(d: char)
    ensures d in "0123456789abcdefABCDEF" <==> '0' <= d <= '9' || 'a' <= d <= 'f' || 'A' <= d <= 'F'
  {
    assert "0123456789abcdefABCDEF" == "0123456789" + "abcdef" + "ABCDEF";
    assert d in "0123456789" <==> '0' <= d <= '9';
    assert d in "abcdef" <==> 'a' <= d <= 'f';
    assert d in "ABCDEF" <==> 'A' <= d <= 'F';
  }

  /** A checkpoint's fields: these six, each of its kind. */
  predicate IsCheckpoint(j: Json) {
    && j.Obj?
    && j.fields.Keys == {"version", "status", "next_batch_index", "position", "source_version", "destination_identity"}
    && j.fields["version"] == Num(3) && j.fields["status"] == Str("in_progress")
    && j.fields["next_batch_index"].Num? && j.fields["next_batch_index"].number >= 0
    && j.fields["position"].Obj? && j.fields["position"].fields.Keys == {"kind", "row_group_index"}
    && j.fields["position"].fields["kind"] == Str("parquet_row_group")
    && j.fields["position"].fields["row_group_index"].Num? && j.fields["position"].fields["row_group_index"].number >= 0
    && (j.fields["source_version"].Null? || IsDigest(j.fields["source_version"]))
    && IsDigest(j.fields["destination_identity"])
  }

  /** The rest of a state: nothing, a checkpoint alone, or a completed artifact with or without a source version. */
  predicate IsExtra(checks: Checks, extra: map<string, Json>) {
    || extra == map[]
    || (extra.Keys == {"datasluice_checkpoint"} && IsCheckpoint(extra["datasluice_checkpoint"]))
    || (&& "datasluice_completed_artifact" in extra
        && (forall k | k in extra :: k == "datasluice_completed_artifact" || k == "datasluice_source_version")
        && checks.artifact(extra["datasluice_completed_artifact"])
        && ("datasluice_source_version" in extra ==>
              extra["datasluice_source_version"].Null? || IsDigest(extra["datasluice_source_version"])))
  }

  lemma {:induction false} CheckpointIff(fields: map<string, Json>)
    ensures IsCheckpoint(Obj(fields)) <==>
              "version" in fields && fields["version"] == Num(3) && ValidateCheckpoint(fields).None?
  {
    if fields.Keys == CHECKPOINT_KEYS {
      assert "version" in fields && "source_version" in fields && "destination_identity" in fields;
      DigestIff(fields["source_version"]);
      DigestIff(fields["destination_identity"]);
    }
  }

  lemma {:induction false} ExtraIff(checks: Checks, extra: map<string, Json>)
    ensures ValidateExtra(checks, extra).None? <==> IsExtra(checks, extra)
  {
    assert "datasluice_checkpoint" != "datasluice_completed_artifact" by {
      assert |"datasluice_checkpoint"| == 21 && |"datasluice_completed_artifact"| == 29;
    }
    assert extra.Keys <= {ARTIFACT, SOURCE_VERSION} <==> forall k | k in extra :: k == ARTIFACT || k == SOURCE_VERSION;
    if SOURCE_VERSION in extra {
      DigestIff(extra[SOURCE_VERSION]);
    }
    if CHECKPOINT in extra && extra[CHECKPOINT].Obj? {
      CheckpointIff(extra[CHECKPOINT].fields);
    }
    if extra.Keys == {CHECKPOINT} {
      assert ARTIFACT !in extra && CHECKPOINT in extra;
    }
  }

  /**
   A state may be written exactly when its cursor is empty or holds an accepted watermark under the key
   alone, it has no partitions, its timestamp is absent or an accepted text of at most 128 characters, and
   the rest is one of the three shapes.
   */
  lemma {:induction false} WritableIff(checks: Checks, key: string, s: SyncState)
    ensures Validate(checks, key, s).None? <==>
              && (s.cursor == map[] || (s.cursor.Keys == {key} && checks.watermark(s.cursor[key])))
              && s.partitions == map[]
              && (s.lastSyncedAt.Null?
                  || (s.lastSyncedAt.Str? && 1 <= |s.lastSyncedAt.text| <= 128
                      && checks.timestamp(s.lastSyncedAt.text)))
              && IsExtra(checks, s.extra)
  {
    ExtraIff(checks, s.extra);
  }

  /** What an absent field of the stored state stands for. */
  predicate Reads(fields: map<string, Json>, name: string, value: Json, default: Json) {
    if name in fields then fields[name] == value else value == default
  }

  /** The stored form of a cursor. */
  predicate IsStoredCursor(key: string, j: Json, cursor: map<string, string>) {
    || (j == Obj(map[]) && cursor == map[])
    || (&& j.Obj? && j.fields.Keys == {"schema", "watermark"}
        && j.fields["schema"] == Str("datasluice_completed_watermark_v1")
        && cursor.Keys == {key} && j.fields["watermark"] == Str(cursor[key]))
  }

  lemma {:induction false} StoredCursorIff(key: string, j: Json, cursor: map<string, string>)
    ensures DecodeCursor(key, j) == Ok(cursor) <==> IsStoredCursor(key, j, cursor)
  {
    if cursor.Keys == {key} {
      assert cursor == map[key := cursor[key]];
      assert key in cursor && cursor != map[];
    }
    if j.Obj? && j.fields.Keys == {"schema", "watermark"} {
      assert "schema" in j.fields && j != Obj(map[]);
    }
  }

  /** The envelope around a stored state: exactly these two keys, the schema 1, a mapping. */
  predicate IsEnvelope(j: Json) {
    && j.Obj? && j.fields.Keys == {"schema_version", "state"} && j.fields["state"].Obj?
    && (j.fields["schema_version"] == Num(1) || j.fields["schema_version"] == Bool(true))
  }

  /** An envelope reads as a state exactly when it is one, its fields hold the state's, and the state may be written. */
  lemma {:induction false} DecodesIff(checks: Checks, key: string, j: Json, s: SyncState)
    ensures Decode(checks, key, j) == Ok(s) <==>
              && IsEnvelope(j) && Validate(checks, key, s).None?
              && var f := j.fields["state"].fields;
                 && IsStoredCursor(key, Field(f, "cursor", Obj(map[])), s.cursor)
                 && Reads(f, "partitions", Obj(s.partitions), Obj(map[]))
                 && Reads(f, "last_synced_at", s.lastSyncedAt, Null)
                 && Reads(f, "extra", Obj(s.extra), Obj(map[]))
  {
    if IsEnvelope(j) {
      StoredCursorIff(key, Field(j.fields["state"].fields, "cursor", Obj(map[])), s.cursor);
    } else if j.Obj? {
      assert "schema_version" in j.fields.Keys && "state" in j.fields.Keys <==>
             "schema_version" in j.fields && "state" in j.fields;
    }
  }
}
