/** The camera_segment record: gap validity, the producer's gap rule, and what
    an honest stream of records is. Times are integer nanoseconds. */
module CameraRecords {
  import opened Prelude
  import Json

  type Bytes = seq<int>

  /** SHA-256 as an ideal hash: equal digests have equal preimages. */
  datatype Digest = Sha256(preimage: Bytes)

  /** capture_policy, in nanoseconds. */
  datatype Policy = Policy(nominal: nat, jitter: nat, maxUnexplained: nat)

  /** A signed camera_segment body. The signature is deterministic, so a body
      is determined by its fields and two bodies are the same bytes exactly
      when these fields agree. */
  datatype Body = Body(
    camera: string,
    seqNo: nat,
    sha: Digest,
    prev: Option<Digest>,
    start: int,
    end: int,
    policy: Option<Policy>,
    sensor: int,
    gap: Json.Value)

  const GAP_REASON_MAX := 128
  const CAPTURE_GAP_TOLERANCE := 2_000_000_000

  // ---- gap validity: the rule shared by producer and auditor ----

  datatype GapDefect =
    | NotAnObject
    | UnexpectedKeys
    | NoAfterSeq
    | AfterSeqNotInteger
    | NoReason
    | ReasonNotString
    | ReasonEmpty
    | ReasonTooLong
    | GapOnSegmentZero
    | CitesNothingReal

  /** None when `gap` is acceptable on segment `seqNo` whose previously carried
      record is `prevSeq`; otherwise what is wrong with it. */
  function GapDefectOf(gap: Json.Value, seqNo: int, prevSeq: Option<int>): (d: Option<GapDefect>)
  {
    if gap.Null? then None
    else if !gap.Obj? then Some(NotAnObject)
    else if gap.fields.Keys - {"reason", "after_seq"} != {} then Some(UnexpectedKeys)
    else if "after_seq" !in gap.fields then Some(NoAfterSeq)
    else if !gap.fields["after_seq"].Int? then Some(AfterSeqNotInteger)
    else if "reason" !in gap.fields then Some(NoReason)
    else if !gap.fields["reason"].Str? then Some(ReasonNotString)
    else if gap.fields["reason"].text == "" then Some(ReasonEmpty)
    else if |gap.fields["reason"].text| > GAP_REASON_MAX then Some(ReasonTooLong)
    else if seqNo == 0 then Some(GapOnSegmentZero)
    else if gap.fields["after_seq"].number != seqNo - 1 && prevSeq != Some(gap.fields["after_seq"].number)
    then Some(CitesNothingReal)
    else None
  }

  function GapRecord(reason: string, after: int): Json.Value {
    Json.Obj(map["reason" := Json.Str(reason), "after_seq" := Json.Int(after)])
  }

  /** A present gap that names the immediate predecessor: acceptable whatever
      else the corpus carries. */
  predicate CitesPredecessor(gap: Json.Value, seqNo: int) {
    !gap.Null? && GapDefectOf(gap, seqNo, None).None?
  }

  /** The two gap forms the producer writes are valid on any segment but 0,
      and are valid for every choice of previously carried record. */
  lemma ProducerGapsAreValid(reason: string, seqNo: int)
    requires reason == "driver-restart" || reason == "capture-discontinuity"
    requires seqNo > 0
    ensures CitesPredecessor(GapRecord(reason, seqNo - 1), seqNo)
  {
    var gap := GapRecord(reason, seqNo - 1);
    assert gap.fields.Keys == {"reason", "after_seq"};
  }

  /** A gap that cites the predecessor stays valid in any filtered corpus. */
  lemma PredecessorCitationSurvivesFiltering(gap: Json.Value, seqNo: int, prevSeq: Option<int>)
    requires CitesPredecessor(gap, seqNo)
    ensures GapDefectOf(gap, seqNo, prevSeq).None?
  {
  }

  // ---- the producer's side ----

  /** state.json: the last record handed off. */
  datatype Cursor = Cursor(seqNo: nat, sha: Digest, end: int)

  function CursorOf(b: Body): Cursor {
    Cursor(b.seqNo, b.sha, b.end)
  }

  /** The gap for a segment whose capture starts at `start`. */
  function ContinuityGap(state: Option<Cursor>, start: int, pending: Json.Value): Json.Value {
    if !pending.Null? then pending
    else if state.Some? && start - state.value.end > CAPTURE_GAP_TOLERANCE
    then GapRecord("capture-discontinuity", state.value.seqNo)
    else Json.Null
  }

  /** The record for one closed segment on top of `state`. */
  function BuildBody(camera: string, policy: Option<Policy>, sensor: int,
                     content: Bytes, duration: nat, mtime: int,
                     state: Option<Cursor>, pending: Json.Value): Body
  {
    var start := mtime - duration;
    Body(camera,
         if state.Some? then state.value.seqNo + 1 else 0,
         Sha256(content),
         if state.Some? then Some(state.value.sha) else None,
         start,
         mtime,
         policy,
         sensor,
         ContinuityGap(state, start, pending))
  }

  // ---- what an honest stream is ----

  /** `b` may follow the records `before` in an honest stream. */
  predicate Follows(before: seq<Body>, b: Body, camera: string) {
    && b.camera == camera
    && b.seqNo == |before|
    && b.start <= b.end
    && if before == [] then
         b.prev.None? && b.gap.Null?
       else
         var last := before[|before| - 1];
         && b.prev == Some(last.sha)
         && last.end < b.end
         && (b.gap.Null? || CitesPredecessor(b.gap, b.seqNo))
         && (b.start - last.end > CAPTURE_GAP_TOLERANCE ==> !b.gap.Null?)
  }

  /** One camera's records numbered from 0, each citing its predecessor's
      segment hash, capture ends strictly increasing, every hole beyond the
      tolerance declared. */
  predicate HonestStream(records: seq<Body>, camera: string) {
    forall i :: 0 <= i < |records| ==> Follows(records[..i], records[i], camera)
  }

  lemma HonestStreamExtends(records: seq<Body>, b: Body, camera: string)
    requires HonestStream(records, camera) && Follows(records, b, camera)
    ensures HonestStream(records + [b], camera)
  {
    var longer := records + [b];
    forall i | 0 <= i < |longer| ensures Follows(longer[..i], longer[i], camera) {
      assert longer[..i] == if i < |records| then records[..i] else records;
    }
  }

  lemma HonestStreamAt(records: seq<Body>, camera: string, i: nat)
    requires HonestStream(records, camera) && i < |records|
    ensures records[i].camera == camera && records[i].seqNo == i && records[i].start <= records[i].end
    ensures i == 0 ==> records[i].prev.None? && records[i].gap.Null?
    ensures i > 0 ==> records[i].prev == Some(records[i - 1].sha) && records[i - 1].end < records[i].end
    ensures i > 0 && records[i].start - records[i - 1].end > CAPTURE_GAP_TOLERANCE ==> !records[i].gap.Null?
    ensures records[i].gap.Null? || CitesPredecessor(records[i].gap, i)
  {
    assert Follows(records[..i], records[i], camera);
    if i > 0 {
      assert records[..i][i - 1] == records[i - 1];
    }
  }

  lemma HonestStreamEndsIncrease(records: seq<Body>, camera: string, i: nat, j: nat)
    requires HonestStream(records, camera) && i < j < |records|
    ensures records[i].end < records[j].end
    decreases j
  {
    HonestStreamAt(records, camera, j);
    if i < j - 1 {
      HonestStreamEndsIncrease(records, camera, i, j - 1);
    }
  }

  /** What BuildBody makes on top of an honest stream continues it, provided
      the pending gap is absent or names the stream's last record. */
  lemma BuiltBodyFollows(records: seq<Body>, camera: string, policy: Option<Policy>, sensor: int,
                         content: Bytes, duration: nat, mtime: int, pending: Json.Value)
    requires HonestStream(records, camera)
    requires records != [] ==> records[|records| - 1].end < mtime
    requires pending.Null? || (records != [] && pending == GapRecord("driver-restart", |records| - 1))
    ensures var state := LastCursor(records);
            Follows(records, BuildBody(camera, policy, sensor, content, duration, mtime, state, pending), camera)
  {
    if records != [] {
      HonestStreamAt(records, camera, |records| - 1);
      ProducerGapsAreValid("driver-restart", |records|);
      ProducerGapsAreValid("capture-discontinuity", |records|);
    }
  }

  function LastCursor(records: seq<Body>): Option<Cursor> {
    if records == [] then None else Some(CursorOf(records[|records| - 1]))
  }
}
