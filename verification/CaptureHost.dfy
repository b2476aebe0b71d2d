/** The capture host: closed segments become numbered, hash-linked bodies that
    are staged, shipped to the spool, checkpointed and only then forgotten.

    The process may die before any durable write, a ship may deliver and still
    report failure, and an unlink may silently fail. `Recoverable` is what
    every durable state satisfies nevertheless, so it is also what every
    restart may rely on. */
module CaptureHost {
  import opened Prelude
  import opened CameraRecords

  /** A file in the capture work directory. `name` stands for its place in the
      sorted listing; ffmpeg reuses names after every restart. */
  datatype File = File(name: nat, content: Bytes, mtime: int)

  /** One line of the shipped checkpoint. */
  datatype Shipped = Shipped(seqNo: nat, sha: Digest, end: int)

  /** The outbox and spool job name `<seq>.<sha>` (one camera). */
  datatype Job = Job(seqNo: nat, sha: Digest)

  /** Everything that survives the process: state.json, the checkpoint, the
      work directory, the two halves of each staged pair, and the bodies whose
      `.done` marker reached the spool, in order of arrival. */
  datatype Disk = Disk(
    cursor: Option<Cursor>,
    checkpoint: seq<Shipped>,
    work: set<File>,
    segments: set<Job>,
    bodies: map<Job, Body>,
    spool: seq<Body>)

  /** The camera being recorded: its id, what `mp4_duration_s` and the sensor
      validator answer for given bytes, whether a body fits the daemon's
      artifact field, and the capture policies its runs may declare. */
  datatype Camera = Camera(
    id: string,
    duration: Bytes -> Option<nat>,
    sensor: Bytes -> int,
    fits: Body -> bool,
    policies: set<Option<Policy>>)

  // ---- the checkpoint as a dictionary ----

  /** `shipped[key] = record`: replace in place, or append a new key. */
  function Put(index: seq<Shipped>, r: Shipped): seq<Shipped> {
    if index == [] then [r]
    else if index[0].sha == r.sha && index[0].end == r.end then [r] + index[1..]
    else [index[0]] + Put(index[1..], r)
  }

  function Load(lines: seq<Shipped>): seq<Shipped> {
    if lines == [] then []
    else Put(Load(lines[..|lines| - 1]), lines[|lines| - 1])
  }

  function Find(index: seq<Shipped>, sha: Digest, end: int): Option<Shipped> {
    if index == [] then None
    else if index[0].sha == sha && index[0].end == end then Some(index[0])
    else Find(index[1..], sha, end)
  }

  /** `max(..., key=segment_seq)`: the first record of greatest number. */
  function Newest(index: seq<Shipped>): Shipped
    requires index != []
  {
    if |index| == 1 then index[0]
    else
      var rest := Newest(index[1..]);
      if index[0].seqNo >= rest.seqNo then index[0] else rest
  }

  /** The resume point: the checkpoint's newest record wins when it is ahead. */
  function ResumeState(state: Option<Cursor>, index: seq<Shipped>): Option<Cursor> {
    if index == [] then state
    else
      var tail := Newest(index);
      if state.Some? && state.value.seqNo >= tail.seqNo then state
      else Some(Cursor(tail.seqNo, tail.sha, tail.end))
  }

  // ---- what every durable state satisfies ----

  ghost function Line(b: Body): Shipped {
    Shipped(b.seqNo, b.sha, b.end)
  }

  ghost predicate SameSegment(b: Body, f: File) {
    b.sha == Sha256(f.content) && b.end == f.mtime
  }

  /** The closed segments, oldest first: attestable, in order of their mtimes. */
  ghost predicate ClosedInOrder(closed: seq<File>, cam: Camera) {
    && (forall i :: 0 <= i < |closed| ==> cam.duration(closed[i].content).Some?)
    && (forall i, j :: 0 <= i < j < |closed| ==> closed[i].mtime < closed[j].mtime)
  }

  /** The records handed off so far are an honest stream over the first closed
      segments, the checkpoint lists exactly them, and state.json is one of
      them or absent. */
  ghost predicate LedgerOk(d: Disk, log: seq<Body>, closed: seq<File>, cam: Camera) {
    && HonestStream(log, cam.id)
    && |log| <= |closed|
    && (forall i :: 0 <= i < |log| ==> SameSegment(log[i], closed[i]) && log[i].policy in cam.policies)
    && |d.checkpoint| == |log|
    && (forall i :: 0 <= i < |log| ==> d.checkpoint[i] == Line(log[i]))
    && (d.cursor.Some? ==> d.cursor.value.seqNo < |log| && d.cursor.value == CursorOf(log[d.cursor.value.seqNo]))
  }

  /** `b` is a record for the oldest closed segment not yet handed off. */
  ghost predicate IsNext(b: Body, log: seq<Body>, closed: seq<File>, cam: Camera) {
    && |log| < |closed|
    && SameSegment(b, closed[|log|])
    && Follows(log, b, cam.id)
    && b.policy in cam.policies
  }

  /** A staged body fits the artifact field and is a record already handed off,
      or the next one. */
  ghost predicate OutboxOk(d: Disk, log: seq<Body>, closed: seq<File>, cam: Camera) {
    forall job :: job in d.bodies ==>
      var b := d.bodies[job];
      && job == Job(b.seqNo, b.sha)
      && job in d.segments
      && cam.fits(b)
      && b.seqNo <= |log|
      && (b.seqNo < |log| ==> b == log[b.seqNo])
      && (b.seqNo == |log| ==> IsNext(b, log, closed, cam))
  }

  /** Every handed-off record reached the spool; anything else there is the
      next record, and its staged copy is still in the outbox. */
  ghost predicate SpoolOk(d: Disk, log: seq<Body>) {
    && (forall i :: 0 <= i < |log| ==> log[i] in d.spool)
    && (forall b :: b in d.spool ==>
          || b in log
          || (b.seqNo == |log| && Job(b.seqNo, b.sha) in d.bodies && d.bodies[Job(b.seqNo, b.sha)] == b))
  }

  /** No closed segment is lost: each one not handed off is still in the work
      directory, where waiting segments sort by name as they do by mtime. */
  ghost predicate WorkOk(d: Disk, log: seq<Body>, closed: seq<File>, cam: Camera)
    requires |log| <= |closed|
  {
    && (forall f, g :: f in d.work && g in d.work && f.name == g.name ==> f == g)
    && (forall f :: f in closed[|log|..] ==> f in d.work)
    && (forall f :: f in d.work && cam.duration(f.content).Some? ==> f in closed)
    && (forall f, g :: f in closed[|log|..] && g in closed[|log|..] && f.name < g.name ==> f.mtime < g.mtime)
  }

  ghost predicate Recoverable(d: Disk, log: seq<Body>, closed: seq<File>, cam: Camera) {
    && ClosedInOrder(closed, cam)
    && LedgerOk(d, log, closed, cam)
    && OutboxOk(d, log, closed, cam)
    && SpoolOk(d, log)
    && WorkOk(d, log, closed, cam)
  }

  // ---- lemmas about the dictionary ----

  ghost predicate DistinctKeys(index: seq<Shipped>) {
    forall i, j :: 0 <= i < j < |index| ==> !(index[i].sha == index[j].sha && index[i].end == index[j].end)
  }

  lemma {:induction false} FindMeaning(index: seq<Shipped>, sha: Digest, end: int)
    ensures Find(index, sha, end).Some? <==> exists i :: 0 <= i < |index| && index[i].sha == sha && index[i].end == end
  {
    if index != [] {
      FindMeaning(index[1..], sha, end);
      if i :| 0 <= i < |index| && index[i].sha == sha && index[i].end == end {
        assert i > 0 ==> index[1..][i - 1] == index[i];
      }
    }
  }

  lemma {:induction false} PutNewKeyAppends(index: seq<Shipped>, r: Shipped)
    requires forall i :: 0 <= i < |index| ==> !(index[i].sha == r.sha && index[i].end == r.end)
    ensures Put(index, r) == index + [r]
  {
    if index != [] {
      PutNewKeyAppends(index[1..], r);
      assert index == [index[0]] + index[1..];
    }
  }

  lemma LoadKeepsDistinctLines(lines: seq<Shipped>)
    requires DistinctKeys(lines)
    ensures Load(lines) == lines
  {
    if lines != [] {
      var init := lines[..|lines| - 1];
      LoadKeepsDistinctLines(init);
      PutNewKeyAppends(init, lines[|lines| - 1]);
      assert lines == init + [lines[|lines| - 1]];
    }
  }

  lemma NewestIsLast(index: seq<Shipped>, base: int)
    requires index != []
    requires forall i :: 0 <= i < |index| ==> index[i].seqNo == base + i
    ensures Newest(index) == index[|index| - 1]
  {
    if |index| > 1 {
      NewestIsLast(index[1..], base + 1);
    }
  }

  lemma CheckpointIsNumbered(d: Disk, log: seq<Body>, closed: seq<File>, cam: Camera)
    requires ClosedInOrder(closed, cam) && LedgerOk(d, log, closed, cam)
    ensures DistinctKeys(d.checkpoint)
    ensures forall i :: 0 <= i < |log| ==> d.checkpoint[i].seqNo == i && log[i].seqNo == i
  {
    hide HonestStream;
    forall i | 0 <= i < |log| ensures log[i].seqNo == i {
      HonestStreamAt(log, cam.id, i);
    }
  }

  /** Whatever lag the crash left between state.json and the checkpoint, the
      resume point is the last record handed off. */
  lemma ResumeFindsLastRecord(d: Disk, log: seq<Body>, closed: seq<File>, cam: Camera)
    requires Recoverable(d, log, closed, cam)
    ensures DistinctKeys(d.checkpoint) && Load(d.checkpoint) == d.checkpoint
    ensures ResumeState(d.cursor, d.checkpoint) == LastCursor(log)
  {
    hide OutboxOk, SpoolOk, WorkOk, HonestStream, DistinctKeys, ClosedInOrder, Load;
    CheckpointIsNumbered(d, log, closed, cam);
    LoadKeepsDistinctLines(d.checkpoint);
    if log != [] {
      NewestIsLast(d.checkpoint, 0);
    }
  }

  /** The checkpoint recognises a closed segment exactly when it was handed off. */
  lemma IndexRecognises(d: Disk, log: seq<Body>, closed: seq<File>, cam: Camera, k: nat)
    requires ClosedInOrder(closed, cam) && LedgerOk(d, log, closed, cam)
    requires k < |closed|
    ensures Find(d.checkpoint, Sha256(closed[k].content), closed[k].mtime).Some? <==> k < |log|
  {
    FindMeaning(d.checkpoint, Sha256(closed[k].content), closed[k].mtime);
    if k < |log| {
      assert d.checkpoint[k].sha == Sha256(closed[k].content);
    }
  }

  // ---- one lemma per durable write ----

  lemma SameLedger(d: Disk, d': Disk, log: seq<Body>, closed: seq<File>, cam: Camera)
    requires LedgerOk(d, log, closed, cam) && d'.checkpoint == d.checkpoint && d'.cursor == d.cursor
    ensures LedgerOk(d', log, closed, cam)
  {
    hide HonestStream;
  }

  lemma SameOutbox(d: Disk, d': Disk, log: seq<Body>, closed: seq<File>, cam: Camera)
    requires OutboxOk(d, log, closed, cam) && d'.bodies == d.bodies && d.segments <= d'.segments
    ensures OutboxOk(d', log, closed, cam)
  {
    hide IsNext;
  }

  lemma SameSpool(d: Disk, d': Disk, log: seq<Body>)
    requires SpoolOk(d, log) && d'.bodies == d.bodies && d'.spool == d.spool
    ensures SpoolOk(d', log)
  {
  }

  lemma SameWork(d: Disk, d': Disk, log: seq<Body>, closed: seq<File>, cam: Camera)
    requires |log| <= |closed| && WorkOk(d, log, closed, cam) && d'.work == d.work
    ensures WorkOk(d', log, closed, cam)
  {
  }

  lemma StageSegmentKeeps(d: Disk, log: seq<Body>, closed: seq<File>, cam: Camera, job: Job)
    requires Recoverable(d, log, closed, cam)
    ensures Recoverable(d.(segments := d.segments + {job}), log, closed, cam)
  {
    LogIsShorter(d, log, closed, cam);
    hide LedgerOk, OutboxOk, SpoolOk, WorkOk;
    var d' := d.(segments := d.segments + {job});
    SameLedger(d, d', log, closed, cam);
    SameOutbox(d, d', log, closed, cam);
    SameSpool(d, d', log);
    SameWork(d, d', log, closed, cam);
  }

  lemma LogIsShorter(d: Disk, log: seq<Body>, closed: seq<File>, cam: Camera)
    requires LedgerOk(d, log, closed, cam)
    ensures |log| <= |closed|
  {
  }

  lemma StageBodyKeepsOutbox(d: Disk, log: seq<Body>, closed: seq<File>, cam: Camera, b: Body)
    requires OutboxOk(d, log, closed, cam)
    requires IsNext(b, log, closed, cam) && b.seqNo == |log| && cam.fits(b) && Job(b.seqNo, b.sha) in d.segments
    ensures OutboxOk(d.(bodies := d.bodies[Job(b.seqNo, b.sha) := b]), log, closed, cam)
  {
    hide IsNext;
  }

  lemma StageBodyKeeps(d: Disk, log: seq<Body>, closed: seq<File>, cam: Camera, b: Body)
    requires Recoverable(d, log, closed, cam)
    requires IsNext(b, log, closed, cam) && cam.fits(b) && Job(b.seqNo, b.sha) in d.segments
    requires Job(b.seqNo, b.sha) in d.bodies ==> d.bodies[Job(b.seqNo, b.sha)] == b
    ensures Recoverable(d.(bodies := d.bodies[Job(b.seqNo, b.sha) := b]), log, closed, cam)
  {
    hide LedgerOk, OutboxOk, WorkOk;
    var d' := d.(bodies := d.bodies[Job(b.seqNo, b.sha) := b]);
    LogIsShorter(d, log, closed, cam);
    SameLedger(d, d', log, closed, cam);
    StageBodyKeepsOutbox(d, log, closed, cam, b);
    SameWork(d, d', log, closed, cam);
    assert SpoolOk(d', log);
  }

  lemma ShipKeeps(d: Disk, log: seq<Body>, closed: seq<File>, cam: Camera, b: Body)
    requires Recoverable(d, log, closed, cam)
    requires b.seqNo == |log| && Job(b.seqNo, b.sha) in d.bodies && d.bodies[Job(b.seqNo, b.sha)] == b
    ensures Recoverable(d.(spool := d.spool + [b]), log, closed, cam)
  {
    hide LedgerOk, OutboxOk, WorkOk;
    var d' := d.(spool := d.spool + [b]);
    LogIsShorter(d, log, closed, cam);
    SameLedger(d, d', log, closed, cam);
    SameOutbox(d, d', log, closed, cam);
    SameWork(d, d', log, closed, cam);
    assert SpoolOk(d', log);
  }

  lemma CheckpointKeepsLedger(d: Disk, log: seq<Body>, closed: seq<File>, cam: Camera, b: Body)
    requires LedgerOk(d, log, closed, cam) && IsNext(b, log, closed, cam)
    ensures LedgerOk(d.(checkpoint := d.checkpoint + [Line(b)]), log + [b], closed, cam)
  {
    HonestStreamExtends(log, b, cam.id);
  }

  lemma CheckpointKeepsOutbox(d: Disk, log: seq<Body>, closed: seq<File>, cam: Camera, b: Body)
    requires OutboxOk(d, log, closed, cam) && IsNext(b, log, closed, cam)
    requires Job(b.seqNo, b.sha) in d.bodies && d.bodies[Job(b.seqNo, b.sha)] == b
    ensures OutboxOk(d, log + [b], closed, cam)
  {
    forall job | job in d.bodies && d.bodies[job].seqNo == |log| ensures d.bodies[job] == b {
      assert job == Job(|log|, Sha256(closed[|log|].content));
    }
  }

  lemma CheckpointKeepsWork(d: Disk, log: seq<Body>, closed: seq<File>, cam: Camera, b: Body)
    requires |log| < |closed| && WorkOk(d, log, closed, cam)
    ensures WorkOk(d, log + [b], closed, cam)
  {
    assert closed[|log|..] == [closed[|log|]] + closed[|log| + 1..];
  }

  lemma CheckpointKeeps(d: Disk, log: seq<Body>, closed: seq<File>, cam: Camera, b: Body)
    requires Recoverable(d, log, closed, cam)
    requires IsNext(b, log, closed, cam) && b in d.spool
    requires Job(b.seqNo, b.sha) in d.bodies && d.bodies[Job(b.seqNo, b.sha)] == b
    ensures Recoverable(d.(checkpoint := d.checkpoint + [Line(b)]), log + [b], closed, cam)
  {
    var d' := d.(checkpoint := d.checkpoint + [Line(b)]);
    CheckpointKeepsLedger(d, log, closed, cam, b);
    assert OutboxOk(d', log + [b], closed, cam) by {
      CheckpointKeepsOutbox(d, log, closed, cam, b);
    }
    assert SpoolOk(d', log + [b]) by {
      forall job | job in d.bodies && d.bodies[job].seqNo == |log| ensures d.bodies[job] == b {
        assert job == Job(|log|, Sha256(closed[|log|].content));
      }
    }
    assert WorkOk(d', log + [b], closed, cam) by {
      CheckpointKeepsWork(d, log, closed, cam, b);
    }
  }

  lemma SaveStateKeeps(d: Disk, log: seq<Body>, closed: seq<File>, cam: Camera)
    requires Recoverable(d, log, closed, cam) && log != []
    ensures Recoverable(d.(cursor := LastCursor(log)), log, closed, cam)
  {
    var d' := d.(cursor := LastCursor(log));
    assert LedgerOk(d', log, closed, cam) by { hide OutboxOk, WorkOk, SpoolOk; HonestStreamAt(log, cam.id, |log| - 1); }
    LogIsShorter(d, log, closed, cam);
    hide LedgerOk, OutboxOk, SpoolOk, WorkOk;
    SameOutbox(d, d', log, closed, cam);
    SameSpool(d, d', log);
    SameWork(d, d', log, closed, cam);
  }

  /** Only a file already handed off, or one that is no segment, is removed. */
  lemma UnlinkKeeps(d: Disk, log: seq<Body>, closed: seq<File>, cam: Camera, f: File)
    requires Recoverable(d, log, closed, cam)
    requires f !in closed[|log|..]
    ensures Recoverable(d.(work := d.work - {f}), log, closed, cam)
  {
    LogIsShorter(d, log, closed, cam);
    var d' := d.(work := d.work - {f});
    hide LedgerOk, OutboxOk, SpoolOk;
    SameLedger(d, d', log, closed, cam);
    SameOutbox(d, d', log, closed, cam);
    SameSpool(d, d', log);
  }

  /** A job holds the body it is named after, and none is numbered past the
      next record. */
  lemma JobNamesItsBody(d: Disk, log: seq<Body>, closed: seq<File>, cam: Camera)
    requires Recoverable(d, log, closed, cam)
    ensures forall job :: job in d.bodies ==> d.bodies[job].seqNo == job.seqNo <= |log|
  {
  }

  // ---- the environment: ffmpeg ----

  /** ffmpeg may (re)write a name: the clock has moved on, a name holding a
      waiting segment is never reused, and waiting segments sort before it. */
  predicate MayCapture(d: Disk, log: seq<Body>, closed: seq<File>, f: File)
    requires |log| <= |closed|
  {
    && (forall g :: g in closed ==> g.mtime < f.mtime)
    && (forall g :: g in closed[|log|..] ==> g.name < f.name)
  }

  function Captured(d: Disk, f: File): Disk {
    d.(work := (set g | g in d.work && g.name != f.name) + {f})
  }

  function ClosedAfter(closed: seq<File>, f: File, cam: Camera): seq<File> {
    if cam.duration(f.content).Some? then closed + [f] else closed
  }

  lemma CaptureKeepsClosed(log: seq<Body>, closed: seq<File>, cam: Camera, f: File)
    requires ClosedInOrder(closed, cam)
    requires forall g :: g in closed ==> g.mtime < f.mtime
    ensures ClosedInOrder(ClosedAfter(closed, f, cam), cam)
  {
    forall i | 0 <= i < |closed| ensures closed[i].mtime < f.mtime {
      assert closed[i] in closed;
    }
  }

  lemma CaptureKeepsWork(d: Disk, log: seq<Body>, closed: seq<File>, cam: Camera, f: File)
    requires |log| <= |closed| && WorkOk(d, log, closed, cam) && MayCapture(d, log, closed, f)
    ensures WorkOk(Captured(d, f), log, ClosedAfter(closed, f, cam), cam)
  {
    var closed' := ClosedAfter(closed, f, cam);
    if closed' != closed {
      assert closed'[|log|..] == closed[|log|..] + [f];
      forall g | g in closed[|log|..] ensures g in closed {
      }
    }
  }

  lemma CaptureKeepsLedger(d: Disk, log: seq<Body>, closed: seq<File>, cam: Camera, f: File)
    requires LedgerOk(d, log, closed, cam)
    ensures LedgerOk(Captured(d, f), log, ClosedAfter(closed, f, cam), cam)
  {
    hide HonestStream;
  }

  lemma CaptureKeepsOutbox(d: Disk, log: seq<Body>, closed: seq<File>, cam: Camera, f: File)
    requires OutboxOk(d, log, closed, cam)
    ensures OutboxOk(Captured(d, f), log, ClosedAfter(closed, f, cam), cam)
  {
    hide Follows;
  }

  lemma CaptureKeeps(d: Disk, log: seq<Body>, closed: seq<File>, cam: Camera, f: File)
    requires Recoverable(d, log, closed, cam) && MayCapture(d, log, closed, f)
    ensures Recoverable(Captured(d, f), log, ClosedAfter(closed, f, cam), cam)
  {
    var d', closed' := Captured(d, f), ClosedAfter(closed, f, cam);
    CaptureKeepsClosed(log, closed, cam, f);
    LogIsShorter(d, log, closed, cam);
    CaptureKeepsLedger(d, log, closed, cam, f);
    CaptureKeepsOutbox(d, log, closed, cam, f);
    hide LedgerOk, OutboxOk, SpoolOk, WorkOk, ClosedInOrder;
    SameSpool(d, d', log);
    CaptureKeepsWork(d, log, closed, cam, f);
  }

  /** In either listing order the first waiting segment is the oldest one. */
  lemma FirstWaitingIsOldest(d: Disk, log: seq<Body>, closed: seq<File>, cam: Camera, f: File)
    requires Recoverable(d, log, closed, cam)
    requires f in closed[|log|..]
    requires || (forall g :: g in closed[|log|..] ==> f.name <= g.name)
             || (forall g :: g in closed[|log|..] ==> f.mtime <= g.mtime)
    ensures f == closed[|log|]
  {
    var oldest := closed[|log|];
    assert oldest in closed[|log|..];
    assert oldest in d.work && f in d.work;
  }
}
