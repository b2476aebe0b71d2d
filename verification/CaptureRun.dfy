/** The live driver as the program runs it, one durable write at a time.

    `Dies` may answer true before every durable write, so a contract that holds
    however a method returns holds at every point where the process can be
    killed. `log` and `closed` are history variables: the records handed off
    and the segments ffmpeg closed. */
module CaptureRun {
  import opened Prelude
  import opened CameraRecords
  import opened CaptureHost
  import Json

  datatype Outcome = Attested | NotASegment | Refused | Died

  datatype Step = Next | Stop | Dead

  lemma HeadIsMember<T>(s: seq<T>)
    ensures s != [] ==> s[0] in s
  {
  }

  function SortKey(f: File, byName: bool): int {
    if byName then f.name else f.mtime
  }

  /** The head of the sorted listing. */
  method Earliest(files: set<File>, byName: bool) returns (f: File)
    requires files != {}
    ensures f in files
    ensures forall g :: g in files ==> SortKey(f, byName) <= SortKey(g, byName)
  {
    f :| f in files;
    var rest := files - {f};
    while rest != {}
      invariant f in files && rest <= files
      invariant forall g :: g in files - rest ==> SortKey(f, byName) <= SortKey(g, byName)
      decreases |rest|
    {
      var g :| g in rest;
      rest := rest - {g};
      if SortKey(g, byName) < SortKey(f, byName) {
        f := g;
      }
    }
  }

  /** The record built for a closed segment. */
  function RecordFor(cam: Camera, f: File, policy: Option<Policy>, state: Option<Cursor>, pending: Json.Value): Body
    requires cam.duration(f.content).Some?
  {
    BuildBody(cam.id, policy, cam.sensor(f.content), f.content, cam.duration(f.content).value, f.mtime, state, pending)
  }

  /** The gap a driver may owe: none, or the one a restart declares. */
  ghost predicate Owed(log: seq<Body>, pending: Json.Value) {
    pending.Null? || (log != [] && pending == GapRecord("driver-restart", |log| - 1))
  }

  /** The next segment's record does not fit the daemon's artifact field: the
      one reason an undisturbed driver stops. */
  ghost predicate NextTooLong(cam: Camera, log: seq<Body>, closed: seq<File>, policy: Option<Policy>) {
    && |log| < |closed| && cam.duration(closed[|log|].content).Some?
    && exists pending :: Owed(log, pending) && !cam.fits(RecordFor(cam, closed[|log|], policy, LastCursor(log), pending))
  }

  /** Whatever is staged under number `n` is `b`. */
  ghost predicate AheadIs(bodies: map<Job, Body>, n: nat, b: Option<Body>) {
    forall job :: job in bodies && bodies[job].seqNo == n ==> b == Some(bodies[job])
  }

  lemma StagingKeepsAhead(bodies: map<Job, Body>, job: Job, b: Body)
    requires AheadIs(bodies, b.seqNo, Some(b))
    ensures AheadIs(bodies[job := b], b.seqNo, Some(b))
  {
  }

  class Host {
    const cam: Camera
    var disk: Disk
    var log: seq<Body>
    var closed: seq<File>
    var calm: bool  // nothing dies and every ship succeeds

    constructor (cam: Camera)
      ensures this.cam == cam && Valid()
      ensures log == [] && closed == [] && !calm
    {
      this.cam := cam;
      disk := Disk(None, [], {}, {}, map[], []);
      log, closed, calm := [], [], false;
    }

    method Dies() returns (now: bool)
      ensures calm ==> !now
    {
      var killed: bool := *;
      now := killed && !calm;
    }

    ghost predicate Valid()
      reads this
    {
      Recoverable(disk, log, closed, cam)
    }

    function BodyFor(f: File, policy: Option<Policy>, state: Option<Cursor>, pending: Json.Value): Body
      requires cam.duration(f.content).Some?
    {
      RecordFor(cam, f, policy, state, pending)
    }

    /** The record a driver in this state would build next. */
    ghost function NextRecord(policy: Option<Policy>, state: Option<Cursor>, pending: Json.Value): Option<Body>
      reads this
    {
      if |log| < |closed| && cam.duration(closed[|log|].content).Some?
      then Some(BodyFor(closed[|log|], policy, state, pending)) else None
    }

    /** What a running driver additionally knows: its cursor is the last record,
        and a record it may already have staged for the oldest waiting segment
        is the very one it would build again. */
    ghost predicate InSession(policy: Option<Policy>, state: Option<Cursor>, pending: Json.Value)
      reads this
    {
      && Valid()
      && policy in cam.policies
      && state == LastCursor(log)
      && Owed(log, pending)
      && AheadIs(disk.bodies, |log|, NextRecord(policy, state, pending))
    }

    /** No undisturbed driver gets past here: the next record is too long, and
        nothing is staged for its segment. */
    ghost predicate Stuck(policy: Option<Policy>)
      reads this
    {
      NextTooLong(cam, log, closed, policy) && AheadIs(disk.bodies, |log|, None)
    }

    /** A staged body fits, so a record that does not was never staged. */
    lemma LongRecordIsNotStaged(policy: Option<Policy>, state: Option<Cursor>, pending: Json.Value)
      requires InSession(policy, state, pending) && |log| < |closed| && cam.duration(closed[|log|].content).Some?
      requires !cam.fits(BodyFor(closed[|log|], policy, state, pending))
      ensures Stuck(policy)
    {
    }

    lemma BuiltIsNext(policy: Option<Policy>, state: Option<Cursor>, pending: Json.Value)
      requires InSession(policy, state, pending) && |log| < |closed|
      ensures cam.duration(closed[|log|].content).Some?
      ensures IsNext(BodyFor(closed[|log|], policy, state, pending), log, closed, cam)
    {
      var f := closed[|log|];
      if log != [] {
        assert SameSegment(log[|log| - 1], closed[|log| - 1]);
      }
      BuiltBodyFollows(log, cam.id, policy, cam.sensor(f.content), f.content,
                       cam.duration(f.content).value, f.mtime, pending);
    }

    /** sftp: the `.done` marker goes last, so a job arrives whole or not at all;
        a delivered job can still be reported as failed. */
    method Ship(b: Body) returns (ok: bool)
      modifies this`disk
      ensures disk == old(disk) || disk == old(disk).(spool := old(disk).spool + [b])
      ensures ok ==> disk == old(disk).(spool := old(disk).spool + [b])
      ensures calm ==> ok
    {
      var delivered: bool, reported: bool := *, *;
      if calm {
        delivered, reported := true, true;
      }
      if delivered {
        disk := disk.(spool := disk.spool + [b]);
      }
      ok := delivered && reported;
    }

    method UnlinkQuiet(f: File)
      requires Valid() && |log| <= |closed| && f !in closed[|log|..]
      modifies this`disk
      ensures Valid()
      ensures disk == old(disk) || disk == old(disk).(work := old(disk).work - {f})
    {
      var removed: bool := *;
      if removed {
        UnlinkKeeps(disk, log, closed, cam, f);
        disk := disk.(work := disk.work - {f});
      }
    }

    /** ffmpeg writes files of its own accord. */
    method Capture(attempts: nat)
      requires Valid()
      modifies this`disk, this`closed
      ensures Valid() && old(closed) <= closed
      ensures disk == old(disk).(work := disk.work)
    {
      for i := 0 to attempts
        invariant Valid() && old(closed) <= closed
        invariant disk == old(disk).(work := disk.work)
      {
        var f: File := *;
        if MayCapture(disk, log, closed, f) {
          CaptureKeeps(disk, log, closed, cam, f);
          disk := Captured(disk, f);
          closed := ClosedAfter(closed, f, cam);
        }
      }
    }

    /** Durable handoff of a staged body: checkpoint first, then state.json. */
    method RecordHandoff(b: Body) returns (alive: bool)
      requires Valid()
      requires IsNext(b, log, closed, cam) && b in disk.spool
      requires Job(b.seqNo, b.sha) in disk.bodies && disk.bodies[Job(b.seqNo, b.sha)] == b
      modifies this`disk, this`log
      ensures Valid()
      ensures disk.work == old(disk.work) && disk.bodies == old(disk.bodies)
      ensures alive ==> log == old(log) + [b] && disk.checkpoint == old(disk.checkpoint) + [Shipped(b.seqNo, b.sha, b.end)]
      ensures alive ==> disk.cursor == LastCursor(log)
      ensures !alive ==> log == old(log) || log == old(log) + [b]
      ensures calm ==> alive
    {
      hide Recoverable;
      var dead := Dies();
      if dead { return false; }
      CheckpointKeeps(disk, log, closed, cam, b);
      disk := disk.(checkpoint := disk.checkpoint + [Shipped(b.seqNo, b.sha, b.end)]);
      log := log + [b];

      dead := Dies();
      if dead { return false; }
      SaveStateKeeps(disk, log, closed, cam);
      disk := disk.(cursor := Some(CursorOf(b)));
      return true;
    }

    /** The two halves of a job, segment first. */
    method Stage(b: Body) returns (alive: bool)
      requires Valid() && IsNext(b, log, closed, cam) && cam.fits(b)
      requires AheadIs(disk.bodies, b.seqNo, Some(b))
      modifies this`disk
      ensures Valid() && disk.work == old(disk.work) && disk.checkpoint == old(disk.checkpoint)
      ensures AheadIs(disk.bodies, b.seqNo, Some(b))
      ensures alive ==> Job(b.seqNo, b.sha) in disk.bodies && disk.bodies[Job(b.seqNo, b.sha)] == b
      ensures calm ==> alive
    {
      hide Recoverable, IsNext;
      var job := Job(b.seqNo, b.sha);
      var dead := Dies();
      if dead { return false; }
      StageSegmentKeeps(disk, log, closed, cam, job);
      disk := disk.(segments := disk.segments + {job});
      dead := Dies();
      if dead { return false; }
      JobNamesItsBody(disk, log, closed, cam);
      StageBodyKeeps(disk, log, closed, cam, b);
      StagingKeepsAhead(disk.bodies, job, b);
      disk := disk.(bodies := disk.bodies[job := b]);
      return true;
    }

    method ProcessLiveSegment(f: File, policy: Option<Policy>, state: Option<Cursor>, pending: Json.Value)
      returns (outcome: Outcome, next: Option<Cursor>)
      requires InSession(policy, state, pending)
      requires cam.duration(f.content).Some? ==> |log| < |closed| && f == closed[|log|]
      modifies this`disk, this`log
      ensures Valid() && disk.work == old(disk.work)
      ensures outcome.NotASegment? <==> cam.duration(f.content).None?
      ensures !outcome.Attested? ==> next == state
      ensures outcome.NotASegment? ==> disk == old(disk) && log == old(log)
      ensures outcome.Refused? ==> log == old(log) && disk.checkpoint == old(disk.checkpoint) && InSession(policy, state, pending)
      ensures outcome.Attested? ==>
                && log == old(log) + [BodyFor(f, policy, state, pending)]
                && disk.checkpoint == old(disk.checkpoint) + [Shipped(|old(log)|, Sha256(f.content), f.mtime)]
                && next == LastCursor(log)
                && InSession(policy, next, Json.Null)
      ensures outcome.Died? ==> log == old(log) || log == old(log) + [BodyFor(f, policy, state, pending)]
      ensures calm && cam.duration(f.content).Some? ==>
                if cam.fits(BodyFor(f, policy, state, pending)) then outcome.Attested? else outcome.Refused? && Stuck(policy)
    {
      hide Recoverable, IsNext, AheadIs, RecordFor, NextTooLong;
      next := state;
      if cam.duration(f.content).None? {
        return NotASegment, next;
      }
      var b := BodyFor(f, policy, state, pending);
      BuiltIsNext(policy, state, pending);
      BuiltNumbers(policy, state, pending);
      if !cam.fits(b) {
        LongRecordIsNotStaged(policy, state, pending);
        return Refused, next;
      }
      var alive := Stage(b);
      if !alive { return Died, next; }
      var dead := Dies();
      if dead { return Died, next; }
      ShipKeeps(disk, log, closed, cam, b);
      var ok := Ship(b);
      if !ok {
        return Refused, next;
      }
      ghost var staged, before := disk, log;
      alive := RecordHandoff(b);
      if !alive {
        return Died, next;
      }
      NothingStagedBeyond(staged, before, NextRecord(policy, Some(CursorOf(b)), Json.Null));
      return Attested, Some(CursorOf(b));
    }

    lemma BuiltNumbers(policy: Option<Policy>, state: Option<Cursor>, pending: Json.Value)
      requires state == LastCursor(log) && |log| < |closed| && cam.duration(closed[|log|].content).Some?
      requires Valid()
      ensures BodyFor(closed[|log|], policy, state, pending).seqNo == |log|
      ensures BodyFor(closed[|log|], policy, state, pending).sha == Sha256(closed[|log|].content)
      ensures BodyFor(closed[|log|], policy, state, pending).end == closed[|log|].mtime
    {
      if log != [] { HonestStreamAt(log, cam.id, |log| - 1); }
    }

    /** Nothing is ever staged past the next record. */
    lemma NothingStagedBeyond(d: Disk, before: seq<Body>, b: Option<Body>)
      requires Recoverable(d, before, closed, cam)
      ensures AheadIs(d.bodies, |before| + 1, b)
    {
      JobNamesItsBody(d, before, closed, cam);
    }

    ghost predicate StagedFor(job: Job, f: File)
      reads this
    {
      job in disk.bodies && job in disk.segments && job.sha == Sha256(f.content) && SameSegment(disk.bodies[job], f)
    }

    /** The staged pair for this very file, the highest-numbered one if several. */
    method StagedPair(f: File) returns (staged: Option<Body>)
      ensures staged.Some? ==>
                exists job :: StagedFor(job, f) && disk.bodies[job] == staged.value
                              && forall other :: StagedFor(other, f) ==> other.seqNo <= job.seqNo
      ensures staged.None? ==> forall job :: !StagedFor(job, f)
    {
      var candidates := set job | job in disk.bodies && job in disk.segments && job.sha == Sha256(f.content)
                                  && disk.bodies[job].sha == Sha256(f.content) && disk.bodies[job].end == f.mtime;
      assert forall job :: StagedFor(job, f) <==> job in candidates;
      if candidates == {} {
        return None;
      }
      var best :| best in candidates;
      var rest := candidates - {best};
      while rest != {}
        invariant best in candidates && rest <= candidates
        invariant forall job :: job in candidates - rest ==> job.seqNo <= best.seqNo
        decreases |rest|
      {
        var job :| job in rest;
        rest := rest - {job};
        if job.seqNo > best.seqNo {
          best := job;
        }
      }
      return Some(disk.bodies[best]);
    }

    /** A staged body for the oldest waiting segment is the next record. */
    lemma StagedIsNext(b: Body)
      requires Valid() && |log| < |closed|
      requires exists job :: job in disk.bodies && disk.bodies[job] == b
      requires SameSegment(b, closed[|log|])
      ensures b.seqNo == |log| && IsNext(b, log, closed, cam)
      ensures Job(b.seqNo, b.sha) in disk.bodies && disk.bodies[Job(b.seqNo, b.sha)] == b
    {
      var job :| job in disk.bodies && disk.bodies[job] == b;
    }

    /** A file the checkpoint knows is not waiting. */
    lemma KnownIsNotWaiting(f: File)
      requires Valid() && Find(disk.checkpoint, Sha256(f.content), f.mtime).Some?
      ensures f !in closed[|log|..]
    {
      hide Find, OutboxOk, SpoolOk, HonestStream;
      if k :| |log| <= k < |closed| && closed[k] == f {
        IndexRecognises(disk, log, closed, cam, k);
      }
    }

    /** A segment the checkpoint does not know is waiting. */
    lemma UnknownIsWaiting(f: File)
      requires Valid() && f in disk.work && cam.duration(f.content).Some?
      requires Find(disk.checkpoint, Sha256(f.content), f.mtime).None?
      ensures f in closed[|log|..]
    {
      hide Find, OutboxOk, SpoolOk, LedgerOk, ClosedInOrder;
      var k :| 0 <= k < |closed| && closed[k] == f;
      IndexRecognises(disk, log, closed, cam, k);
      assert closed[|log|..][k - |log|] == f;
    }

    /** Adding the new line to the in-memory dictionary keeps it equal to the
        checkpoint file. */
    lemma IndexFollowsCheckpoint(before: seq<Shipped>, r: Shipped)
      requires Valid() && disk.checkpoint == before + [r]
      ensures Put(before, r) == disk.checkpoint
    {
      ResumeFindsLastRecord(disk, log, closed, cam);
      forall i | 0 <= i < |before| ensures !(before[i].sha == r.sha && before[i].end == r.end) {
        assert disk.checkpoint[i] == before[i] && disk.checkpoint[|before|] == r;
      }
      PutNewKeyAppends(before, r);
    }

    /** A body staged by an earlier run is shipped again byte for byte. */
    method Reship(f: File, b: Body, state: Option<Cursor>) returns (outcome: Outcome, next: Option<Cursor>)
      requires Valid() && state == LastCursor(log)
      requires |log| < |closed| && f == closed[|log|] && SameSegment(b, f)
      requires exists job :: job in disk.bodies && disk.bodies[job] == b
      modifies this`disk, this`log
      ensures Valid() && disk.work == old(disk.work)
      ensures !outcome.NotASegment?
      ensures outcome.Refused? ==> log == old(log)
      ensures outcome.Attested? ==>
                && log == old(log) + [b]
                && disk.checkpoint == old(disk.checkpoint) + [Shipped(b.seqNo, b.sha, b.end)]
                && next == LastCursor(log)
      ensures outcome.Died? ==> log == old(log) || log == old(log) + [b]
      ensures calm ==> outcome.Attested?
    {
      hide Recoverable;
      hide IsNext;
      StagedIsNext(b);
      next := state;
      var dead := Dies();
      if dead { return Died, next; }
      ShipKeeps(disk, log, closed, cam, b);
      var ok := Ship(b);
      if !ok {
        return Refused, next;
      }
      var alive := RecordHandoff(b);
      if !alive {
        return Died, next;
      }
      LastRecordIsNumbered(old(log), b);
      ResumeFromOne(old(log), b);
      return Attested, ResumeState(state, [Shipped(b.seqNo, b.sha, b.end)]);
    }

    lemma ResumeFromOne(before: seq<Body>, b: Body)
      requires b.seqNo == |before|
      requires before != [] ==> before[|before| - 1].seqNo == |before| - 1
      ensures ResumeState(LastCursor(before), [Shipped(b.seqNo, b.sha, b.end)]) == LastCursor(before + [b])
    {
    }

    lemma LastRecordIsNumbered(before: seq<Body>, b: Body)
      requires Valid() && log == before + [b]
      ensures b.seqNo == |before|
      ensures before != [] ==> before[|before| - 1].seqNo == |before| - 1
    {
      HonestStreamAt(log, cam.id, |before|);
      if before != [] {
        HonestStreamAt(log, cam.id, |before| - 1);
      }
    }

    /** One waiting file during reconciliation: re-ship its staged body, or
        attest it now. */
    method SettleWaiting(f: File, policy: Option<Policy>, state: Option<Cursor>)
      returns (outcome: Outcome, next: Option<Cursor>)
      requires Valid() && policy in cam.policies && state == LastCursor(log)
      requires |log| < |closed| && f == closed[|log|]
      modifies this`disk, this`log
      ensures Valid() && disk.work == old(disk.work)
      ensures !outcome.NotASegment?
      ensures outcome.Attested? ==>
                && |log| == |old(log)| + 1 && old(log) < log && SameSegment(log[|old(log)|], f)
                && disk.checkpoint == old(disk.checkpoint) + [Shipped(|old(log)|, Sha256(f.content), f.mtime)]
                && next == LastCursor(log) && next.value.seqNo == |old(log)|
      ensures calm && !outcome.Attested? ==> log == old(log) && Stuck(policy)
    {
      hide Recoverable, IsNext, AheadIs, NextTooLong, RecordFor;
      var staged := StagedPair(f);
      if staged.Some? {
        StagedIsNext(staged.value);
        outcome, next := Reship(f, staged.value, state);
      } else {
        UnstagedMeansNothingAhead(f, NextRecord(policy, state, Json.Null));
        BuiltIsNext(policy, state, Json.Null);
        BuiltNumbers(policy, state, Json.Null);
        outcome, next := ProcessLiveSegment(f, policy, state, Json.Null);
      }
    }

    lemma UnstagedMeansNothingAhead(f: File, b: Option<Body>)
      requires Valid() && |log| < |closed| && f == closed[|log|] && forall job :: !StagedFor(job, f)
      ensures AheadIs(disk.bodies, |log|, b)
    {
      forall job | job in disk.bodies ensures disk.bodies[job].seqNo != |log| {
        assert !StagedFor(job, f);
      }
    }

    /** Startup reconciliation, in order of mtime. When it reports ready, every
        segment ever closed has been handed off. */
    method ReconcileWorkdir(policy: Option<Policy>, state: Option<Cursor>, index: seq<Shipped>)
      returns (ready: bool, state': Option<Cursor>, index': seq<Shipped>)
      requires Valid() && policy in cam.policies
      requires state == LastCursor(log) && index == disk.checkpoint
      modifies this`disk, this`log
      ensures Valid()
      ensures ready ==> |log| == |closed| && state' == LastCursor(log) && index' == disk.checkpoint
      ensures calm && !ready ==> Stuck(policy)
    {
      hide Recoverable;
      state', index' := state, index;
      var rest := disk.work;
      WaitingAreInWork();
      while rest != {}
        invariant Valid() && rest <= disk.work && |log| <= |closed|
        invariant state' == LastCursor(log) && index' == disk.checkpoint
        invariant forall g :: g in closed[|log|..] ==> g in rest
        decreases |rest|
      {
        var f := Earliest(rest, false);
        rest := rest - {f};
        if Find(index', Sha256(f.content), f.mtime).Some? {
          KnownIsNotWaiting(f);
        } else if cam.duration(f.content).None? {
          NotASegmentIsNotWaiting(f);
        } else {
          UnknownIsWaiting(f);
          FirstWaitingIsOldest(disk, log, closed, cam, f);
          LaterWaiting();
          var outcome;
          outcome, state' := SettleWaiting(f, policy, state');
          if !outcome.Attested? {
            return false, state', index';
          }
          IndexFollowsCheckpoint(index', Shipped(state'.value.seqNo, Sha256(f.content), f.mtime));
          index' := Put(index', Shipped(state'.value.seqNo, Sha256(f.content), f.mtime));
        }
        var dead := Dies();
        if dead { return false, state', index'; }
        UnlinkQuiet(f);
      }
      HeadIsMember(closed[|log|..]);
      ready := true;
    }

    lemma WaitingAreInWork()
      requires Valid()
      ensures |log| <= |closed| && forall g :: g in closed[|log|..] ==> g in disk.work
    {
    }

    /** Once the oldest waiting segment is handed off the others still wait. */
    lemma LaterWaiting()
      requires Valid() && |log| < |closed|
      ensures forall g :: g in closed[|log| + 1..] ==> g in closed[|log|..] && g != closed[|log|]
      ensures closed[|log|] !in closed[|log| + 1..]
    {
      assert closed[|log|..] == [closed[|log|]] + closed[|log| + 1..];
    }

    lemma NotASegmentIsNotWaiting(f: File)
      requires Valid() && cam.duration(f.content).None?
      ensures f !in closed[|log|..]
    {
    }

    /** The oldest waiting segment in a poll: attested, and entered in the dictionary. */
    method AttestOldest(f: File, policy: Option<Policy>, state: Option<Cursor>, index: seq<Shipped>, pending: Json.Value)
      returns (step: Step, state': Option<Cursor>, index': seq<Shipped>, pending': Json.Value)
      requires InSession(policy, state, pending) && index == disk.checkpoint
      requires cam.duration(f.content).Some? && |log| < |closed| && f == closed[|log|]
      modifies this`disk, this`log
      ensures Valid() && disk.work == old(disk.work)
      ensures step != Dead ==> InSession(policy, state', pending') && index' == disk.checkpoint
      ensures step == Next ==> |log| == |old(log)| + 1
      ensures calm ==> step == Next || (step == Stop && Stuck(policy))
    {
      hide Recoverable, AheadIs, NextTooLong, RecordFor, IsNext, Put;
      step, state', index', pending' := Next, state, index, pending;
      ghost var before := log;
      var outcome;
      outcome, state' := ProcessLiveSegment(f, policy, state, pending);
      if outcome.Died? { return Dead, state', index', pending'; }
      if outcome.Refused? { return Stop, state', index', pending'; }
      LastRecordIsNumbered(before, log[|before|]);
      IndexFollowsCheckpoint(index', Shipped(state'.value.seqNo, Sha256(f.content), f.mtime));
      index' := Put(index', Shipped(state'.value.seqNo, Sha256(f.content), f.mtime));
      pending' := Json.Null;
    }

    /** One file of a poll: known already, no segment, or the oldest waiting one. */
    method LookAt(f: File, policy: Option<Policy>, state: Option<Cursor>, index: seq<Shipped>, pending: Json.Value)
      returns (step: Step, state': Option<Cursor>, index': seq<Shipped>, pending': Json.Value)
      requires InSession(policy, state, pending) && index == disk.checkpoint && |log| <= |closed|
      requires Find(index, Sha256(f.content), f.mtime).None? && cam.duration(f.content).Some? ==> |log| < |closed| && f == closed[|log|]
      modifies this`disk, this`log
      ensures Valid() && disk.work >= old(disk.work) - {f}
      ensures step != Dead ==> InSession(policy, state', pending') && index' == disk.checkpoint
      ensures step == Next ==> |old(log)| <= |log| <= |closed|
      ensures step == Next ==> forall g :: g in closed[|log|..] ==> g in closed[|old(log)|..] && g != f
      ensures calm ==> step == Next || (step == Stop && Stuck(policy))
    {
      hide Recoverable, AheadIs, NextTooLong, Owed, Find;
      step, state', index', pending' := Next, state, index, pending;
      if Find(index, Sha256(f.content), f.mtime).Some? {
        KnownIsNotWaiting(f);
      } else if cam.duration(f.content).None? {
        NotASegmentIsNotWaiting(f);
        return;
      } else {
        LaterWaiting();
        ghost var later := closed[|log| + 1..];
        assert f !in later;
        step, state', index', pending' := AttestOldest(f, policy, state, index, pending);
        if step != Next { return; }
        assert closed[|log|..] == later;
      }
      var dead := Dies();
      if dead { return Dead, state', index', pending'; }
      UnlinkQuiet(f);
    }

    /** One poll of the live loop, in order of name. While ffmpeg still writes,
        files that are not yet quiescent end the part of the listing it looks
        at; once ffmpeg has exited (`final`) every file is looked at. A refused
        segment also ends the poll and is retried by the next one. */
    method Poll(policy: Option<Policy>, state: Option<Cursor>, index: seq<Shipped>, pending: Json.Value, final: bool)
      returns (alive: bool, complete: bool, state': Option<Cursor>, index': seq<Shipped>, pending': Json.Value)
      requires InSession(policy, state, pending) && index == disk.checkpoint
      modifies this`disk, this`log
      ensures Valid()
      ensures alive ==> InSession(policy, state', pending') && index' == disk.checkpoint
      ensures complete ==> |log| == |closed|
      ensures calm ==> alive && (final && !complete ==> Stuck(policy))
    {
      hide Recoverable, AheadIs, NextTooLong, RecordFor, IsNext;
      alive, complete, state', index', pending' := true, false, state, index, pending;
      var rest := disk.work;
      WaitingAreInWork();
      while rest != {}
        invariant InSession(policy, state', pending') && rest <= disk.work && |log| <= |closed|
        invariant index' == disk.checkpoint
        invariant forall g :: g in closed[|log|..] ==> g in rest
        decreases |rest|
      {
        var unsettled: bool := *;
        if unsettled && !final { return; }
        var f := Earliest(rest, true);
        if Find(index', Sha256(f.content), f.mtime).None? && cam.duration(f.content).Some? {
          UnknownIsWaiting(f);
          FirstWaitingIsOldest(disk, log, closed, cam, f);
        }
        var step;
        step, state', index', pending' := LookAt(f, policy, state', index', pending');
        if step == Dead { return false, false, state', index', pending'; }
        if step == Stop { return; }
        rest := rest - {f};
      }
      HeadIsMember(closed[|log|..]);
      complete := true;
    }

    /** One run of the driver: resume, reconcile, then poll until it is stopped
        or dies. ffmpeg captures between polls; `final` is its exit, after which
        one last poll looks at everything. */
    method RunLive(policy: Option<Policy>, polls: nat, attempts: nat, final: bool)
      requires Valid() && policy in cam.policies
      modifies this`disk, this`log, this`closed
      ensures Valid() && old(closed) <= closed
      ensures calm && (final || polls == 0) ==> |log| == |closed| || Stuck(policy)
    {
      hide Recoverable;
      ResumeFindsLastRecord(disk, log, closed, cam);
      var index := Load(disk.checkpoint);
      var state := ResumeState(disk.cursor, index);
      var ready;
      ready, state, index := ReconcileWorkdir(policy, state, index);
      if !ready { return; }
      NothingStagedAhead();
      var pending := if state.None? then Json.Null else GapRecord("driver-restart", state.value.seqNo);
      var alive, complete;
      for i := 0 to polls
        invariant InSession(policy, state, pending) && index == disk.checkpoint
        invariant old(closed) <= closed
        invariant i == 0 ==> |log| == |closed|
      {
        Capture(attempts);
        alive, complete, state, index, pending := Poll(policy, state, index, pending, false);
        if !alive { return; }
      }
      if final {
        alive, complete, state, index, pending := Poll(policy, state, index, pending, true);
      }
    }

    /** With nothing waiting, no staged body is numbered as the next record. */
    lemma NothingStagedAhead()
      requires Valid() && |log| == |closed|
      ensures forall job :: job in disk.bodies ==> disk.bodies[job].seqNo < |log|
      ensures log != [] ==> log[|log| - 1].seqNo == |log| - 1
    {
      if log != [] {
        HonestStreamAt(log, cam.id, |log| - 1);
      }
    }
  }

  // ---- whole runs ----

  /** The records a spool holds: those handed off, and the one that may have
      been delivered but not yet checkpointed. */
  function StreamOnSpool(log: seq<Body>, spool: seq<Body>): seq<Body> {
    if exists b :: b in spool && b.seqNo == |log|
    then log + [FirstNumbered(spool, |log|)]
    else log
  }

  function FirstNumbered(spool: seq<Body>, n: nat): Body
    requires exists b :: b in spool && b.seqNo == n
  {
    if spool[0].seqNo == n then spool[0] else FirstNumbered(spool[1..], n)
  }

  lemma {:induction false} FirstNumberedIsOne(spool: seq<Body>, n: nat)
    requires exists b :: b in spool && b.seqNo == n
    ensures FirstNumbered(spool, n) in spool && FirstNumbered(spool, n).seqNo == n
  {
    if spool[0].seqNo != n {
      FirstNumberedIsOne(spool[1..], n);
    }
  }

  /** Every durable state's spool holds exactly one honest stream over the
      first segments closed. */
  lemma SpoolHoldsOneStream(d: Disk, log: seq<Body>, closed: seq<File>, cam: Camera)
    requires Recoverable(d, log, closed, cam)
    ensures var stream := StreamOnSpool(log, d.spool);
            && HonestStream(stream, cam.id)
            && (forall b :: b in d.spool <==> b in stream)
            && |log| <= |stream| <= |closed|
            && (forall i :: 0 <= i < |stream| ==> SameSegment(stream[i], closed[i]) && stream[i].policy in cam.policies)
  {
    hide Recoverable, HonestStream, SameSegment, FirstNumbered;
    LedgerFacts(d, log, closed, cam);
    if exists b :: b in d.spool && b.seqNo == |log| {
      var next := FirstNumbered(d.spool, |log|);
      FirstNumberedIsOne(d.spool, |log|);
      SpoolHoldsNext(d, log, closed, cam, next);
    }
  }

  /** A record delivered but not yet checkpointed extends the stream. */
  lemma SpoolHoldsNext(d: Disk, log: seq<Body>, closed: seq<File>, cam: Camera, next: Body)
    requires Recoverable(d, log, closed, cam) && next in d.spool && next.seqNo == |log|
    ensures HonestStream(log + [next], cam.id) && |log| < |closed|
    ensures forall b :: b in d.spool <==> b in log + [next]
    ensures forall i :: 0 <= i <= |log| ==>
      SameSegment((log + [next])[i], closed[i]) && (log + [next])[i].policy in cam.policies
  {
    hide Recoverable, HonestStream, SameSegment, Follows;
    LedgerFacts(d, log, closed, cam);
    StagedNextIsUnique(d, log, closed, cam, next);
    HonestStreamExtends(log, next, cam.id);
  }

  lemma LedgerFacts(d: Disk, log: seq<Body>, closed: seq<File>, cam: Camera)
    requires Recoverable(d, log, closed, cam)
    ensures HonestStream(log, cam.id) && |log| <= |closed|
    ensures forall i :: 0 <= i < |log| ==> log[i] in d.spool
    ensures forall b :: b in d.spool ==> b in log || b.seqNo == |log|
    ensures forall i :: 0 <= i < |log| ==> SameSegment(log[i], closed[i]) && log[i].policy in cam.policies
  {
  }

  lemma StagedNextIsUnique(d: Disk, log: seq<Body>, closed: seq<File>, cam: Camera, next: Body)
    requires Recoverable(d, log, closed, cam)
    requires next in d.spool && next.seqNo == |log|
    ensures IsNext(next, log, closed, cam)
    ensures forall b :: b in d.spool && b !in log ==> b == next
  {
    forall i | 0 <= i < |log| ensures log[i].seqNo == i {
      HonestStreamAt(log, cam.id, i);
    }
    forall b | b in d.spool && b !in log ensures b == next {
      assert Job(b.seqNo, b.sha) in d.bodies && Job(next.seqNo, next.sha) in d.bodies;
    }
  }

  /** The life of a capture host: any number of runs, each declaring a policy
      of its own, each stopped or killed anywhere, ffmpeg capturing before and
      during every one of them. No closed segment is ever lost; one undisturbed
      run to ffmpeg's exit afterwards (`settle`) hands off all of them, those it
      captured itself included, up to one whose record is too long. */
  method Lifetime(cam: Camera, policies: seq<Option<Policy>>, polls: nat, attempts: nat, settle: Option<Option<Policy>>)
    returns (spool: seq<Body>, stream: seq<Body>, closed: seq<File>, work: set<File>)
    requires forall p :: p in policies ==> p in cam.policies
    requires settle.Some? ==> settle.value in cam.policies
    ensures HonestStream(stream, cam.id)
    ensures forall b :: b in spool <==> b in stream
    ensures |stream| <= |closed|
    ensures forall i :: 0 <= i < |stream| ==> SameSegment(stream[i], closed[i]) && stream[i].policy in cam.policies
    ensures forall i :: |stream| <= i < |closed| ==> closed[i] in work
    ensures settle.Some? ==> |stream| == |closed| || NextTooLong(cam, stream, closed, settle.value)
  {
    hide Recoverable, NextTooLong, AheadIs, HonestStream;
    var host := new Host(cam);
    for i := 0 to |policies|
      invariant host.Valid() && host.cam == cam
    {
      host.Capture(attempts);
      var final: bool := *;
      host.RunLive(policies[i], polls, attempts, final);
    }
    if settle.Some? {
      host.calm := true;
      host.RunLive(settle.value, polls, attempts, true);
    }
    SpoolHoldsOneStream(host.disk, host.log, host.closed, cam);
    spool, closed, work := host.disk.spool, host.closed, host.disk.work;
    stream := StreamOnSpool(host.log, spool);
    host.WaitingAreInWork();
    forall i | |stream| <= i < |closed| ensures closed[i] in work {
      assert closed[i] in closed[|host.log|..];
    }
    if settle.Some? && |stream| != |closed| {
      NothingAheadOnSpool(host.disk, host.log, closed, cam);
    }
  }

  /** With nothing staged past the log, the spool holds the log and no more. */
  lemma NothingAheadOnSpool(d: Disk, log: seq<Body>, closed: seq<File>, cam: Camera)
    requires Recoverable(d, log, closed, cam) && AheadIs(d.bodies, |log|, None)
    ensures StreamOnSpool(log, d.spool) == log
  {
    if b :| b in d.spool && b.seqNo == |log| {
      LogIsNumbered(d, log, closed, cam);
    }
  }

  lemma LogIsNumbered(d: Disk, log: seq<Body>, closed: seq<File>, cam: Camera)
    requires Recoverable(d, log, closed, cam)
    ensures forall b :: b in log ==> b.seqNo < |log|
  {
    forall i | 0 <= i < |log| ensures log[i].seqNo == i { HonestStreamAt(log, cam.id, i); }
  }

  lemma NumberedBodies(spool: seq<Body>, stream: seq<Body>, camera: string)
    requires HonestStream(stream, camera)
    requires forall b :: b in spool <==> b in stream
    ensures forall b :: b in spool ==> b.seqNo < |stream| && stream[b.seqNo] == b
    ensures forall i :: 0 <= i < |stream| ==> stream[i] in spool && stream[i].seqNo == i
  {
    forall i | 0 <= i < |stream| ensures stream[i].seqNo == i && stream[i] in spool {
      HonestStreamAt(stream, camera, i);
    }
  }

  /** What an honest stream on the spool means record by record: one body per
      number, numbers contiguous from 0, every record cites its predecessor's
      hash, and no segment identity appears under two numbers. */
  lemma DeliveredBodies(spool: seq<Body>, stream: seq<Body>, camera: string)
    requires HonestStream(stream, camera)
    requires forall b :: b in spool <==> b in stream
    ensures forall a, b :: a in spool && b in spool && a.seqNo == b.seqNo ==> a == b
    ensures forall b :: b in spool ==> b.seqNo < |stream|
    ensures forall i :: 0 <= i < |stream| ==> stream[i] in spool && stream[i].seqNo == i
    ensures forall b :: b in spool && b.seqNo == 0 ==> b.prev.None?
    ensures forall b :: b in spool && b.seqNo > 0 ==>
              exists p :: p in spool && p.seqNo == b.seqNo - 1 && b.prev == Some(p.sha)
    ensures forall a, b :: a in spool && b in spool && a.sha == b.sha && a.end == b.end ==> a.seqNo == b.seqNo
  {
    hide Follows;
    NumberedBodies(spool, stream, camera);
    forall b | b in spool
      ensures b.seqNo == 0 ==> b.prev.None?
      ensures b.seqNo > 0 ==> exists p :: p in spool && p.seqNo == b.seqNo - 1 && b.prev == Some(p.sha)
    {
      HonestStreamAt(stream, camera, b.seqNo);
      if b.seqNo > 0 {
        assert stream[b.seqNo - 1] in spool;
      }
    }
    forall a, b | a in spool && b in spool && a.seqNo < b.seqNo ensures a.end != b.end {
      HonestStreamEndsIncrease(stream, camera, a.seqNo, b.seqNo);
    }
  }
}
