/** Capture host, spool relay, auditor and coverage grading end to end. */
module EvidencePipeline {
  import opened Prelude
  import opened CameraRecords
  import opened CaptureHost
  import opened CaptureRun
  import opened SpoolRelay
  import opened Audit
  import opened Coverage

  /** The spool job of each record of a stream, named by its number. */
  function JobsOf(stream: seq<Body>): map<Name, Parcel> {
    map n: nat | n < |stream| :: SegmentJob(n) := Parcel(SegmentRecord(stream[n]), Some(stream[n].sha.preimage))
  }

  /** The chain rows the auditor reads back. */
  function RowsOn(chain: seq<Wire>): seq<Entry>
    requires forall w :: w in chain ==> w.SegmentRecord?
  {
    seq(|chain|, i requires 0 <= i < |chain| => Entry(i, chain[i].body))
  }

  /** Whatever order the relay appended them in, rows of shipped records are a
      sub-collection of the producer's stream. */
  lemma ChainIsSubCollection(chain: seq<Wire>, stream: seq<Body>, camera: string)
    requires HonestStream(stream, camera) && NoDuplicates(chain)
    requires forall w :: w in chain ==> w.SegmentRecord? && w.body in stream
    ensures SubCollection(RowsOn(chain), stream, camera)
  {
    var rows := RowsOn(chain);
    forall e | e in rows ensures e.body in stream {
      var i :| 0 <= i < |rows| && rows[i] == e;
      assert chain[i] in chain;
    }
    forall i, j | 0 <= i < j < |rows| ensures rows[i].body != rows[j].body {
      assert chain[i] in chain && chain[j] in chain;
    }
  }

  lemma {:induction false} OneCameraOnly(rows: seq<Entry>, camera: string)
    requires forall i :: 0 <= i < |rows| ==> rows[i].body.camera == camera
    ensures RowsOf(rows, camera) == rows
  {
    if rows != [] {
      OneCameraOnly(rows[..|rows| - 1], camera);
      assert rows == rows[..|rows| - 1] + [rows[|rows| - 1]];
    }
  }

  lemma EveryRecordIsKept(chain: seq<Wire>, stream: seq<Body>)
    requires forall w :: w in chain ==> w.SegmentRecord?
    requires forall n :: 0 <= n < |stream| ==> SegmentRecord(stream[n]) in chain
    ensures forall b :: b in stream ==> Kept(RowsOn(chain), b)
  {
    var rows := RowsOn(chain);
    forall b | b in stream ensures Kept(rows, b) {
      var n :| 0 <= n < |stream| && stream[n] == b;
      var i :| 0 <= i < |chain| && chain[i] == SegmentRecord(b);
      assert rows[i] in rows && rows[i].body == b;
    }
  }

  /** Policies under which the producer's own gap rule explains every hole. */
  ghost predicate TolerantPolicies(cam: Camera) {
    forall p :: p in cam.policies ==>
      p.Some? && p.value.nominal > 0 && p.value.jitter < p.value.nominal && ToleratesUndeclaredHoles(p.value)
  }

  /** Any life of the capture host followed by any life of the relay. Once every
      shipped job has arrived, the audit is clean and no hole is unexplained. */
  method CaptureToVerdict(cam: Camera, policies: seq<Option<Policy>>, polls: nat, attempts: nat, steps: nat)
    returns (stream: seq<Body>, arrived: bool, failures: seq<Failure>, reports: map<string, Report>)
    requires forall p :: p in policies ==> p in cam.policies
    ensures HonestStream(stream, cam.id)
    ensures arrived ==> failures == []
    ensures arrived && stream != [] && TolerantPolicies(cam) ==>
              && cam.id in reports
              && reports[cam.id].records == |stream|
              && (reports[cam.id].verdict.ContinuousCoverage? || reports[cam.id].verdict.InterruptedAccounted?)
  {
    var spool, closed, work;
    spool, stream, closed, work := Lifetime(cam, policies, polls, attempts, None);
    var jobs := JobsOf(stream);
    var chain, delivered, waiting := RelayLifetime(jobs, steps, true);
    arrived := delivered == jobs.Keys;
    assert forall w :: w in chain ==> w.SegmentRecord? && w.body in stream;
    ChainIsSubCollection(chain, stream, cam.id);
    var rows := RowsOn(chain);
    failures := AuditContinuity(rows);
    reports := GradeCoverage(rows);
    if arrived {
      VerdictOnceArrived(chain, rows, stream, jobs, cam);
    }
  }

  lemma VerdictOnceArrived(chain: seq<Wire>, rows: seq<Entry>, stream: seq<Body>, jobs: map<Name, Parcel>, cam: Camera)
    requires forall w :: w in chain ==> w.SegmentRecord? && w.body in stream
    requires rows == RowsOn(chain) && jobs == JobsOf(stream)
    requires SubCollection(rows, stream, cam.id)
    requires forall i :: 0 <= i < |stream| ==> stream[i].policy in cam.policies
    requires forall n :: n in jobs && Sound(jobs[n]) ==> jobs[n].wire in chain
    ensures Failures(rows) == []
    ensures RowsOf(rows, cam.id) == rows && |Sort(rows)| == |stream|
    ensures TolerantPolicies(cam) ==> AllDeclare(Sort(rows)) && !VerdictOn(Outages(Sort(rows))).InterruptedUnexplained?
  {
    hide HonestStream;
    forall n | 0 <= n < |stream| ensures SegmentRecord(stream[n]) in chain {
      assert SegmentJob(n) in jobs && Sound(jobs[SegmentJob(n)]);
    }
    EveryRecordIsKept(chain, stream);
    CompleteStreamIsClean(rows, stream, cam.id);
    forall i | 0 <= i < |rows| ensures rows[i].body.camera == cam.id {
      var k :| 0 <= k < |stream| && stream[k] == rows[i].body;
      HonestStreamAt(stream, cam.id, k);
    }
    OneCameraOnly(rows, cam.id);
    SameSize(rows, stream, cam.id);
    if TolerantPolicies(cam) {
      forall e | e in rows ensures Declares(e) && ToleratesUndeclaredHoles(UsablePolicy(e.body).value) {
        var k :| 0 <= k < |stream| && stream[k] == e.body;
      }
      CleanAuditIsNeverUnexplained(rows, stream, cam.id);
    }
  }

  /** A sub-collection that keeps every record has one row per record. */
  lemma SameSize(rows: seq<Entry>, stream: seq<Body>, camera: string)
    requires SubCollection(rows, stream, camera)
    requires forall b :: b in stream ==> Kept(rows, b)
    ensures |Sort(rows)| == |stream|
  {
    hide HonestStream;
    var s := Sort(rows);
    SortedSubCollectionIsOrdered(rows, stream, camera);
    StreamIsNumbered(stream, camera);
    forall i | 0 <= i < |stream| ensures Holds(s, stream[i]) {
      assert Kept(rows, stream[i]);
      var e :| e in rows && e.body == stream[i];
      assert e in s;
    }
    OrderedCompleteIsAll(s, stream, |stream|);
  }

  ghost predicate Holds(s: seq<Entry>, b: Body) { exists k :: 0 <= k < |s| && s[k].body == b }

  lemma OrderedCompleteIsAll(s: seq<Entry>, stream: seq<Body>, n: nat)
    requires Ordered(s, stream) && n <= |stream|
    requires forall i :: 0 <= i < |stream| ==> stream[i].seqNo == i
    requires forall i :: 0 <= i < n ==> Holds(s, stream[i])
    requires forall k :: 0 <= k < |s| ==> s[k].body.seqNo < n
    ensures |s| == n
    decreases n
  {
    hide Ordered, Holds;
    assert |s| > 0 ==> s[0].body.seqNo < n;
    if n > 0 {
      LastHoldsTop(s, stream, n);
      var top := |s| - 1;
      var shorter := s[..top];
      OrderedPrefix(s, stream, top);
      forall i | 0 <= i < n - 1 ensures Holds(shorter, stream[i]) { StillHolds(s, stream[i]); }
      OrderedCompleteIsAll(shorter, stream, n - 1);
    }
  }

  lemma LastHoldsTop(s: seq<Entry>, stream: seq<Body>, n: nat)
    requires Ordered(s, stream) && 0 < n <= |stream| && stream[n - 1].seqNo == n - 1 && Holds(s, stream[n - 1])
    requires forall k :: 0 <= k < |s| ==> s[k].body.seqNo < n
    ensures s != [] && s[|s| - 1].body.seqNo == n - 1
  {
    var top :| 0 <= top < |s| && s[top].body == stream[n - 1];
  }

  lemma OrderedPrefix(s: seq<Entry>, stream: seq<Body>, k: nat)
    requires Ordered(s, stream) && k < |s|
    ensures Ordered(s[..k], stream) && forall i :: 0 <= i < k ==> s[..k][i].body.seqNo < s[k].body.seqNo
  {
  }

  lemma StillHolds(s: seq<Entry>, b: Body)
    requires s != [] && Holds(s, b) && b != s[|s| - 1].body
    ensures Holds(s[..|s| - 1], b)
  {
    var k :| 0 <= k < |s| && s[k].body == b;
    assert s[..|s| - 1][k] == s[k];
  }
}
