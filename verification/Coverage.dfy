/** Coverage completeness: was the camera recording the whole time? Each
    boundary between consecutive records is graded against the later record's
    own signed policy. Times are integer nanoseconds. */
module Coverage {
  import opened Prelude
  import opened CameraRecords
  import opened Audit
  import Json

  datatype OutageClass = Accounted | Tolerated | Unexplained

  /** Unrecorded time strictly between `from` and `until`. */
  datatype Outage = Outage(afterSeq: nat, seqNo: nat, from: int, until: int, cls: OutageClass)

  datatype Overlap = Overlap(afterSeq: nat, seqNo: nat, depth: int)

  datatype Verdict = ContinuousCoverage | InterruptedAccounted | InterruptedUnexplained | Undeclared

  datatype Report = Report(
    records: nat,
    undeclared: nat,
    verdict: Verdict,
    outages: seq<Outage>,
    overlaps: seq<Overlap>,
    outageTime: int,
    span: int)

  /** The policy a record usably declares. */
  function UsablePolicy(b: Body): Option<Policy> {
    if b.policy.Some? && b.policy.value.nominal > 0 && b.policy.value.jitter < b.policy.value.nominal
    then b.policy else None
  }

  predicate Declares(e: Entry) {
    UsablePolicy(e.body).Some?
  }

  predicate AllDeclare(s: seq<Entry>) {
    forall i :: 0 <= i < |s| ==> Declares(s[i])
  }

  function OutageAt(prev: Body, cur: Body): Option<Outage>
    requires UsablePolicy(cur).Some?
  {
    var policy := UsablePolicy(cur).value;
    var hole := cur.start - prev.end;
    if hole <= policy.jitter then None
    else
      var gapped := !cur.gap.Null? && GapDefectOf(cur.gap, cur.seqNo, Some(prev.seqNo)).None?;
      Some(Outage(prev.seqNo, cur.seqNo, prev.end, cur.start,
                  if gapped then Accounted
                  else if hole <= policy.maxUnexplained then Tolerated
                  else Unexplained))
  }

  function Outages(s: seq<Entry>): seq<Outage>
    requires AllDeclare(s)
  {
    if |s| < 2 then []
    else
      var last := |s| - 1;
      var here := OutageAt(s[last - 1].body, s[last].body);
      if here.Some? then Outages(s[..last]) + [here.value] else Outages(s[..last])
  }

  function Overlaps(s: seq<Entry>): seq<Overlap>
    requires AllDeclare(s)
  {
    if |s| < 2 then []
    else
      var last := |s| - 1;
      var prev, cur := s[last - 1].body, s[last].body;
      var depth := prev.end - cur.start;
      if depth > UsablePolicy(cur).value.jitter
      then Overlaps(s[..last]) + [Overlap(prev.seqNo, cur.seqNo, depth)]
      else Overlaps(s[..last])
  }

  function OutageTime(outages: seq<Outage>): int {
    if outages == [] then 0
    else OutageTime(outages[..|outages| - 1]) + outages[|outages| - 1].until - outages[|outages| - 1].from
  }

  predicate HasUnexplained(outages: seq<Outage>) {
    exists o :: o in outages && o.cls.Unexplained?
  }

  function VerdictOn(outages: seq<Outage>): Verdict {
    if outages == [] then ContinuousCoverage
    else if HasUnexplained(outages) then InterruptedUnexplained
    else InterruptedAccounted
  }

  function CountUndeclared(s: seq<Entry>): nat {
    if s == [] then 0
    else CountUndeclared(s[..|s| - 1]) + (if Declares(s[|s| - 1]) then 0 else 1)
  }

  lemma {:induction false} NoneUndeclared(s: seq<Entry>)
    ensures CountUndeclared(s) == 0 <==> AllDeclare(s)
  {
    if s != [] {
      NoneUndeclared(s[..|s| - 1]);
      assert s == s[..|s| - 1] + [s[|s| - 1]];
    }
  }

  /** `r` is the report on one camera's records in segment order. */
  ghost predicate Graded(r: Report, s: seq<Entry>)
    requires s != []
  {
    && r.records == |s|
    && r.undeclared == CountUndeclared(s)
    && r.span == s[|s| - 1].body.end - s[0].body.start
    && (r.verdict.Undeclared? <==> !AllDeclare(s))
    && (AllDeclare(s) ==>
          && r.outages == Outages(s)
          && r.overlaps == Overlaps(s)
          && r.outageTime == OutageTime(r.outages)
          && r.verdict == VerdictOn(r.outages))
  }

  method GradeCamera(s: seq<Entry>) returns (r: Report)
    requires s != []
    ensures Graded(r, s)
  {
    var undeclared := 0;
    for i := 0 to |s|
      invariant undeclared == CountUndeclared(s[..i])
    {
      assert s[..i + 1][..i] == s[..i];
      if !Declares(s[i]) {
        undeclared := undeclared + 1;
      }
    }
    assert s[..|s|] == s;
    NoneUndeclared(s);
    var span := s[|s| - 1].body.end - s[0].body.start;
    if undeclared > 0 {
      return Report(|s|, undeclared, Undeclared, [], [], 0, span);
    }
    var worst, outages, overlaps, total := GradeBoundaries(s);
    return Report(|s|, undeclared, worst, outages, overlaps, total, span);
  }

  /** The loop over consecutive records. */
  method GradeBoundaries(s: seq<Entry>)
    returns (worst: Verdict, outages: seq<Outage>, overlaps: seq<Overlap>, total: int)
    requires s != [] && AllDeclare(s)
    ensures outages == Outages(s) && overlaps == Overlaps(s)
    ensures total == OutageTime(outages) && worst == VerdictOn(outages)
  {
    hide GapDefectOf;
    worst, outages, overlaps, total := ContinuousCoverage, [], [], 0;
    for i := 1 to |s|
      invariant outages == Outages(s[..i]) && overlaps == Overlaps(s[..i])
      invariant total == OutageTime(outages) && worst == VerdictOn(outages)
    {
      var prev, cur := s[i - 1].body, s[i].body;
      var policy := UsablePolicy(cur).value;
      var hole := cur.start - prev.end;
      assert s[..i + 1][..i] == s[..i];
      if hole <= policy.jitter {
        if hole + policy.jitter < 0 {
          overlaps := overlaps + [Overlap(prev.seqNo, cur.seqNo, -hole)];
        }
        continue;
      }
      var gap := cur.gap;
      if !gap.Null? && GapDefectOf(gap, cur.seqNo, Some(prev.seqNo)).Some? {
        gap := Json.Null;
      }
      var cls, verdict;
      if !gap.Null? {
        cls, verdict := Accounted, InterruptedAccounted;
      } else if hole <= policy.maxUnexplained {
        cls, verdict := Tolerated, InterruptedAccounted;
      } else {
        cls, verdict := Unexplained, InterruptedUnexplained;
      }
      var outage := Outage(prev.seqNo, cur.seqNo, prev.end, cur.start, cls);
      TotalsAfter(outages, outage);
      outages := outages + [outage];
      total := total + hole;
      if !worst.InterruptedUnexplained? {
        worst := verdict;
      }
    }
    assert s[..|s|] == s;
  }

  lemma TotalsAfter(outages: seq<Outage>, o: Outage)
    ensures OutageTime(outages + [o]) == OutageTime(outages) + o.until - o.from
    ensures VerdictOn(outages + [o])
            == if VerdictOn(outages).InterruptedUnexplained? || o.cls.Unexplained? then InterruptedUnexplained
               else InterruptedAccounted
  {
    assert (outages + [o])[..|outages|] == outages;
    VerdictAfter(outages, o);
  }

  lemma VerdictAfter(outages: seq<Outage>, o: Outage)
    ensures VerdictOn(outages + [o])
            == if VerdictOn(outages).InterruptedUnexplained? || o.cls.Unexplained? then InterruptedUnexplained
               else InterruptedAccounted
  {
    var longer := outages + [o];
    assert longer[|outages|] == o && o in longer;
    if x :| x in outages && x.cls.Unexplained? {
      assert x in longer;
    }
  }

  method GroupByCamera(rows: seq<Entry>) returns (byCamera: map<string, seq<Entry>>)
    ensures forall cam :: cam in byCamera <==> RowsOf(rows, cam) != []
    ensures forall cam :: cam in byCamera ==> byCamera[cam] == RowsOf(rows, cam)
  {
    byCamera := map[];
    for i := 0 to |rows|
      invariant forall cam :: cam in byCamera <==> RowsOf(rows[..i], cam) != []
      invariant forall cam :: cam in byCamera ==> byCamera[cam] == RowsOf(rows[..i], cam)
    {
      var cam := rows[i].body.camera;
      assert rows[..i + 1] == rows[..i] + [rows[i]];
      forall c ensures RowsOf(rows[..i + 1], c) == if c == cam then RowsOf(rows[..i], c) + [rows[i]] else RowsOf(rows[..i], c) {
        RowsOfAppend(rows[..i], rows[i], c);
      }
      byCamera := byCamera[cam := (if cam in byCamera then byCamera[cam] else []) + [rows[i]]];
    }
    assert rows[..|rows|] == rows;
  }

  /** grade_coverage: every camera in the corpus, separately. */
  method GradeCoverage(rows: seq<Entry>) returns (reports: map<string, Report>)
    ensures forall cam :: cam in reports <==> RowsOf(rows, cam) != []
    ensures forall cam :: cam in reports ==>
              Sort(RowsOf(rows, cam)) != [] && Graded(reports[cam], Sort(RowsOf(rows, cam)))
  {
    hide Graded;
    var byCamera := GroupByCamera(rows);
    reports := map[];
    var todo := byCamera.Keys;
    while todo != {}
      invariant todo <= byCamera.Keys && reports.Keys == byCamera.Keys - todo
      invariant forall cam :: cam in reports ==>
                  Sort(RowsOf(rows, cam)) != [] && Graded(reports[cam], Sort(RowsOf(rows, cam)))
      decreases |todo|
    {
      var cam :| cam in todo;
      todo := todo - {cam};
      SortIsSorted(byCamera[cam]);
      assert |multiset(Sort(byCamera[cam]))| == |multiset(byCamera[cam])|;
      var r := GradeCamera(Sort(byCamera[cam]));
      reports := reports[cam := r];
    }
  }

  // ---- the verdict means what it says ----

  /** `t` is inside the record's window widened by its declared jitter. */
  predicate Near(e: Entry, t: int)
    requires Declares(e)
  {
    var jitter := UsablePolicy(e.body).value.jitter;
    e.body.start - jitter <= t <= e.body.end + jitter
  }

  ghost predicate Covered(s: seq<Entry>, t: int)
    requires AllDeclare(s)
  {
    exists i :: 0 <= i < |s| && Near(s[i], t)
  }

  ghost predicate InOutage(outages: seq<Outage>, t: int) {
    exists o :: o in outages && o.from < t < o.until
  }

  /** Every instant from the first capture start to the last capture end is near
      some recorded window or inside a listed outage. Nothing is assumed about
      the order of the windows in time. */
  lemma {:induction false} EveryInstantIsAccountedFor(s: seq<Entry>, t: int)
    requires s != [] && AllDeclare(s)
    requires s[0].body.start <= t <= s[|s| - 1].body.end
    ensures Covered(s, t) || InOutage(Outages(s), t)
  {
    var last := |s| - 1;
    if |s| == 1 || t >= s[last].body.start {
      assert Near(s[last], t);
    } else if t <= s[last - 1].body.end {
      EveryInstantIsAccountedFor(s[..last], t);
      if i :| 0 <= i < last && Near(s[..last][i], t) {
        assert Near(s[i], t);
      } else {
        var o :| o in Outages(s[..last]) && o.from < t < o.until;
        assert o in Outages(s);
      }
    } else {
      var here := OutageAt(s[last - 1].body, s[last].body);
      if here.Some? {
        assert Outages(s)[|Outages(s)| - 1] == here.value;
      } else {
        assert Near(s[last], t);
      }
    }
  }

  /** An outage is real: it lies between the ends of two consecutive records,
      is longer than the later record's jitter, and its class says why. */
  lemma {:induction false} OutagesAreReal(s: seq<Entry>, o: Outage)
    requires AllDeclare(s)
    requires o in Outages(s)
    ensures exists i :: 0 < i < |s| && OutageAt(s[i - 1].body, s[i].body) == Some(o)
  {
    var last := |s| - 1;
    var here := OutageAt(s[last - 1].body, s[last].body);
    if o in Outages(s[..last]) {
      OutagesAreReal(s[..last], o);
      var i :| 0 < i < last && OutageAt(s[..last][i - 1].body, s[..last][i].body) == Some(o);
      assert OutageAt(s[i - 1].body, s[i].body) == Some(o);
    } else {
      assert here == Some(o);
    }
  }

  /** What each verdict promises about the whole stretch. */
  lemma VerdictMeaning(s: seq<Entry>)
    requires s != [] && AllDeclare(s)
    ensures VerdictOn(Outages(s)).ContinuousCoverage? ==>
              forall t :: s[0].body.start <= t <= s[|s| - 1].body.end ==> Covered(s, t)
    ensures !VerdictOn(Outages(s)).InterruptedUnexplained? ==>
              forall i :: 0 < i < |s| ==>
                var prev, cur := s[i - 1].body, s[i].body;
                var policy := UsablePolicy(cur).value;
                || cur.start - prev.end <= policy.jitter
                || cur.start - prev.end <= policy.maxUnexplained
                || (!cur.gap.Null? && GapDefectOf(cur.gap, cur.seqNo, Some(prev.seqNo)).None?)
  {
    if VerdictOn(Outages(s)).ContinuousCoverage? {
      forall t | s[0].body.start <= t <= s[|s| - 1].body.end ensures Covered(s, t) {
        EveryInstantIsAccountedFor(s, t);
      }
    }
    forall i | 0 < i < |s| && OutageAt(s[i - 1].body, s[i].body).Some?
      ensures OutageAt(s[i - 1].body, s[i].body).value in Outages(s)
    {
      BoundaryIsListed(s, i);
    }
  }

  lemma BoundaryIsListed(s: seq<Entry>, i: nat)
    requires 0 < i < |s| && AllDeclare(s)
    requires OutageAt(s[i - 1].body, s[i].body).Some?
    ensures OutageAt(s[i - 1].body, s[i].body).value in Outages(s)
  {
    hide OutageAt;
    var last := |s| - 1;
    if i == last {
      assert Outages(s) == Outages(s[..last]) + [OutageAt(s[i - 1].body, s[i].body).value];
    } else {
      BoundaryIsListed(s[..last], i);
      assert s[..last][i] == s[i] && s[..last][i - 1] == s[i - 1];
    }
  }

  // ---- producer, auditor and coverage agree ----

  /** A policy under which the producer's own 2-second rule never leaves an
      unexplained hole. */
  predicate ToleratesUndeclaredHoles(p: Policy) {
    p.jitter >= CAPTURE_GAP_TOLERANCE || p.maxUnexplained >= CAPTURE_GAP_TOLERANCE
  }

  lemma HonestBoundary(s: seq<Entry>, i: nat, stream: seq<Body>, camera: string)
    requires HonestStream(stream, camera) && Ordered(s, stream)
    requires 0 < i < |s| && Declares(s[i]) && ToleratesUndeclaredHoles(UsablePolicy(s[i].body).value)
    requires Excused(s, stream, s[i].body)
    ensures OutageAt(s[i - 1].body, s[i].body).None? || !OutageAt(s[i - 1].body, s[i].body).value.cls.Unexplained?
  {
    hide HonestStream;
    var n := s[i].body.seqNo;
    HonestStreamAt(stream, camera, n);
    if !s[i].body.gap.Null? {
      PredecessorCitationSurvivesFiltering(s[i].body.gap, n, Some(s[i - 1].body.seqNo));
    } else {
      StreamIsNumbered(stream, camera);
      var k :| 0 <= k < |s| && s[k].body == stream[n - 1];
      assert s[i - 1].body.seqNo < s[i].body.seqNo;
      assert k == i - 1;
    }
  }

  /** A sub-collection of an honest stream that passes the audit is never graded
      unexplained, so a clean audit and an unexplained outage cannot coexist. */
  lemma CleanAuditIsNeverUnexplained(rows: seq<Entry>, stream: seq<Body>, camera: string)
    requires SubCollection(rows, stream, camera) && Failures(rows) == []
    requires forall e :: e in rows ==> Declares(e) && ToleratesUndeclaredHoles(UsablePolicy(e.body).value)
    ensures var s := Sort(rows);
            AllDeclare(s) && !VerdictOn(Outages(s)).InterruptedUnexplained?
  {
    hide Sort, HonestStream, Failures, Ordered, Outages, VerdictOn, Excused, ToleratesUndeclaredHoles;
    var s := Sort(rows);
    SortedSubCollectionIsOrdered(rows, stream, camera);
    forall i | 0 <= i < |s| ensures Declares(s[i]) && Grounded(s, stream, s[i].body) {
      assert s[i] in s && s[i] in rows;
      ExcusedInOrder(rows, stream, camera, s[i]);
    }
    NoneIsUnexplained(s, stream, camera);
  }

  /** Within tolerance, and its predecessor is there or its gap declares why not. */
  ghost predicate Grounded(s: seq<Entry>, stream: seq<Body>, b: Body) {
    && UsablePolicy(b).Some? && ToleratesUndeclaredHoles(UsablePolicy(b).value)
    && b.seqNo <= |stream| && Excused(s, stream, b)
  }

  lemma ExcusedInOrder(rows: seq<Entry>, stream: seq<Body>, camera: string, e: Entry)
    requires SubCollection(rows, stream, camera) && Failures(rows) == [] && e in rows
    ensures e.body.seqNo <= |stream| && Excused(Sort(rows), stream, e.body)
  {
    hide Sort, HonestStream, Failures, Excused, Charged, Ordered;
    SortedSubCollectionIsOrdered(rows, stream, camera);
    DeletionIsDetectedExactly(rows, stream, camera);
    ExcusedEitherWay(rows, Sort(rows), stream, e.body);
  }

  lemma NoneIsUnexplained(s: seq<Entry>, stream: seq<Body>, camera: string)
    requires HonestStream(stream, camera) && Ordered(s, stream) && AllDeclare(s)
    requires forall i :: 0 <= i < |s| ==> Grounded(s, stream, s[i].body)
    ensures !VerdictOn(Outages(s)).InterruptedUnexplained?
  {
    hide HonestStream, Ordered, Declares, OutageAt, Excused, Outages;
    if o :| o in Outages(s) && o.cls.Unexplained? {
      OutagesAreReal(s, o);
      var i :| 0 < i < |s| && OutageAt(s[i - 1].body, s[i].body) == Some(o);
      HonestBoundary(s, i, stream, camera);
    }
  }

  lemma ExcusedEitherWay(rows: seq<Entry>, s: seq<Entry>, stream: seq<Body>, b: Body)
    requires b.seqNo <= |stream| && forall e :: e in s <==> e in rows
    ensures Excused(s, stream, b) <==> Excused(rows, stream, b)
  {
  }

  /** Two back-to-back records whose 2-second hole the producer need not declare. */
  function TightStream(p: Policy, camera: string): seq<Body> {
    var first, second := Sha256([0]), Sha256([1]);
    [Body(camera, 0, first, None, 0, 1, Some(p), 0, Json.Null),
     Body(camera, 1, second, Some(first), 1 + CAPTURE_GAP_TOLERANCE, 2 + CAPTURE_GAP_TOLERANCE, Some(p), 0, Json.Null)]
  }

  /** The condition on the policy is exact: under any other usable policy an
      honest, complete, clean stream exists that is graded unexplained. */
  lemma TighterPolicyCanBeUnexplained(p: Policy, camera: string)
    requires p.nominal > 0 && p.jitter < p.nominal && !ToleratesUndeclaredHoles(p)
    ensures var stream := TightStream(p, camera);
            var rows := [Entry(0, stream[0]), Entry(1, stream[1])];
            && SubCollection(rows, stream, camera) && Failures(rows) == []
            && AllDeclare(rows)
            && Sort(rows) == rows
            && VerdictOn(Outages(rows)).InterruptedUnexplained?
  {
    hide Sort, Outages, OutageAt, VerdictOn, Failures, HonestStream;
    var stream := TightStream(p, camera);
    var rows := [Entry(0, stream[0]), Entry(1, stream[1])];
    TightStreamIsHonest(p, camera);
    assert rows[0] in rows && rows[1] in rows;
    CompleteStreamIsClean(rows, stream, camera);
    PairIsSorted(rows[0], rows[1]);
    TightOutage(p, camera);
    PairOutage(rows[0], rows[1]);
  }

  lemma TightStreamIsHonest(p: Policy, camera: string)
    ensures HonestStream(TightStream(p, camera), camera)
  {
    var stream := TightStream(p, camera);
    assert Follows([], stream[0], camera) && Follows([stream[0]], stream[1], camera);
    assert stream[..0] == [] && stream[..1] == [stream[0]];
  }

  lemma PairIsSorted(a: Entry, b: Entry)
    requires a.body.camera == b.body.camera && a.body.seqNo < b.body.seqNo
    ensures Sort([a, b]) == [a, b]
  {
    hide TextBefore;
    assert [a, b][..1] == [a] && [a][..0] == [];
    assert Sort([a]) == [a];
    TextBeforeIsTotalOrder(a.body.camera, a.body.camera, []);
  }

  lemma PairOutage(a: Entry, b: Entry)
    requires Declares(a) && Declares(b) && OutageAt(a.body, b.body).Some?
    ensures AllDeclare([a, b]) && Outages([a, b]) == [OutageAt(a.body, b.body).value]
  {
    hide OutageAt;
    assert [a, b][..1] == [a] && [a][..0] == [];
    assert Outages([a]) == [];
  }

  lemma TightOutage(p: Policy, camera: string)
    requires p.nominal > 0 && p.jitter < p.nominal && !ToleratesUndeclaredHoles(p)
    ensures var stream := TightStream(p, camera); UsablePolicy(stream[1]).Some? && var o := OutageAt(stream[0], stream[1]);
      o.Some? && VerdictOn([o.value]).InterruptedUnexplained?
  {
    var stream := TightStream(p, camera);
    assert UsablePolicy(stream[1]) == Some(p);
    var o := OutageAt(stream[0], stream[1]).value;
    assert o in [o];
  }
}
