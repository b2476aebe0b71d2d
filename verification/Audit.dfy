/** The auditor's continuity walk over a corpus of camera records: pass 2 of
    audit_chain, in (camera, segment number) order whatever the append order. */
module Audit {
  import opened Prelude
  import opened CameraRecords

  /** One chain row that carried a camera body. */
  datatype Entry = Entry(artifactId: nat, body: Body)

  datatype Failure =
    | BadGap(entry: Entry, defect: GapDefect)
    | NumberBreak(entry: Entry)
    | HashBreak(entry: Entry)
    | FirstRecordCitesAnother(entry: Entry)

  // ---- the canonical order ----

  predicate TextBefore(a: string, b: string) {
    b != [] && (a == [] || a[0] < b[0] || (a[0] == b[0] && TextBefore(a[1..], b[1..])))
  }

  predicate Before(a: Entry, b: Entry) {
    || TextBefore(a.body.camera, b.body.camera)
    || (a.body.camera == b.body.camera && a.body.seqNo < b.body.seqNo)
  }

  lemma TextBeforeIsTotalOrder(a: string, b: string, c: string)
    ensures !(TextBefore(a, b) && TextBefore(b, a))
    ensures TextBefore(a, b) || TextBefore(b, a) || a == b
    ensures TextBefore(a, b) && TextBefore(b, c) ==> TextBefore(a, c)
  {
    if a == [] || b == [] {
    } else {
      assert a == [a[0]] + a[1..] && b == [b[0]] + b[1..];
      TextBeforeIsTotalOrder(a[1..], b[1..], if c == [] then [] else c[1..]);
    }
  }

  lemma NotBeforeIsTransitive(a: Entry, b: Entry, c: Entry)
    requires !Before(b, a) && !Before(c, b)
    ensures !Before(c, a)
  {
    TextBeforeIsTotalOrder(a.body.camera, b.body.camera, c.body.camera);
    TextBeforeIsTotalOrder(b.body.camera, a.body.camera, c.body.camera);
    TextBeforeIsTotalOrder(b.body.camera, c.body.camera, a.body.camera);
    TextBeforeIsTotalOrder(c.body.camera, b.body.camera, a.body.camera);
    TextBeforeIsTotalOrder(c.body.camera, a.body.camera, b.body.camera);
  }

  ghost predicate Sorted(s: seq<Entry>) {
    forall i, j :: 0 <= i < j < |s| ==> !Before(s[j], s[i])
  }

  /** Stable insertion: after everything that does not sort behind it. */
  function Insert(s: seq<Entry>, e: Entry): seq<Entry> {
    if s == [] then [e]
    else
      var last := |s| - 1;
      if Before(e, s[last]) then Insert(s[..last], e) + [s[last]] else s + [e]
  }

  function Sort(rows: seq<Entry>): seq<Entry> {
    if rows == [] then []
    else Insert(Sort(rows[..|rows| - 1]), rows[|rows| - 1])
  }

  lemma BeforeIsAsymmetric(a: Entry, b: Entry)
    requires Before(a, b)
    ensures !Before(b, a)
  {
    TextBeforeIsTotalOrder(a.body.camera, b.body.camera, []);
  }

  lemma {:induction false} InsertHolds(s: seq<Entry>, e: Entry)
    ensures multiset(Insert(s, e)) == multiset(s) + multiset{e}
    ensures forall x :: x in Insert(s, e) ==> x == e || x in s
  {
    hide Before;
    if s != [] {
      var front, last := s[..|s| - 1], s[|s| - 1];
      assert s == front + [last];
      InsertHolds(front, e);
    }
  }

  lemma {:induction false} InsertIsSorted(s: seq<Entry>, e: Entry)
    requires Sorted(s)
    ensures Sorted(Insert(s, e))
  {
    hide Before;
    if s != [] {
      var front, last := s[..|s| - 1], s[|s| - 1];
      if Before(e, last) {
        InsertIsSorted(front, e);
        InsertHolds(front, e);
        var shorter := Insert(front, e);
        forall i | 0 <= i < |shorter| ensures !Before(last, shorter[i]) {
          assert shorter[i] in shorter;
          BeforeIsAsymmetric(e, last);
        }
      } else {
        forall i | 0 <= i < |front| ensures !Before(e, s[i]) {
          NotBeforeIsTransitive(s[i], last, e);
        }
      }
    }
  }

  lemma EmptyIsSorted()
    ensures Sorted([])
  {
  }

  lemma SortIsSorted(rows: seq<Entry>)
    ensures Sorted(Sort(rows))
    ensures multiset(Sort(rows)) == multiset(rows)
  {
    hide Insert, Sorted;
    EmptyIsSorted();
    if rows != [] {
      var init := rows[..|rows| - 1];
      SortIsSorted(init);
      InsertIsSorted(Sort(init), rows[|rows| - 1]);
      InsertHolds(Sort(init), rows[|rows| - 1]);
      assert rows == init + [rows[|rows| - 1]];
    }
  }

  function Keyed(s: seq<Entry>, camera: string, seqNo: int): seq<Entry> {
    if s == [] then []
    else
      var last := s[|s| - 1];
      Keyed(s[..|s| - 1], camera, seqNo) + (if last.body.camera == camera && last.body.seqNo == seqNo then [last] else [])
  }

  lemma {:induction false} InsertIsStable(s: seq<Entry>, e: Entry, camera: string, seqNo: int)
    ensures Keyed(Insert(s, e), camera, seqNo) == Keyed(s + [e], camera, seqNo)
  {
    hide Before;
    assert (s + [e])[..|s|] == s;
    if s != [] && Before(e, s[|s| - 1]) {
      var front, last := s[..|s| - 1], s[|s| - 1];
      InsertIsStable(front, e, camera, seqNo);
      assert (front + [e])[..|front|] == front;
      BeforeIsAsymmetric(e, last);
      SameKeyIsNotBefore(e, last);
      assert (Insert(front, e) + [last])[..|Insert(front, e)|] == Insert(front, e);
    }
  }

  lemma SameKeyIsNotBefore(a: Entry, b: Entry)
    requires Before(a, b)
    ensures a.body.camera != b.body.camera || a.body.seqNo != b.body.seqNo
  {
    TextBeforeIsTotalOrder(a.body.camera, b.body.camera, []);
  }

  /** Records that share camera and number keep the order they were read in. */
  lemma {:induction false} SortIsStable(rows: seq<Entry>, camera: string, seqNo: int)
    ensures Keyed(Sort(rows), camera, seqNo) == Keyed(rows, camera, seqNo)
  {
    hide Insert;
    if rows != [] {
      var front, last := rows[..|rows| - 1], rows[|rows| - 1];
      SortIsStable(front, camera, seqNo);
      InsertIsStable(Sort(front), last, camera, seqNo);
      assert (Sort(front) + [last])[..|Sort(front)|] == Sort(front);
    }
  }

  // ---- the walk ----

  /** The last entry of a camera, where the walk stands for that camera. */
  function Prior(s: seq<Entry>, camera: string): Option<Entry> {
    if s == [] then None
    else if s[|s| - 1].body.camera == camera then Some(s[|s| - 1])
    else Prior(s[..|s| - 1], camera)
  }

  /** What one record is charged with, given where its camera stands. */
  function Charges(e: Entry, prior: Option<Entry>): seq<Failure> {
    var b := e.body;
    var defect := GapDefectOf(b.gap, b.seqNo, if prior.Some? then Some(prior.value.body.seqNo) else None);
    var gapped := !b.gap.Null? && defect.None?;
    (if defect.Some? then [BadGap(e, defect.value)] else [])
    + (if gapped then []
       else if prior.Some? then
         (if b.seqNo != prior.value.body.seqNo + 1 then [NumberBreak(e)] else [])
         + (if b.prev != Some(prior.value.body.sha) then [HashBreak(e)] else [])
       else if b.prev.Some? then [FirstRecordCitesAnother(e)] else [])
  }

  function Walk(s: seq<Entry>): seq<Failure> {
    if s == [] then []
    else
      var last := |s| - 1;
      Walk(s[..last]) + Charges(s[last], Prior(s[..last], s[last].body.camera))
  }

  function Failures(rows: seq<Entry>): seq<Failure> {
    Walk(Sort(rows))
  }

  /** What the walk says of one record, as it stands in the loop. */
  method ChargeOne(e: Entry, prior: Option<Entry>) returns (charges: seq<Failure>)
    ensures charges == Charges(e, prior)
  {
    hide GapDefectOf;
    var b := e.body;
    charges := [];
    var defect := GapDefectOf(b.gap, b.seqNo, if prior.Some? then Some(prior.value.body.seqNo) else None);
    if defect.Some? {
      charges := charges + [BadGap(e, defect.value)];
    }
    var gapped := !b.gap.Null? && defect.None?;
    if prior.Some? {
      if b.seqNo != prior.value.body.seqNo + 1 && !gapped {
        charges := charges + [NumberBreak(e)];
      }
      if b.prev != Some(prior.value.body.sha) && !gapped {
        charges := charges + [HashBreak(e)];
      }
    } else if b.prev.Some? && !gapped {
      charges := charges + [FirstRecordCitesAnother(e)];
    }
  }

  /** The loop of audit_chain's pass 2, with its per-camera dictionary. */
  method AuditContinuity(rows: seq<Entry>) returns (failures: seq<Failure>)
    ensures failures == Failures(rows)
  {
    hide Charges, Sort;
    var ordered := Sort(rows);
    var chains: map<string, Entry> := map[];
    failures := [];
    for i := 0 to |ordered|
      invariant failures == Walk(ordered[..i])
      invariant forall cam :: (if cam in chains then Some(chains[cam]) else None) == Prior(ordered[..i], cam)
    {
      var e := ordered[i];
      assert ordered[..i + 1][..i] == ordered[..i];
      var charges := ChargeOne(e, if e.body.camera in chains then Some(chains[e.body.camera]) else None);
      failures := failures + charges;
      chains := chains[e.body.camera := e];
    }
    assert ordered[..|ordered|] == ordered;
  }

  // ---- one camera at a time ----

  function RowsOf(rows: seq<Entry>, camera: string): seq<Entry> {
    if rows == [] then []
    else
      var last := |rows| - 1;
      if rows[last].body.camera == camera
      then RowsOf(rows[..last], camera) + [rows[last]]
      else RowsOf(rows[..last], camera)
  }

  function FailuresOf(failures: seq<Failure>, camera: string): seq<Failure> {
    if failures == [] then []
    else if failures[0].entry.body.camera == camera then [failures[0]] + FailuresOf(failures[1..], camera)
    else FailuresOf(failures[1..], camera)
  }

  lemma FailuresOfConcat(a: seq<Failure>, b: seq<Failure>, camera: string)
    ensures FailuresOf(a + b, camera) == FailuresOf(a, camera) + FailuresOf(b, camera)
  {
    if a == [] {
      assert a + b == b;
    } else {
      assert (a + b)[1..] == a[1..] + b;
      FailuresOfConcat(a[1..], b, camera);
    }
  }

  lemma RowsOfAppend(rows: seq<Entry>, e: Entry, camera: string)
    ensures RowsOf(rows + [e], camera) == if e.body.camera == camera then RowsOf(rows, camera) + [e] else RowsOf(rows, camera)
  {
    assert (rows + [e])[..|rows|] == rows;
  }

  lemma PriorOfAppend(s: seq<Entry>, e: Entry)
    ensures Prior(s + [e], e.body.camera) == Some(e)
  {
  }

  lemma {:induction false} PriorOfProjection(s: seq<Entry>, camera: string)
    ensures Prior(RowsOf(s, camera), camera) == Prior(s, camera)
  {
    if s != [] {
      if s[|s| - 1].body.camera == camera {
        PriorOfAppend(RowsOf(s[..|s| - 1], camera), s[|s| - 1]);
      } else {
        PriorOfProjection(s[..|s| - 1], camera);
      }
    }
  }

  lemma ChargesStayWithCamera(e: Entry, prior: Option<Entry>, camera: string)
    ensures FailuresOf(Charges(e, prior), camera) == if e.body.camera == camera then Charges(e, prior) else []
  {
    var all := Charges(e, prior);
    assert |all| <= 3;
    assert forall i :: 0 <= i < |all| ==> all[i].entry == e;
    FailuresOfUniform(all, e, camera);
  }

  lemma {:induction false} FailuresOfUniform(failures: seq<Failure>, e: Entry, camera: string)
    requires forall i :: 0 <= i < |failures| ==> failures[i].entry == e
    ensures FailuresOf(failures, camera) == if e.body.camera == camera then failures else []
  {
    if failures != [] {
      FailuresOfUniform(failures[1..], e, camera);
      assert failures == [failures[0]] + failures[1..];
    }
  }

  lemma WalkOfAppend(s: seq<Entry>, e: Entry)
    ensures Walk(s + [e]) == Walk(s) + Charges(e, Prior(s, e.body.camera))
  {
    assert (s + [e])[..|s|] == s;
  }

  lemma WalkOfProjection(s: seq<Entry>, camera: string)
    ensures FailuresOf(Walk(s), camera) == Walk(RowsOf(s, camera))
  {
    hide Charges;
    if s != [] {
      var last := |s| - 1;
      var init, e := s[..last], s[last];
      var prior := Prior(init, e.body.camera);
      WalkOfProjection(init, camera);
      FailuresOfConcat(Walk(init), Charges(e, prior), camera);
      ChargesStayWithCamera(e, prior, camera);
      if e.body.camera == camera {
        PriorOfProjection(init, camera);
        WalkOfAppend(RowsOf(init, camera), e);
      }
    }
  }

  lemma {:induction false} RowsOfMembers(rows: seq<Entry>, camera: string)
    ensures forall e :: e in RowsOf(rows, camera) <==> e in rows && e.body.camera == camera
  {
    if rows != [] {
      RowsOfMembers(rows[..|rows| - 1], camera);
      assert rows == rows[..|rows| - 1] + [rows[|rows| - 1]];
    }
  }

  lemma InsertBeforeLast(s: seq<Entry>, top: Entry, e: Entry)
    requires Before(e, top)
    ensures Insert(s + [top], e) == Insert(s, e) + [top]
  {
    assert (s + [top])[..|s|] == s;
  }

  lemma InsertAtEnd(s: seq<Entry>, e: Entry)
    requires forall x :: x in s ==> !Before(e, x)
    ensures Insert(s, e) == s + [e]
  {
  }

  lemma InsertOfProjection(s: seq<Entry>, e: Entry, camera: string)
    requires Sorted(s)
    ensures RowsOf(Insert(s, e), camera)
            == if e.body.camera == camera then Insert(RowsOf(s, camera), e) else RowsOf(s, camera)
  {
    hide Before;
    if s == [] {
      RowsOfAppend([], e, camera);
      assert [] + [e] == [e];
    } else {
      var last := |s| - 1;
      if Before(e, s[last]) {
        InsertOfProjection(s[..last], e, camera);
        RowsOfAppend(Insert(s[..last], e), s[last], camera);
        InsertBeforeLast(RowsOf(s[..last], camera), s[last], e);
      } else {
        RowsOfAppend(s, e, camera);
        RowsOfMembers(s, camera);
        forall x | x in s ensures !Before(e, x) {
          var i :| 0 <= i < |s| && s[i] == x;
          if i < last {
            NotBeforeIsTransitive(x, s[last], e);
          }
        }
        InsertAtEnd(RowsOf(s, camera), e);
      }
    }
  }

  lemma SortOfAppend(rows: seq<Entry>, e: Entry)
    ensures Sort(rows + [e]) == Insert(Sort(rows), e)
  {
    assert (rows + [e])[..|rows|] == rows;
  }

  lemma SortOfProjection(rows: seq<Entry>, camera: string)
    ensures RowsOf(Sort(rows), camera) == Sort(RowsOf(rows, camera))
  {
    hide Insert;
    if rows != [] {
      var last := |rows| - 1;
      SortOfProjection(rows[..last], camera);
      SortIsSorted(rows[..last]);
      InsertOfProjection(Sort(rows[..last]), rows[last], camera);
      SortOfAppend(RowsOf(rows[..last], camera), rows[last]);
    }
  }

  /** Auditing several cameras together is auditing each of them alone. */
  lemma CamerasAreIndependent(rows: seq<Entry>, camera: string)
    ensures FailuresOf(Failures(rows), camera) == Failures(RowsOf(rows, camera))
  {
    WalkOfProjection(Sort(rows), camera);
    SortOfProjection(rows, camera);
  }

  // ---- exact deletion detection ----

  /** `rows` are some of the records of an honest stream, each at most once,
      in any order. */
  ghost predicate SubCollection(rows: seq<Entry>, stream: seq<Body>, camera: string) {
    && HonestStream(stream, camera)
    && (forall e :: e in rows ==> e.body in stream)
    && (forall i, j :: 0 <= i < j < |rows| ==> rows[i].body != rows[j].body)
  }

  ghost predicate Kept(rows: seq<Entry>, b: Body) {
    exists e :: e in rows && e.body == b
  }

  /** Continuity at `b` is claimed and backed, or disclaimed by a gap. */
  ghost predicate Excused(rows: seq<Entry>, stream: seq<Body>, b: Body)
    requires b.seqNo <= |stream|
  {
    b.seqNo == 0 || !b.gap.Null? || Kept(rows, stream[b.seqNo - 1])
  }

  ghost predicate Charged(failures: seq<Failure>, e: Entry) {
    exists f :: f in failures && f.entry == e
  }

  /** In canonical order: strictly increasing numbers, each entry the stream's
      record of that number. */
  ghost predicate Ordered(s: seq<Entry>, stream: seq<Body>) {
    && (forall i :: 0 <= i < |s| ==> s[i].body.seqNo < |stream| && s[i].body == stream[s[i].body.seqNo])
    && (forall i, j :: 0 <= i < j < |s| ==> s[i].body.seqNo < s[j].body.seqNo)
  }

  lemma SortedSubCollectionIsOrdered(rows: seq<Entry>, stream: seq<Body>, camera: string)
    requires SubCollection(rows, stream, camera)
    ensures Ordered(Sort(rows), stream)
    ensures forall e :: e in Sort(rows) <==> e in rows
  {
    var s := Sort(rows);
    SortIsSorted(rows);
    forall e ensures e in s <==> e in rows {
      assert e in multiset(s) <==> e in multiset(rows);
    }
    forall i | 0 <= i < |stream| ensures stream[i].seqNo == i && stream[i].camera == camera {
      HonestStreamAt(stream, camera, i);
    }
    forall i, j | 0 <= i < j < |s| ensures s[i].body != s[j].body {
      DistinctBodiesSurviveSorting(rows, s, i, j);
    }
  }

  lemma DistinctBodiesSurviveSorting(rows: seq<Entry>, s: seq<Entry>, i: nat, j: nat)
    requires multiset(s) == multiset(rows) && i < j < |s|
    requires forall a, b :: 0 <= a < b < |rows| ==> rows[a].body != rows[b].body
    ensures s[i].body != s[j].body
  {
    if s[i] == s[j] {
      assert s == s[..i] + [s[i]] + s[i + 1..j] + [s[j]] + s[j + 1..];
      assert multiset(rows)[s[i]] >= 2;
      TwiceMeansTwoPlaces(rows, s[i]);
    } else {
      assert s[i] in multiset(rows) && s[j] in multiset(rows);
    }
  }

  lemma TwiceMeansTwoPlaces<T>(s: seq<T>, x: T)
    requires multiset(s)[x] >= 2
    ensures exists a, b :: 0 <= a < b < |s| && s[a] == x && s[b] == x
  {
    assert x in multiset(s);
    var a :| 0 <= a < |s| && s[a] == x;
    assert s == s[..a] + [x] + s[a + 1..];
    assert x in multiset(s[..a]) + multiset(s[a + 1..]);
    if x in s[..a] {
      var b :| 0 <= b < a && s[b] == x;
    } else {
      assert x in s[a + 1..];
      var b :| a + 1 <= b < |s| && s[b] == x;
    }
  }

  /** An honest record is charged exactly when it declares no gap and is not
      standing right after its predecessor. */
  lemma HonestRecordCharges(e: Entry, prior: Option<Entry>, stream: seq<Body>, camera: string)
    requires HonestStream(stream, camera)
    requires e.body.seqNo < |stream| && e.body == stream[e.body.seqNo]
    requires prior.Some? ==> prior.value.body.seqNo < e.body.seqNo
                             && prior.value.body == stream[prior.value.body.seqNo]
    ensures Charges(e, prior) == [] <==>
            e.body.seqNo == 0 || !e.body.gap.Null? || (prior.Some? && prior.value.body.seqNo == e.body.seqNo - 1)
  {
    hide HonestStream;
    HonestStreamAt(stream, camera, e.body.seqNo);
    if !e.body.gap.Null? {
      PredecessorCitationSurvivesFiltering(e.body.gap, e.body.seqNo,
        if prior.None? then None else Some(prior.value.body.seqNo));
    }
  }

  lemma PriorIsNeighbour(s: seq<Entry>, stream: seq<Body>, camera: string)
    requires HonestStream(stream, camera) && Ordered(s, stream)
    ensures Prior(s, camera) == if s == [] then None else Some(s[|s| - 1])
  {
    if s != [] {
      HonestStreamAt(stream, camera, s[|s| - 1].body.seqNo);
    }
  }

  lemma OrderedInit(init: seq<Entry>, e: Entry, stream: seq<Body>)
    requires Ordered(init + [e], stream)
    ensures Ordered(init, stream)
    ensures e.body.seqNo < |stream| && e.body == stream[e.body.seqNo]
    ensures forall i :: 0 <= i < |init| ==> init[i].body.seqNo < e.body.seqNo
  {
    var s := init + [e];
    assert s[|init|] == e;
    assert forall i :: 0 <= i < |init| ==> s[i] == init[i];
  }

  /** The neighbour just below is the predecessor exactly when the predecessor
      is kept at all. */
  lemma NeighbourOrDeleted(init: seq<Entry>, n: nat, stream: seq<Body>, camera: string)
    requires HonestStream(stream, camera) && Ordered(init, stream) && 0 < n <= |stream|
    requires forall i :: 0 <= i < |init| ==> init[i].body.seqNo < n
    ensures Kept(init, stream[n - 1]) <==> init != [] && init[|init| - 1].body.seqNo == n - 1
  {
    hide HonestStream;
    HonestStreamAt(stream, camera, n - 1);
    if init != [] && init[|init| - 1].body.seqNo == n - 1 {
      assert init[|init| - 1] in init;
    }
    if Kept(init, stream[n - 1]) {
      var e :| e in init && e.body == stream[n - 1];
      var i :| 0 <= i < |init| && init[i] == e;
      assert i == |init| - 1;
    }
  }

  ghost predicate ChargesExactly(failures: seq<Failure>, s: seq<Entry>, stream: seq<Body>)
    requires forall e :: e in s ==> e.body.seqNo < |stream|
  {
    && (forall e :: e in s ==> (Charged(failures, e) <==> !Excused(s, stream, e.body)))
    && (forall f :: f in failures ==> f.entry in s)
  }

  lemma ChargesExactlyAfter(init: seq<Entry>, e: Entry, stream: seq<Body>, before: seq<Failure>, charges: seq<Failure>)
    requires Ordered(init, stream) && e.body.seqNo < |stream| && e.body == stream[e.body.seqNo]
    requires forall i :: 0 <= i < |init| ==> init[i].body.seqNo < e.body.seqNo
    requires forall i :: 0 <= i < |stream| ==> stream[i].seqNo == i
    requires ChargesExactly(before, init, stream)
    requires forall f :: f in charges ==> f.entry == e
    requires charges == [] <==> Excused(init, stream, e.body)
    ensures forall d :: d in init + [e] ==> d.body.seqNo < |stream|
    ensures ChargesExactly(before + charges, init + [e], stream)
  {
    hide Excused;
    hide Charged;
    forall d | d in init + [e]
      ensures d.body.seqNo < |stream|
      ensures Charged(before + charges, d) <==> !Excused(init + [e], stream, d.body)
    {
      NewestChangesNothing(init, e, stream, d, before, charges);
    }
  }

  lemma WalkChargesExactly(s: seq<Entry>, stream: seq<Body>, camera: string)
    requires HonestStream(stream, camera) && Ordered(s, stream)
    ensures ChargesExactly(Walk(s), s, stream)
  {
    if s != [] {
      hide HonestStream;
      hide Charges;
      hide Excused;
      var init, e := s[..|s| - 1], s[|s| - 1];
      assert s == init + [e];
      OrderedInit(init, e, stream);
      WalkChargesExactly(init, stream, camera);
      HonestStreamAt(stream, camera, e.body.seqNo);
      ChargedWhenDeleted(init, e, stream, camera);
      ChargesName(e, Prior(init, camera));
      StreamIsNumbered(stream, camera);
      ChargesExactlyAfter(init, e, stream, Walk(init), Charges(e, Prior(init, camera)));
      WalkOfAppend(init, e);
    }
  }

  lemma ChargedWhenDeleted(init: seq<Entry>, e: Entry, stream: seq<Body>, camera: string)
    requires HonestStream(stream, camera) && Ordered(init, stream)
    requires e.body.seqNo < |stream| && e.body == stream[e.body.seqNo]
    requires forall i :: 0 <= i < |init| ==> init[i].body.seqNo < e.body.seqNo
    ensures Charges(e, Prior(init, camera)) == [] <==> Excused(init, stream, e.body)
  {
    hide Charges;
    hide HonestStream;
    PriorIsNeighbour(init, stream, camera);
    HonestRecordCharges(e, Prior(init, camera), stream, camera);
    if e.body.seqNo > 0 {
      NeighbourOrDeleted(init, e.body.seqNo, stream, camera);
    }
  }

  lemma StreamIsNumbered(stream: seq<Body>, camera: string)
    requires HonestStream(stream, camera)
    ensures forall i :: 0 <= i < |stream| ==> stream[i].seqNo == i
  {
    forall i | 0 <= i < |stream| ensures stream[i].seqNo == i {
      HonestStreamAt(stream, camera, i);
    }
  }

  lemma ChargesName(e: Entry, prior: Option<Entry>)
    ensures forall f :: f in Charges(e, prior) ==> f.entry == e
  {
  }

  /** Adding the highest-numbered record changes neither who was charged before
      it nor whose predecessor is kept. */
  lemma NewestChangesNothing(init: seq<Entry>, e: Entry, stream: seq<Body>, d: Entry,
                             before: seq<Failure>, charges: seq<Failure>)
    requires Ordered(init, stream) && e.body.seqNo < |stream| && stream[e.body.seqNo] == e.body
    requires forall i :: 0 <= i < |init| ==> init[i].body.seqNo < e.body.seqNo
    requires forall i :: 0 <= i < |stream| ==> stream[i].seqNo == i
    requires d in init || d == e
    requires forall f :: f in before ==> f.entry in init
    requires forall f :: f in charges ==> f.entry == e
    ensures d in init ==> (Charged(before + charges, d) <==> Charged(before, d))
    ensures d == e ==> (Charged(before + charges, d) <==> charges != [])
    ensures d.body.seqNo < |stream| && (Excused(init + [e], stream, d.body) <==> Excused(init, stream, d.body))
  {
    var s := init + [e];
    if charges != [] {
      assert charges[0] in before + charges;
    }
    forall f | f in before ensures f in before + charges {
    }
    if d.body.seqNo > 0 {
      var p := stream[d.body.seqNo - 1];
      assert e in s && forall k :: k in init ==> k in s;
      assert Kept(init, p) ==> Kept(s, p);
      assert e.body != p;
    }
  }

  /** On any sub-collection of an honest stream, in any order, the audit charges
      a record exactly when its immediate predecessor was removed and it
      declares no gap. */
  lemma DeletionIsDetectedExactly(rows: seq<Entry>, stream: seq<Body>, camera: string)
    requires SubCollection(rows, stream, camera)
    ensures forall e :: e in rows ==>
              e.body.seqNo < |stream| && (Charged(Failures(rows), e) <==> !Excused(rows, stream, e.body))
    ensures Failures(rows) == [] <==>
            forall e :: e in rows ==> e.body.seqNo < |stream| && Excused(rows, stream, e.body)
  {
    var s := Sort(rows);
    SortedSubCollectionIsOrdered(rows, stream, camera);
    WalkChargesExactly(s, stream, camera);
    forall e | e in rows ensures e.body.seqNo < |stream| && (Excused(s, stream, e.body) <==> Excused(rows, stream, e.body)) {
      assert e in s;
    }
    if Failures(rows) != [] {
      var f := Failures(rows)[0];
      assert f in Failures(rows);
      assert Charged(Failures(rows), f.entry);
    }
  }

  /** A complete honest stream, appended in whatever order, has no failure. */
  lemma CompleteStreamIsClean(rows: seq<Entry>, stream: seq<Body>, camera: string)
    requires SubCollection(rows, stream, camera)
    requires forall b :: b in stream ==> Kept(rows, b)
    ensures Failures(rows) == []
  {
    DeletionIsDetectedExactly(rows, stream, camera);
  }
}
