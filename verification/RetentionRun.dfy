/** Retention passes over a directory, with the process dying anywhere: no byte is deleted before a
    record that declares it has been delivered, and an interrupted pass is finished, not repeated. */
module RetentionRun {
  import opened Prelude
  import opened RetentionRecord
  import opened RetentionPlan
  import Spool = SpoolRelay

  datatype Journal = Journal(tier: string, policy: int, chunks: seq<Chunk>)

  /** Which chunk of which pass. */
  datatype At = At(plan: nat, chunk: nat)

  datatype Delivery = Delivery(at: At, record: Record)

  /** An unlink, and how many deliveries had been made by then. */
  datatype Unlinked = Unlinked(name: string, content: Content, after: nat)

  /** The durable state (`dir`, `journal`) and its history: every journal ever written in full, how
      many chunks of the last one are settled, and every delivery and unlink in order. */
  datatype State = State(
    dir: Directory, journal: Option<Journal>, plans: seq<Journal>, done: nat,
    delivered: seq<Delivery>, unlinked: seq<Unlinked>)

  function RecordOf(cfg: Config, j: Journal, c: Chunk): Record {
    var r := Record(c.camera, j.tier, j.policy, c.deletedAt, c.removed, cfg.keyId, "");
    r.(sig := cfg.sign(r))
  }

  // ---- Invariants ----

  ghost predicate JournalOk(s: State) {
    && (forall p :: 0 <= p < |s.plans| ==> s.plans[p].chunks != [])
    && (s.journal.Some? ==>
         && s.plans != []
         && var plan := s.plans[|s.plans| - 1];
            s.done <= |plan.chunks| && s.journal.value == plan.(chunks := plan.chunks[s.done..]))
  }

  /** Until it is settled, a chunk says what its files hold. */
  ghost predicate Pending(cfg: Config, dir: Directory, c: Chunk) {
    && |c.files| == |c.removed|
    && forall k :: 0 <= k < |c.files| && c.files[k] in dir ==>
         c.removed[k] == Describe(cfg, c.files[k], dir[c.files[k]].content)
  }

  ghost predicate PendingOk(cfg: Config, s: State) {
    s.journal.Some? ==>
      forall i :: 0 <= i < |s.journal.value.chunks| ==> Pending(cfg, s.dir, s.journal.value.chunks[i])
  }

  /** Every delivery is the one record its chunk determines: a redelivery is byte for byte the same. */
  ghost predicate DeliveredOk(cfg: Config, s: State) {
    forall k :: 0 <= k < |s.delivered| ==> Determined(cfg, s.plans, s.delivered[k])
  }

  ghost predicate Determined(cfg: Config, plans: seq<Journal>, d: Delivery) {
    && d.at.plan < |plans| && d.at.chunk < |plans[d.at.plan].chunks|
    && d.record == RecordOf(cfg, plans[d.at.plan], plans[d.at.plan].chunks[d.at.chunk])
  }

  /** Each unlinked file's digest, kind and length stood in a record delivered before it went. */
  ghost predicate Declared(cfg: Config, delivered: seq<Delivery>, u: Unlinked) {
    u.after <= |delivered| && exists k :: 0 <= k < u.after && Lists(delivered[k].record, Describe(cfg, u.name, u.content))
  }

  ghost predicate Lists(r: Record, item: Item) { item in r.removed }

  ghost predicate UnlinkedOk(cfg: Config, s: State) {
    forall k :: 0 <= k < |s.unlinked| ==> Declared(cfg, s.delivered, s.unlinked[k])
  }

  /** Deliveries go chunk by chunk and pass by pass; only the last may be repeated. */
  ghost predicate Next(plans: seq<Journal>, a: At, b: At) {
    || b == a
    || (b.plan == a.plan && b.chunk == a.chunk + 1)
    || (b.plan == a.plan + 1 && b.chunk == 0 && a.plan < |plans| && a.chunk + 1 == |plans[a.plan].chunks|)
  }

  /** Where the last delivery stands relative to the journal. */
  ghost predicate LastOk(s: State) {
    var p := |s.plans| - 1;
    if s.delivered == [] then s.plans == [] || (|s.plans| == 1 && s.journal.Some? && s.done == 0)
    else
      && s.plans != []
      && var a := s.delivered[|s.delivered| - 1].at;
         if s.journal.None? then a.plan == p && a.chunk + 1 == |s.plans[p].chunks|
         else
           || a == At(p, s.done)
           || (s.done > 0 && a == At(p, s.done - 1))
           || (s.done == 0 && p > 0 && a.plan == p - 1 && a.chunk + 1 == |s.plans[p - 1].chunks|)
  }

  ghost predicate OrderOk(s: State) {
    && (forall k :: 0 < k < |s.delivered| ==> Next(s.plans, s.delivered[k - 1].at, s.delivered[k].at))
    && (s.delivered != [] ==> s.delivered[0].at == At(0, 0))
    && (JournalOk(s) ==> LastOk(s))
  }

  ghost predicate Honest(cfg: Config, s: State) {
    JournalOk(s) && PendingOk(cfg, s) && DeliveredOk(cfg, s) && UnlinkedOk(cfg, s) && OrderOk(s)
  }

  // ---- Each durable write ----

  function WriteJournal(s: State, j: Journal): State {
    s.(journal := Some(j), plans := s.plans + [j], done := 0)
  }

  lemma WriteJournalKeeps(cfg: Config, s: State, j: Journal)
    requires Honest(cfg, s) && s.journal.None? && j.chunks != []
    requires forall i :: 0 <= i < |j.chunks| ==> Describes(cfg, s.dir, j.chunks[i])
    ensures Honest(cfg, WriteJournal(s, j))
  {
    hide RecordOf, Describe;
    var t := WriteJournal(s, j);
    assert forall p :: 0 <= p < |s.plans| ==> t.plans[p] == s.plans[p];
    assert t.plans[|s.plans|] == j && j.chunks[0..] == j.chunks;
    forall k | 0 <= k < |t.delivered| ensures Determined(cfg, t.plans, t.delivered[k]) {
      assert Determined(cfg, s.plans, s.delivered[k]);
    }
    forall k | 0 < k < |t.delivered| ensures Next(t.plans, t.delivered[k - 1].at, t.delivered[k].at) {
      assert Next(s.plans, s.delivered[k - 1].at, s.delivered[k].at);
    }
  }

  ghost predicate Open(s: State) {
    JournalOk(s) && s.journal.Some? && s.journal.value.chunks != []
  }

  /** The chunk the journal says is next. */
  function Deliver(cfg: Config, s: State): State
    requires Open(s)
  {
    var j := s.journal.value;
    s.(delivered := s.delivered + [Delivery(At(|s.plans| - 1, s.done), RecordOf(cfg, j, j.chunks[0]))])
  }

  lemma DeliverKeeps(cfg: Config, s: State)
    requires Honest(cfg, s) && Open(s)
    ensures Honest(cfg, Deliver(cfg, s)) && HeadDelivered(Deliver(cfg, s))
  {
    hide DeliveredOk, UnlinkedOk, OrderOk, Pending;
    DeliveredStaysDetermined(cfg, s);
    DeliveredInOrder(cfg, s);
    var d := Deliver(cfg, s).delivered[|s.delivered|];
    MoreDeliveries(cfg, s, d);
  }

  lemma DeliveredStaysDetermined(cfg: Config, s: State)
    requires DeliveredOk(cfg, s) && Open(s)
    ensures DeliveredOk(cfg, Deliver(cfg, s))
  {
    hide Determined;
    var t := Deliver(cfg, s);
    NextIsDetermined(cfg, s);
    assert forall k :: 0 <= k < |s.delivered| ==> t.delivered[k] == s.delivered[k];
  }

  lemma NextIsDetermined(cfg: Config, s: State)
    requires Open(s)
    ensures Determined(cfg, s.plans, Deliver(cfg, s).delivered[|s.delivered|])
  {
    SameRecord(cfg, s);
  }

  lemma DeliveredInOrder(cfg: Config, s: State)
    requires OrderOk(s) && Open(s)
    ensures OrderOk(Deliver(cfg, s))
  {
    hide RecordOf;
    var t := Deliver(cfg, s);
    forall k | 0 < k < |t.delivered| ensures Next(t.plans, t.delivered[k - 1].at, t.delivered[k].at) {
      if k < |s.delivered| { assert Next(s.plans, s.delivered[k - 1].at, s.delivered[k].at); }
    }
  }

  lemma MoreDeliveries(cfg: Config, s: State, d: Delivery)
    requires UnlinkedOk(cfg, s)
    ensures UnlinkedOk(cfg, s.(delivered := s.delivered + [d]))
  {
    hide Declared;
    forall k | 0 <= k < |s.unlinked| ensures Declared(cfg, s.delivered + [d], s.unlinked[k]) {
      StillDeclared(cfg, s.delivered, d, s.unlinked[k]);
    }
  }

  lemma SameRecord(cfg: Config, s: State)
    requires Open(s)
    ensures var plan := s.plans[|s.plans| - 1];
      && s.done < |plan.chunks|
      && RecordOf(cfg, s.journal.value, s.journal.value.chunks[0]) == RecordOf(cfg, plan, plan.chunks[s.done])
  {
  }

  lemma StillDeclared(cfg: Config, delivered: seq<Delivery>, d: Delivery, u: Unlinked)
    requires Declared(cfg, delivered, u)
    ensures Declared(cfg, delivered + [d], u)
  {
    hide Lists, Describe;
    var k :| 0 <= k < u.after && Lists(delivered[k].record, Describe(cfg, u.name, u.content));
    assert (delivered + [d])[k] == delivered[k];
  }

  function Unlink(s: State, name: string): State {
    if name in s.dir then
      s.(dir := s.dir - {name}, unlinked := s.unlinked + [Unlinked(name, s.dir[name].content, |s.delivered|)])
    else s
  }

  /** The chunk at the head of the journal has been delivered. */
  ghost predicate HeadDelivered(s: State) {
    Open(s) && s.delivered != [] && s.delivered[|s.delivered| - 1].at == At(|s.plans| - 1, s.done)
  }

  /** Whatever leaves the journal and the deliveries alone keeps what is said of them. */
  lemma SameProgress(cfg: Config, s: State, t: State)
    requires t.journal == s.journal && t.plans == s.plans && t.done == s.done && t.delivered == s.delivered
    requires JournalOk(s) && DeliveredOk(cfg, s) && OrderOk(s)
    ensures JournalOk(t) && DeliveredOk(cfg, t) && OrderOk(t)
    ensures HeadDelivered(s) ==> HeadDelivered(t)
  {
    hide Determined, Next;
  }

  lemma UnlinkKeeps(cfg: Config, s: State, k: nat)
    requires Honest(cfg, s) && HeadDelivered(s) && k < |s.journal.value.chunks[0].files|
    ensures Honest(cfg, Unlink(s, s.journal.value.chunks[0].files[k]))
    ensures HeadDelivered(Unlink(s, s.journal.value.chunks[0].files[k]))
  {
    hide DeliveredOk, UnlinkedOk, OrderOk, Pending;
    var name := s.journal.value.chunks[0].files[k];
    var t := Unlink(s, name);
    SameProgress(cfg, s, t);
    if name in s.dir {
      DeclaredInTime(cfg, s, k);
      StillPending(cfg, s, name);
    }
  }

  lemma DeclaredInTime(cfg: Config, s: State, k: nat)
    requires Honest(cfg, s) && HeadDelivered(s)
    requires var c := s.journal.value.chunks[0]; k < |c.files| && c.files[k] in s.dir
    ensures UnlinkedOk(cfg, Unlink(s, s.journal.value.chunks[0].files[k]))
  {
    hide DeliveredOk, OrderOk, PendingOk, Describe, Lists;
    var name := s.journal.value.chunks[0].files[k];
    var t := Unlink(s, name);
    var u := Unlinked(name, s.dir[name].content, |s.delivered|);
    HeadIsDeclared(cfg, s, k);
    assert Declared(cfg, t.delivered, u);
    assert t.unlinked[|s.unlinked|] == u;
    assert forall i :: 0 <= i < |s.unlinked| ==> t.unlinked[i] == s.unlinked[i];
  }

  lemma HeadIsDeclared(cfg: Config, s: State, k: nat)
    requires Honest(cfg, s) && HeadDelivered(s)
    requires var c := s.journal.value.chunks[0]; k < |c.files| && c.files[k] in s.dir
    ensures var name := s.journal.value.chunks[0].files[k];
      Lists(s.delivered[|s.delivered| - 1].record, Describe(cfg, name, s.dir[name].content))
  {
    hide Describe;
    var c := s.journal.value.chunks[0];
    assert Pending(cfg, s.dir, c);
    assert Determined(cfg, s.plans, s.delivered[|s.delivered| - 1]);
    SameRecord(cfg, s);
    assert c.removed[k] in s.delivered[|s.delivered| - 1].record.removed;
  }

  lemma StillPending(cfg: Config, s: State, name: string)
    requires PendingOk(cfg, s)
    ensures PendingOk(cfg, s.(dir := s.dir - {name}))
  {
    hide Describe;
    if s.journal.Some? {
      forall i | 0 <= i < |s.journal.value.chunks| ensures Pending(cfg, s.dir - {name}, s.journal.value.chunks[i]) {
        assert Pending(cfg, s.dir, s.journal.value.chunks[i]);
      }
    }
  }

  function Advance(s: State): State
    requires Open(s)
  {
    s.(journal := Some(s.journal.value.(chunks := s.journal.value.chunks[1..])), done := s.done + 1)
  }

  lemma AdvanceKeeps(cfg: Config, s: State)
    requires Honest(cfg, s) && HeadDelivered(s)
    ensures Honest(cfg, Advance(s))
  {
    hide Describe, Pending, Determined, Declared, Next;
    var t := Advance(s);
    var plan := s.plans[|s.plans| - 1];
    assert plan.chunks[s.done..][1..] == plan.chunks[s.done + 1..];
  }

  function Close(s: State): State { s.(journal := None) }

  lemma CloseKeeps(cfg: Config, s: State)
    requires Honest(cfg, s) && s.journal.Some? && s.journal.value.chunks == []
    ensures Honest(cfg, Close(s))
  {
    hide Describe, Determined, Declared, Next;
    var plan := s.plans[|s.plans| - 1];
    assert plan.chunks[s.done..] == [];
    if s.delivered != [] {
      assert Determined(cfg, s.plans, s.delivered[|s.delivered| - 1]);
      LastIsInside(cfg, s);
    }
  }

  lemma LastIsInside(cfg: Config, s: State)
    requires DeliveredOk(cfg, s) && s.delivered != []
    ensures var a := s.delivered[|s.delivered| - 1].at; a.plan < |s.plans| && a.chunk < |s.plans[a.plan].chunks|
  {
    assert Determined(cfg, s.plans, s.delivered[|s.delivered| - 1]);
  }

  /** Another writer adds a file under a name no pending chunk uses. */
  function Arrive(s: State, name: string, file: File): State { s.(dir := s.dir[name := file]) }

  lemma ArriveKeeps(cfg: Config, s: State, name: string, file: File)
    requires Honest(cfg, s)
    requires s.journal.Some? ==> name !in FilesOf(s.journal.value.chunks)
    ensures Honest(cfg, Arrive(s, name, file))
  {
    hide Describe, DeliveredOk, Declared, OrderOk;
    SameProgress(cfg, s, Arrive(s, name, file));
    if s.journal.Some? {
      forall i | 0 <= i < |s.journal.value.chunks| ensures Pending(cfg, s.dir[name := file], s.journal.value.chunks[i]) {
        assert Pending(cfg, s.dir, s.journal.value.chunks[i]);
        FilesInclude(s.journal.value.chunks, i);
      }
    }
  }

  lemma {:induction false} FilesInclude(chunks: seq<Chunk>, i: nat)
    requires i < |chunks|
    ensures forall k :: 0 <= k < |chunks[i].files| ==> chunks[i].files[k] in FilesOf(chunks)
  {
    if i < |chunks| - 1 { FilesInclude(chunks[..|chunks| - 1], i); }
  }

  // ---- Passes ----

  datatype Outcome = Finished | TooLarge | BadCamera | Undelivered | Died

  /** The deliveries of chunks `from` up to `to` of the last plan, each once, in order. */
  function Batch(cfg: Config, plans: seq<Journal>, from: nat, to: nat): seq<Delivery>
    requires plans != [] && to <= |plans[|plans| - 1].chunks|
  {
    if to <= from then []
    else
      var plan := plans[|plans| - 1];
      Batch(cfg, plans, from, to - 1) + [Delivery(At(|plans| - 1, to - 1), RecordOf(cfg, plan, plan.chunks[to - 1]))]
  }

  function Names(files: seq<string>): set<string> { set k | 0 <= k < |files| :: files[k] }

  /** Files only leave, and only the named ones. */
  ghost predicate Shrinks(dir: Directory, dir': Directory, files: set<string>) {
    && (forall n :: n in dir' ==> n in dir && dir'[n] == dir[n])
    && (forall n :: n in dir && n !in dir' ==> n in files)
  }

  ghost predicate Gone(unlinked: seq<Unlinked>, name: string, content: Content) {
    exists k :: 0 <= k < |unlinked| && unlinked[k].name == name && unlinked[k].content == content
  }

  /** Each file is as it was, or its unlink with its last content is on record. */
  ghost predicate Accounted(dir: Directory, s: State) {
    forall n :: n in dir ==> (n in s.dir && s.dir[n] == dir[n]) || Gone(s.unlinked, n, dir[n].content)
  }

  lemma StillGone(u: seq<Unlinked>, u': seq<Unlinked>, name: string, content: Content)
    requires Gone(u, name, content) && u <= u'
    ensures Gone(u', name, content)
  {
    var k :| 0 <= k < |u| && u[k].name == name && u[k].content == content;
    assert u'[k] == u[k];
  }

  lemma AccountedOnward(dir: Directory, s: State, t: State)
    requires Accounted(dir, s) && Accounted(s.dir, t) && s.unlinked <= t.unlinked
    ensures Accounted(dir, t)
  {
    hide Gone;
    forall n | n in dir ensures (n in t.dir && t.dir[n] == dir[n]) || Gone(t.unlinked, n, dir[n].content) {
      if Gone(s.unlinked, n, dir[n].content) { StillGone(s.unlinked, t.unlinked, n, dir[n].content); }
    }
  }

  lemma EveryFileIsThere(s: State)
    ensures Accounted(s.dir, s)
  {
  }

  lemma ClosingAccounts(dir: Directory, s: State)
    requires Accounted(dir, s)
    ensures Accounted(dir, Close(s))
  {
  }

  lemma UnlinkAccounts(s: State, name: string)
    ensures Accounted(s.dir, Unlink(s, name)) && s.unlinked <= Unlink(s, name).unlinked
  {
    var t := Unlink(s, name);
    if name in s.dir { assert t.unlinked[|s.unlinked|] == Unlinked(name, s.dir[name].content, |s.delivered|); }
  }

  /** A pass that began at `start` has settled everything up to `s.done`, each record once and in order. */
  ghost predicate Draining(cfg: Config, start: State, s: State) {
    && JournalOk(start) && JournalOk(s) && start.journal.Some? && s.journal.Some? && s.plans == start.plans
    && start.done <= s.done
    && s.delivered == start.delivered + Batch(cfg, s.plans, start.done, s.done)
    && |start.journal.value.chunks| >= s.done - start.done
    && s.dir == start.dir - Names(FilesOf(start.journal.value.chunks[..s.done - start.done]))
  }

  lemma DrainingStarts(cfg: Config, s: State)
    requires JournalOk(s) && s.journal.Some?
    ensures Draining(cfg, s, s)
  {
    hide FilesOf;
    assert s.journal.value.chunks[..0] == [];
    NoFiles();
    assert s.dir - Names([]) == s.dir;
  }

  lemma HeadIsNextPending(cfg: Config, start: State, s: State)
    requires Draining(cfg, start, s) && Open(s)
    ensures s.done - start.done < |start.journal.value.chunks|
    ensures s.journal.value.chunks[0] == start.journal.value.chunks[s.done - start.done]
  {
    hide FilesOf, Batch;
  }

  /** Every chunk settled since `start` could be delivered. */
  ghost predicate DeliverableSoFar(cfg: Config, start: State, s: State) {
    start.journal.Some? && forall i :: 0 <= i < s.done - start.done && i < |start.journal.value.chunks| ==>
      Deliverable(cfg, start.journal.value, start.journal.value.chunks[i])
  }

  lemma DrainingGoesOn(cfg: Config, start: State, before: State, s: State)
    requires Draining(cfg, start, before) && Open(before) && JournalOk(s) && s.plans == before.plans
    requires s.delivered == Deliver(cfg, before).delivered
    requires s.journal == Advance(before).journal && s.done == before.done + 1
    requires s.dir == before.dir - Names(before.journal.value.chunks[0].files)
    ensures Draining(cfg, start, s)
  {
    hide FilesOf, Batch, RecordOf, Names;
    HeadIsNextPending(cfg, start, before);
    FilesGrow(start.journal.value.chunks, before.done - start.done);
    BatchGrows(cfg, before, start.done);
    assert start.delivered + (Batch(cfg, s.plans, start.done, before.done) + [Deliver(cfg, before).delivered[|before.delivered|]])
      == Deliver(cfg, before).delivered;
  }

  /** How a pass that began at `start` may leave things. Stopped short, it has delivered the chunks up
      to the one the journal now starts with, or that one too, so resuming redelivers it unchanged. */
  ghost predicate Drained(cfg: Config, start: State, s: State, r: Outcome) {
    && start.journal.Some? && s.plans == start.plans && s.plans != []
    && var total := |s.plans[|s.plans| - 1].chunks|; var files := Names(FilesOf(start.journal.value.chunks));
       && start.done <= s.done <= total
       && Shrinks(start.dir, s.dir, files)
       && (s.delivered == start.delivered + Batch(cfg, s.plans, start.done, s.done)
           || (r != Finished && s.done < total && s.delivered == start.delivered + Batch(cfg, s.plans, start.done, s.done + 1)))
       && (r == Finished ==> s.journal.None? && s.done == total && s.dir == start.dir - files)
       && (r != Finished ==> s.journal.Some?)
  }

  lemma DrainingStops(cfg: Config, start: State, before: State, s: State, r: Outcome)
    requires Draining(cfg, start, before) && Open(before) && s.plans == before.plans
    requires s.done == before.done && s.journal == before.journal && r != Finished
    requires s.delivered == before.delivered || s.delivered == Deliver(cfg, before).delivered
    requires Shrinks(before.dir, s.dir, Names(before.journal.value.chunks[0].files))
    ensures Drained(cfg, start, s, r)
  {
    hide FilesOf, Batch, RecordOf, Names;
    HeadIsNextPending(cfg, start, before);
    FilesGrow(start.journal.value.chunks, before.done - start.done);
    BatchGrows(cfg, before, start.done);
    assert start.delivered + (Batch(cfg, s.plans, start.done, before.done) + [Deliver(cfg, before).delivered[|before.delivered|]])
      == Deliver(cfg, before).delivered;
  }

  lemma DrainingEnds(cfg: Config, start: State, s: State)
    requires Draining(cfg, start, s) && s.journal.value.chunks == []
    ensures Drained(cfg, start, s, Died) && Drained(cfg, start, Close(s), Finished)
  {
    hide FilesOf, Batch, Names;
    var plan := s.plans[|s.plans| - 1];
    assert plan.chunks[s.done..] == [];
    assert start.journal.value.chunks[..s.done - start.done] == start.journal.value.chunks;
  }

  // ---- What delivery refuses ----

  const SPOOL_CAMERA_MAX := 64

  predicate AsciiLetterOrDigit(c: char) { '0' <= c <= '9' || 'a' <= c <= 'z' || 'A' <= c <= 'Z' }

  /** A camera id that can stand in a spool file name. */
  predicate SpoolCamera(camera: string) {
    && 1 <= |camera| <= SPOOL_CAMERA_MAX && AsciiLetterOrDigit(camera[0])
    && forall i :: 0 <= i < |camera| ==> AsciiLetterOrDigit(camera[i]) || camera[i] == '_' || camera[i] == '-'
  }

  ghost predicate Fits(cfg: Config, plan: Journal, c: Chunk) {
    |BodyText(RecordOf(cfg, plan, c))| < ARTIFACT_LIMIT
  }

  ghost predicate Passes(cfg: Config, plan: Journal, c: Chunk) {
    WellFormed(BodyValue(RecordOf(cfg, plan, c)))
  }

  /** Nothing about the record makes its delivery fail: it fits, its camera can name a spool job and, when
      it is handed to the node directly, the node's validator passes it. */
  ghost predicate Deliverable(cfg: Config, plan: Journal, c: Chunk) {
    Fits(cfg, plan, c) && SpoolCamera(c.camera) && (cfg.tier == "spool" ==> Passes(cfg, plan, c))
  }

  ghost predicate AllDeliverable(cfg: Config, plan: Journal) {
    forall i :: 0 <= i < |plan.chunks| ==> Deliverable(cfg, plan, plan.chunks[i])
  }

  /** The journal starts with a record that no delivery will take. */
  ghost predicate Blocked(cfg: Config, s: State) {
    Open(s) && !Deliverable(cfg, s.journal.value, s.journal.value.chunks[0])
  }

  /** Not even the first record of the plan can be delivered. */
  ghost predicate Hopeless(cfg: Config, plan: Journal) {
    plan.chunks != [] && !Deliverable(cfg, plan, plan.chunks[0])
  }

  /** The last plan is the one just journaled, whole. */
  ghost predicate FreshlyJournaled(s: State, s': State) {
    s'.plans != s.plans && s'.plans != [] && s'.journal == Some(s'.plans[|s'.plans| - 1]) && s'.done == 0
  }

  lemma SameFate(cfg: Config, j: Journal, k: Journal, c: Chunk)
    requires j.tier == k.tier && j.policy == k.policy
    ensures Deliverable(cfg, j, c) <==> Deliverable(cfg, k, c)
  {
  }

  // ---- What a pass leaves ----

  /** A leftover journal: finished, its records exactly those still owed, and nothing new scanned. Without
      faults it is finished exactly when every record still owed can be delivered. */
  ghost predicate Resumed(cfg: Config, s: State, s': State, r: Outcome, calm: bool)
    requires s.journal.Some?
  {
    && Drained(cfg, s, s', r) && s'.plans == s.plans
    && (r == Finished ==>
         && s'.journal.None? && s'.dir == s.dir - Names(FilesOf(s.journal.value.chunks))
         && AllDeliverable(cfg, s.journal.value))
    && (calm && r != Finished ==> !AllDeliverable(cfg, s.journal.value))
  }

  /** A fresh pass: exactly the old files are planned and, if it finishes, gone, each record delivered once.
      Without faults it finishes exactly when every planned record can be delivered. When not even the
      first can be, nothing has changed but the journal. */
  ghost predicate Fresh(cfg: Config, s: State, s': State, listing: seq<string>, now: int, r: Outcome, calm: bool) {
    var names := OldNames(s.dir, listing, now - cfg.policy * DAY);
    && (r == Finished ==> s'.journal.None? && s'.dir == s.dir - Names(names))
    && if s'.plans == s.plans then s' == s && (r == Finished ==> names == []) && (r == Finished || (r == Died && !calm))
       else PlannedNow(cfg, s, s', listing, now) && s'.plans != [] && PlanSettled(cfg, s, s', r, calm)
  }

  ghost predicate PlanSettled(cfg: Config, s: State, s': State, r: Outcome, calm: bool)
    requires s'.plans != []
  {
    var plan := s'.plans[|s'.plans| - 1];
    && (r == Finished ==> s'.delivered == s.delivered + Batch(cfg, s'.plans, 0, |plan.chunks|) && AllDeliverable(cfg, plan))
    && (calm && r != Finished ==> !AllDeliverable(cfg, plan))
    && (Hopeless(cfg, plan) ==> s'.dir == s.dir && s'.delivered == s.delivered && s'.unlinked == s.unlinked)
  }

  // ---- The node's chain, when the host is the node's own ----

  function WireOf(r: Record): Spool.Wire { Spool.Wire.RetentionRecord(BodyValue(r)) }

  ghost predicate PlannedWire(cfg: Config, plans: seq<Journal>, w: Spool.Wire) {
    exists p, c :: 0 <= p < |plans| && 0 <= c < |plans[p].chunks| && w == WireOf(RecordOf(cfg, plans[p], plans[p].chunks[c]))
  }

  /** On the node's own host every record counted as delivered is on the chain; the chain holds nothing
      but planned records, and none twice. */
  ghost predicate NodeOk(cfg: Config, plans: seq<Journal>, delivered: seq<Delivery>, chain: seq<Spool.Wire>) {
    && Spool.NoDuplicates(chain)
    && (cfg.tier == "spool" ==> forall k :: 0 <= k < |delivered| ==> WireOf(delivered[k].record) in chain)
    && (forall w :: w in chain ==> PlannedWire(cfg, plans, w))
  }

  lemma HeadLands(cfg: Config, s: State, chain: seq<Spool.Wire>, chain': seq<Spool.Wire>)
    requires Open(s) && NodeOk(cfg, s.plans, s.delivered, chain) && Spool.NoDuplicates(chain')
    requires var w := WireOf(RecordOf(cfg, s.journal.value, s.journal.value.chunks[0])); chain' == chain || chain' == chain + [w]
    ensures NodeOk(cfg, s.plans, s.delivered, chain')
    ensures cfg.tier != "spool" || WireOf(RecordOf(cfg, s.journal.value, s.journal.value.chunks[0])) in chain' ==>
      NodeOk(cfg, s.plans, Deliver(cfg, s).delivered, chain')
  {
    hide WireOf, RecordOf, Spool.NoDuplicates;
    SameRecord(cfg, s);
    var plan := s.plans[|s.plans| - 1];
    assert PlannedWire(cfg, s.plans, WireOf(RecordOf(cfg, plan, plan.chunks[s.done])));
  }

  lemma NodeOkAfterPlan(cfg: Config, s: State, j: Journal, chain: seq<Spool.Wire>)
    requires NodeOk(cfg, s.plans, s.delivered, chain)
    ensures NodeOk(cfg, s.plans + [j], s.delivered, chain)
  {
    hide WireOf, RecordOf, Spool.NoDuplicates;
    var more := s.plans + [j];
    forall w | w in chain ensures PlannedWire(cfg, more, w) {
      assert PlannedWire(cfg, s.plans, w);
      var p, c :| 0 <= p < |s.plans| && 0 <= c < |s.plans[p].chunks| && w == WireOf(RecordOf(cfg, s.plans[p], s.plans[p].chunks[c]));
      assert more[p] == s.plans[p];
    }
  }

  /** `relay` is the node's own submission path, used when this host is the node's: its `bodies` are the
      staging directory, its `chain` is the node's chain. */
  class Host {
    const cfg: Config
    const relay: Spool.Relay
    var s: State
    var calm: bool

    constructor (cfg: Config, dir: Directory, relay: Spool.Relay, calm: bool)
      ensures this.cfg == cfg && this.relay == relay && this.calm == calm && s == State(dir, None, [], 0, [], [])
      ensures Honest(cfg, s)
    {
      this.cfg, this.relay, this.calm := cfg, relay, calm;
      s := State(dir, None, [], 0, [], []);
    }

    ghost predicate Connected()
      reads this, relay
    {
      relay.readable && (calm ==> relay.calm) && NodeOk(cfg, s.plans, s.delivered, relay.chain)
    }

    /** The process may die here; on a calm day nothing fails. */
    method Dies() returns (b: bool)
      ensures calm ==> !b
    {
      b := *;
      if calm { b := false; }
    }

    /** Ship the record, or on the node's own host submit it. A shipment may land and be reported lost. */
    method HandOver(record: Record, chunk: nat) returns (r: Outcome, landed: bool)
      requires relay.readable && (calm ==> relay.calm) && Spool.NoDuplicates(relay.chain)
      modifies relay`bodies, relay`chain, relay`sidecars
      ensures Spool.NoDuplicates(relay.chain)
      ensures relay.chain == old(relay.chain) || relay.chain == old(relay.chain) + [WireOf(record)]
      ensures landed && cfg.tier == "spool" ==> WireOf(record) in relay.chain
      ensures r == Finished ==> landed
      ensures cfg.tier == "spool" && !WellFormed(BodyValue(record)) ==>
        r != Finished && !landed && relay.chain == old(relay.chain)
      ensures r == Finished || r == Undelivered || r == Died
      ensures calm && (cfg.tier == "spool" ==> WellFormed(BodyValue(record))) ==> r == Finished
    {
      hide WellFormed, BodyValue;
      landed := false;
      var dead := Dies();
      if dead { return Died, landed; }
      if cfg.tier == "spool" {
        var name := Spool.RetentionJob(record.camera, record.deletedAt, chunk);
        relay.bodies := relay.bodies[name := WireOf(record)];
        var outcome := relay.SubmitRecordOnly(name);
        Spool.AppendedOnce(old(relay.chain), relay.chain, WireOf(record));
        if outcome.Died? { return Died, landed; }
        if !outcome.Landed? { return Undelivered, landed; }
        landed := true;
        relay.bodies := relay.bodies - {name};
        return Finished, landed;
      }
      landed := *;
      if calm { landed := true; }
      var lost := Dies();
      r := if landed && !lost then Finished else Undelivered;
    }

    /** Deliver the head chunk's record, unlink its files, drop it from the journal. */
    method SettleHead() returns (r: Outcome)
      requires Honest(cfg, s) && Open(s) && Connected()
      modifies this`s, relay`bodies, relay`chain, relay`sidecars
      ensures Honest(cfg, s) && s.plans == old(s).plans && Connected()
      ensures s.delivered == old(s).delivered || s.delivered == Deliver(cfg, old(s)).delivered
      ensures Shrinks(old(s).dir, s.dir, Names(old(s).journal.value.chunks[0].files))
      ensures Accounted(old(s).dir, s) && old(s).unlinked <= s.unlinked
      ensures r != Finished ==> s.done == old(s).done && s.journal == old(s).journal
      ensures r == Finished ==> s.delivered == Deliver(cfg, old(s)).delivered
      ensures r == Finished ==> s.journal == Advance(old(s)).journal && s.done == old(s).done + 1
      ensures r == Finished ==> s.dir == old(s).dir - Names(old(s).journal.value.chunks[0].files)
      // A record too long or a camera no spool job can be named after is refused before anything is sent.
      ensures r == TooLarge <==> !Fits(cfg, old(s).journal.value, old(s).journal.value.chunks[0])
      ensures r == BadCamera <==>
        Fits(cfg, old(s).journal.value, old(s).journal.value.chunks[0]) && !SpoolCamera(old(s).journal.value.chunks[0].camera)
      ensures Blocked(cfg, old(s)) ==> r != Finished && s == old(s)
      ensures r == TooLarge || r == BadCamera ==> Blocked(cfg, old(s))
      ensures calm && !Blocked(cfg, old(s)) ==> r == Finished
    {
      hide Honest, RecordOf, BodyText, WellFormed, BodyValue, SpoolCamera, Gone, NodeOk, Spool.NoDuplicates;
      var j := s.journal.value;
      var c := j.chunks[0];
      var record := RecordOf(cfg, j, c);
      if |BodyText(record)| >= ARTIFACT_LIMIT { return TooLarge; }
      if !SpoolCamera(c.camera) { return BadCamera; }
      NodeHasNoDuplicates(cfg, s, relay.chain);
      ghost var chain := relay.chain;
      var landed;
      r, landed := HandOver(record, c.number);
      HeadLands(cfg, s, chain, relay.chain);
      if landed {
        DeliverKeeps(cfg, s);
        s := Deliver(cfg, s);
      }
      if r != Finished { return; }
      var gone := Dies();
      if gone { return Died; }
      r := UnlinkFiles(c.files);
      if r != Finished { return; }
      gone := Dies();
      if gone { return Died; }
      AdvanceKeeps(cfg, s);
      s := Advance(s);
    }

    method UnlinkFiles(files: seq<string>) returns (r: Outcome)
      requires Honest(cfg, s) && HeadDelivered(s) && files == s.journal.value.chunks[0].files
      modifies this`s
      ensures Honest(cfg, s) && HeadDelivered(s)
      ensures s.plans == old(s).plans && s.done == old(s).done && s.journal == old(s).journal && s.delivered == old(s).delivered
      ensures Shrinks(old(s).dir, s.dir, Names(files))
      ensures Accounted(old(s).dir, s) && old(s).unlinked <= s.unlinked
      ensures r == Finished || r == Died
      ensures r == Finished ==> s.dir == old(s).dir - Names(files)
      ensures calm ==> r == Finished
    {
      hide Honest, Accounted;
      EveryFileIsThere(s);
      var k := 0;
      while k < |files|
        invariant 0 <= k <= |files| && Accounted(old(s).dir, s) && old(s).unlinked <= s.unlinked
        invariant Honest(cfg, s) && HeadDelivered(s)
        invariant s.plans == old(s).plans && s.done == old(s).done && s.journal == old(s).journal
        invariant s.delivered == old(s).delivered
        invariant s.dir == old(s).dir - Names(files[..k])
      {
        var gone := Dies();
        if gone {
          assert forall n :: n in Names(files[..k]) ==> n in Names(files);
          return Died;
        }
        UnlinkKeeps(cfg, s, k);
        NamesGrow(files, k);
        UnlinkAccounts(s, files[k]);
        AccountedOnward(old(s).dir, s, Unlink(s, files[k]));
        s := Unlink(s, files[k]);
        k := k + 1;
      }
      assert files[..|files|] == files;
      r := Finished;
    }

    /** Settle what the journal still lists, then remove it. */
    method Drain() returns (r: Outcome)
      requires Honest(cfg, s) && s.journal.Some? && JournalOk(s) && Connected()
      modifies this`s, relay`bodies, relay`chain, relay`sidecars
      ensures Honest(cfg, s) && Connected() && Drained(cfg, old(s), s, r)
      ensures Accounted(old(s).dir, s) && old(s).unlinked <= s.unlinked
      // Without faults it finishes exactly when every record still owed can be delivered; else it stops for good.
      ensures r == Finished ==> AllDeliverable(cfg, old(s).journal.value)
      ensures (calm && r != Finished) || r == TooLarge || r == BadCamera ==>
        Blocked(cfg, s) && !AllDeliverable(cfg, old(s).journal.value)
      ensures Blocked(cfg, old(s)) ==> s == old(s)
    {
      hide Honest, RecordOf, BodyText, FilesOf, Draining, Drained, Shrinks, Batch, Names, Deliverable, Accounted, NodeOk;
      ghost var start := s;
      DrainingStarts(cfg, s);
      EveryFileIsThere(s);
      while s.journal.value.chunks != []
        invariant Honest(cfg, s) && s.journal.Some? && JournalOk(s) && s.plans == start.plans && Connected()
        invariant DeliverableSoFar(cfg, start, s) && (Blocked(cfg, start) ==> s == start)
        invariant Draining(cfg, start, s) && Accounted(start.dir, s) && start.unlinked <= s.unlinked
        decreases |s.journal.value.chunks|
      {
        ghost var before := s;
        r := SettleHead();
        HonestMeansJournalOk(cfg, s);
        AccountedOnward(start.dir, before, s);
        HeadIsNextPending(cfg, start, before);
        SameFate(cfg, start.journal.value, before.journal.value, before.journal.value.chunks[0]);
        if r != Finished {
          DrainingStops(cfg, start, before, s, r);
          return;
        }
        DrainingGoesOn(cfg, start, before, s);
      }
      DrainingEnds(cfg, start, s);
      var gone := Dies();
      if gone { return Died; }
      CloseKeeps(cfg, s);
      ClosingAccounts(start.dir, s);
      s := Close(s);
      r := Finished;
    }

    /** One pass: resume what is journaled, or else journal every old file and settle that. `listing`
        names every file of the directory. */
    method RunRetention(listing: seq<string>, now: int) returns (r: Outcome)
      requires Honest(cfg, s) && Connected() && forall n :: n in s.dir ==> n in listing
      modifies this`s, relay`bodies, relay`chain, relay`sidecars
      ensures Honest(cfg, s) && Connected()
      ensures old(s).journal.Some? ==> Resumed(cfg, old(s), s, r, calm)
      ensures old(s).journal.None? ==> Fresh(cfg, old(s), s, listing, now, r, calm)
      // No file goes unrecorded.
      ensures Accounted(old(s).dir, s) && old(s).unlinked <= s.unlinked && Shrinks(old(s).dir, s.dir, old(s).dir.Keys)
      // Stopped without a fault, it stands before a record no delivery will take, and so does every later pass.
      ensures (calm && r != Finished) || r == TooLarge || r == BadCamera ==> Blocked(cfg, s)
      ensures Blocked(cfg, old(s)) ==> r != Finished && s == old(s)
    {
      hide Honest, FilesOf, OldNames, BodyText, Batch, Deliverable, Accounted, PlannedNow, NodeOk;
      HonestMeansJournalOk(cfg, s);
      EveryFileIsThere(s);
      if s.journal.None? {
        var early := BeginPass(listing, now);
        EveryFileIsThere(s);
        if early.Some? { return early.value; }
        ghost var begun := s;
        r := Drain();
        SamePlan(cfg, old(s), begun, s, listing, now);
      } else {
        r := Drain();
      }
    }

    /** Journal a fresh plan, or find nothing to do. */
    method BeginPass(listing: seq<string>, now: int) returns (early: Option<Outcome>)
      requires Honest(cfg, s) && Connected() && s.journal.None? && forall n :: n in s.dir ==> n in listing
      modifies this`s
      ensures Honest(cfg, s) && Connected() && JournalOk(s) && s.dir == old(s).dir
      ensures s.unlinked == old(s).unlinked && s.delivered == old(s).delivered
      ensures s == old(s) || (PlannedNow(cfg, old(s), s, listing, now) && FreshlyJournaled(old(s), s))
      ensures early == Some(Finished) ==>
        && s == old(s) && OldNames(s.dir, listing, now - cfg.policy * DAY) == []
        && s.dir == s.dir - Names(OldNames(s.dir, listing, now - cfg.policy * DAY))
      ensures early.None? ==>
        && s.journal.Some? && PlannedNow(cfg, old(s), s, listing, now) && FreshlyJournaled(old(s), s)
        && Names(FilesOf(s.journal.value.chunks)) == Names(OldNames(s.dir, listing, now - cfg.policy * DAY))
      ensures early.None? || early.value == Finished || (early.value == Died && !calm)
    {
      hide Honest, FilesOf, OldNames, Planned, Describes, Numbered, Weight, BytesOf, Collision, CamerasAre, SharesCamera, NodeOk, PlannedNow, Names;
      HonestMeansJournalOk(cfg, s);
      var names := OldNames(s.dir, listing, now - cfg.policy * DAY);
      OldNamesAre(s.dir, listing, now - cfg.policy * DAY);
      if names == [] {
        NothingNamed(s.dir);
        return Some(Finished);
      }
      forall i | 0 <= i < |names| ensures names[i] in s.dir { assert names[i] in names; }
      var chunks, tokens;
      ghost var owner;
      chunks, tokens, owner := PlanPass(Scan(cfg, s.dir, listing), names, now);
      PlanCoversNames(cfg, s.dir, names, chunks, now);
      var gone := Dies();
      if gone { return Some(Died); }
      var j := Journal(cfg.tier, cfg.policy, chunks);
      WriteJournalKeeps(cfg, s, j);
      NodeOkAfterPlan(cfg, s, j, relay.chain);
      JournalIsPlanned(cfg, s, j, listing, now);
      s := WriteJournal(s, j);
      HonestMeansJournalOk(cfg, s);
      gone := Dies();
      if gone { return Some(Died); }
      return None;
    }
  }

  lemma NothingNamed(dir: Directory)
    ensures dir - Names([]) == dir
  {
  }

  lemma JournalIsPlanned(cfg: Config, s: State, j: Journal, listing: seq<string>, now: int)
    requires j.tier == cfg.tier && j.policy == cfg.policy
    requires var names := OldNames(s.dir, listing, now - cfg.policy * DAY);
      && multiset(FilesOf(j.chunks)) == multiset(names) && BytesOf(j.chunks) == Weight(s.dir, names)
      && CamerasAre(Scan(cfg, s.dir, listing), names, j.chunks)
      && (Collision(j.chunks) <==> SharesCamera(Scan(cfg, s.dir, listing), names))
    requires forall i :: 0 <= i < |j.chunks| ==> Planned(cfg, s.dir, now, j.chunks[i])
    ensures PlannedNow(cfg, s, WriteJournal(s, j), listing, now)
  {
    hide FilesOf, OldNames, Planned, Weight, BytesOf, Collision, CamerasAre, SharesCamera;
    var t := WriteJournal(s, j);
    assert t.plans[|s.plans|] == j && t.plans[..|s.plans|] == s.plans;
  }

  lemma SamePlan(cfg: Config, s: State, begun: State, end: State, listing: seq<string>, now: int)
    requires PlannedNow(cfg, s, begun, listing, now) && end.plans == begun.plans
    ensures PlannedNow(cfg, s, end, listing, now)
  {
    hide FilesOf, OldNames, Planned, Weight, BytesOf, Collision, CamerasAre, SharesCamera;
  }

  lemma NodeHasNoDuplicates(cfg: Config, s: State, chain: seq<Spool.Wire>)
    requires NodeOk(cfg, s.plans, s.delivered, chain)
    ensures Spool.NoDuplicates(chain)
  {
  }

  /** The one plan a fresh pass adds: every old file in it once, no other, its bytes conserved. */
  ghost predicate PlannedNow(cfg: Config, s: State, s': State, listing: seq<string>, now: int) {
    var names := OldNames(s.dir, listing, now - cfg.policy * DAY);
    && |s'.plans| == |s.plans| + 1 && s'.plans[..|s.plans|] == s.plans
    && var plan := s'.plans[|s.plans|];
       && plan.tier == cfg.tier && plan.policy == cfg.policy
       && multiset(FilesOf(plan.chunks)) == multiset(names)
       && BytesOf(plan.chunks) == Weight(s.dir, names)
       && (forall i :: 0 <= i < |plan.chunks| ==> Planned(cfg, s.dir, now, plan.chunks[i]))
       && CamerasAre(Scan(cfg, s.dir, listing), names, plan.chunks)
       && (Collision(plan.chunks) <==> SharesCamera(Scan(cfg, s.dir, listing), names))
  }

  lemma PlanCoversNames(cfg: Config, dir: Directory, names: seq<string>, chunks: seq<Chunk>, now: int)
    requires multiset(FilesOf(chunks)) == multiset(names) && names != []
    requires forall i :: 0 <= i < |chunks| ==> Planned(cfg, dir, now, chunks[i])
    ensures Names(FilesOf(chunks)) == Names(names) && chunks != []
    ensures BytesOf(chunks) == Weight(dir, names)
    ensures forall i :: 0 <= i < |chunks| ==> Describes(cfg, dir, chunks[i])
  {
    hide Describes;
    var files := FilesOf(chunks);
    assert Names(files) == Names(names) by {
      forall n ensures n in Names(files) <==> n in Names(names) {
        assert n in Names(files) <==> n in multiset(files);
        assert n in Names(names) <==> n in multiset(names);
      }
    }
    assert names[0] in multiset(files);
    ChunksWeigh(cfg, dir, chunks);
    WeightOfMultiset(dir, files, names);
  }

  lemma NamesGrow(files: seq<string>, k: nat)
    requires k < |files|
    ensures Names(files[..k + 1]) == Names(files[..k]) + {files[k]}
  {
    assert forall i :: 0 <= i < k ==> files[..k + 1][i] == files[..k][i];
    assert files[..k + 1][k] == files[k];
  }

  lemma NamesOfSum(a: seq<string>, b: seq<string>)
    ensures Names(a + b) == Names(a) + Names(b)
  {
    assert forall i :: 0 <= i < |a| ==> (a + b)[i] == a[i];
    assert forall i :: 0 <= i < |b| ==> (a + b)[|a| + i] == b[i];
  }

  lemma FilesGrow(chunks: seq<Chunk>, i: nat)
    requires i < |chunks|
    ensures Names(FilesOf(chunks[..i + 1])) == Names(FilesOf(chunks[..i])) + Names(chunks[i].files)
    ensures Names(FilesOf(chunks[..i + 1])) <= Names(FilesOf(chunks))
  {
    hide Names, FilesOf;
    assert chunks[..i + 1] == chunks[..i] + [chunks[i]];
    OneMoreFile(chunks[..i], chunks[i]);
    NamesOfSum(FilesOf(chunks[..i]), chunks[i].files);
    FilesOfSum(chunks[..i + 1], chunks[i + 1..]);
    assert chunks[..i + 1] + chunks[i + 1..] == chunks;
    NamesOfSum(FilesOf(chunks[..i + 1]), FilesOf(chunks[i + 1..]));
  }

  lemma BatchGrows(cfg: Config, s: State, from: nat)
    requires Open(s) && from <= s.done
    ensures s.done < |s.plans[|s.plans| - 1].chunks|
    ensures Batch(cfg, s.plans, from, s.done + 1) ==
      Batch(cfg, s.plans, from, s.done) + [Deliver(cfg, s).delivered[|s.delivered|]]
  {
    hide RecordOf;
    SameRecord(cfg, s);
  }

  lemma HonestMeansJournalOk(cfg: Config, s: State)
    requires Honest(cfg, s)
    ensures JournalOk(s)
  {
  }
}
