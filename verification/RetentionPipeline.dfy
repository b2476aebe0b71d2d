/** Retention passes, the spool and the relay end to end: what is deleted here is declared on the chain. */
module RetentionPipeline {
  import opened Prelude
  import opened Json
  import opened RetentionRecord
  import opened RetentionPlan
  import opened RetentionRun
  import opened RetentionHistory
  import Spool = SpoolRelay

  // ---- The spool ----

  /** What one delivery ships: a body under a name made of the camera, the date and the chunk number. */
  datatype Shipment = Shipment(name: Spool.Name, parcel: Spool.Parcel)

  ghost predicate Placed(plans: seq<Journal>, at: At) { at.plan < |plans| && at.chunk < |plans[at.plan].chunks| }

  ghost predicate AllPlaced(plans: seq<Journal>, delivered: seq<Delivery>) {
    forall k :: 0 <= k < |delivered| ==> Placed(plans, delivered[k].at)
  }

  function Ship(plans: seq<Journal>, d: Delivery): Shipment
    requires Placed(plans, d.at)
  {
    var chunk := plans[d.at.plan].chunks[d.at.chunk].number;
    Shipment(
      Spool.RetentionJob(d.record.camera, d.record.deletedAt, chunk),
      Spool.Parcel(WireOf(d.record), None))
  }

  function Shipments(plans: seq<Journal>, delivered: seq<Delivery>): seq<Shipment>
    requires AllPlaced(plans, delivered)
  {
    seq(|delivered|, k requires 0 <= k < |delivered| => Ship(plans, delivered[k]))
  }

  /** What the spool holds: a shipment replaces whatever its name held. */
  function Spooled(shipments: seq<Shipment>): map<Spool.Name, Spool.Parcel> {
    if shipments == [] then map[]
    else
      var last := shipments[|shipments| - 1];
      Spooled(shipments[..|shipments| - 1])[last.name := last.parcel]
  }

  ghost predicate Holds(jobs: map<Spool.Name, Spool.Parcel>, s: Shipment) { s.name in jobs && jobs[s.name] == s.parcel }

  /** The later shipment puts another body under the name of the earlier. */
  ghost predicate Replaces(earlier: Shipment, later: Shipment) {
    earlier.name == later.name && earlier.parcel != later.parcel
  }

  /** Exactly when the spool keeps every shipment: no two put different bodies under one name. */
  lemma SpoolKeepsExactly(shipments: seq<Shipment>)
    ensures (forall k :: 0 <= k < |shipments| ==> Holds(Spooled(shipments), shipments[k])) <==>
            (forall i, j :: 0 <= i < j < |shipments| ==> !Replaces(shipments[i], shipments[j]))
  {
    if forall i, j :: 0 <= i < j < |shipments| ==> !Replaces(shipments[i], shipments[j]) {
      SpoolKeeps(shipments);
    }
  }

  lemma {:induction false} SpoolKeeps(shipments: seq<Shipment>)
    requires forall i, j :: 0 <= i < j < |shipments| ==> !Replaces(shipments[i], shipments[j])
    ensures forall k :: 0 <= k < |shipments| ==> Holds(Spooled(shipments), shipments[k])
  {
    if shipments != [] {
      var n := |shipments| - 1;
      SpoolKeeps(shipments[..n]);
      forall k | 0 <= k < |shipments| ensures Holds(Spooled(shipments), shipments[k]) {
        if k < n {
          assert !Replaces(shipments[k], shipments[n]);
          assert Holds(Spooled(shipments[..n]), shipments[..n][k]);
        }
      }
    }
  }

  lemma {:induction false} SpooledWasShipped(shipments: seq<Shipment>)
    ensures forall n :: n in Spooled(shipments) ==> Shipment(n, Spooled(shipments)[n]) in shipments
  {
    if shipments != [] {
      SpooledWasShipped(shipments[..|shipments| - 1]);
    }
  }

  // ---- Records of one run ----

  /** Records of a run that share a name are one record, delivered again. */
  lemma NamesAreOwn(cfg: Config, s: State, i: nat, j: nat)
    requires DeliveredOk(cfg, s) && AllPlaced(s.plans, s.delivered) && InTime(s.plans) && NoCollisions(s.plans)
    requires i < |s.delivered| && j < |s.delivered|
    ensures !Replaces(Ship(s.plans, s.delivered[i]), Ship(s.plans, s.delivered[j]))
  {
    var d, e := s.delivered[i], s.delivered[j];
    assert Determined(cfg, s.plans, d) && Determined(cfg, s.plans, e);
    if Ship(s.plans, d).name == Ship(s.plans, e).name {
      OnePass(s.plans, d.at, e.at);
      var chunks := s.plans[d.at.plan].chunks;
      assert SameIdentity(chunks[d.at.chunk], chunks[e.at.chunk]) && SameIdentity(chunks[e.at.chunk], chunks[d.at.chunk]);
      assert !Collision(chunks);
      assert d.at == e.at;
    }
  }

  lemma OnePass(plans: seq<Journal>, a: At, b: At)
    requires InTime(plans) && Placed(plans, a) && Placed(plans, b)
    requires plans[a.plan].chunks[a.chunk].deletedAt == plans[b.plan].chunks[b.chunk].deletedAt
    ensures a.plan == b.plan
  {
    var c, d := plans[a.plan].chunks[a.chunk], plans[b.plan].chunks[b.chunk];
  }

  lemma HonestIsPlaced(cfg: Config, s: State)
    requires Honest(cfg, s)
    ensures DeliveredOk(cfg, s) && AllPlaced(s.plans, s.delivered)
  {
    forall k | 0 <= k < |s.delivered| ensures Placed(s.plans, s.delivered[k].at) {
      assert Determined(cfg, s.plans, s.delivered[k]);
    }
  }

  // ---- What the chain declares ----

  ghost predicate Declares(v: Value, item: Item) {
    v.Obj? && "removed" in v.fields && v.fields["removed"].Arr? && ItemValue(item) in v.fields["removed"].items
  }

  ghost predicate OnChain(chain: seq<Spool.Wire>, item: Item) {
    exists i :: 0 <= i < |chain| && chain[i].RetentionRecord? && Declares(chain[i].record, item)
  }

  lemma BodyDeclares(r: Record, item: Item)
    requires Lists(r, item)
    ensures Declares(BodyValue(r), item)
  {
    var i :| 0 <= i < |r.removed| && r.removed[i] == item;
    assert ItemValues(r.removed)[i] == ItemValue(item);
  }

  ghost predicate AllOnChain(chain: seq<Spool.Wire>, s: State) {
    forall k :: 0 <= k < |s.delivered| ==> WireOf(s.delivered[k].record) in chain
  }

  /** Everything unlinked is declared once every delivered record is there. */
  lemma UnlinkedIsDeclared(cfg: Config, chain: seq<Spool.Wire>, s: State, k: nat)
    requires UnlinkedOk(cfg, s) && AllOnChain(chain, s) && k < |s.unlinked|
    ensures OnChain(chain, Describe(cfg, s.unlinked[k].name, s.unlinked[k].content))
  {
    hide BodyValue, Describe, Lists, Declares;
    var u := s.unlinked[k];
    assert Declared(cfg, s.delivered, u);
    var d :| 0 <= d < u.after && Lists(s.delivered[d].record, Describe(cfg, u.name, u.content));
    BodyDeclares(s.delivered[d].record, Describe(cfg, u.name, u.content));
    var w := WireOf(s.delivered[d].record);
    var i :| 0 <= i < |chain| && chain[i] == w;
    assert chain[i].RetentionRecord? && Declares(chain[i].record, Describe(cfg, u.name, u.content));
  }

  lemma GoneIsDeclared(cfg: Config, chain: seq<Spool.Wire>, s: State, dir: Directory, n: string)
    requires UnlinkedOk(cfg, s) && AllOnChain(chain, s) && Accounted(dir, s) && n in dir
    ensures (n in s.dir && s.dir[n] == dir[n]) || OnChain(chain, Describe(cfg, n, dir[n].content))
  {
    hide UnlinkedOk, AllOnChain, OnChain, Describe;
    if Gone(s.unlinked, n, dir[n].content) {
      var k :| 0 <= k < |s.unlinked| && s.unlinked[k].name == n && s.unlinked[k].content == dir[n].content;
      UnlinkedIsDeclared(cfg, chain, s, k);
    }
  }

  lemma EverySoundJobLands(cfg: Config, s: State, jobs: map<Spool.Name, Spool.Parcel>, chain: seq<Spool.Wire>)
    requires AllPlaced(s.plans, s.delivered) && jobs == Spooled(Shipments(s.plans, s.delivered))
    requires DeliveredOk(cfg, s) && InTime(s.plans) && NoCollisions(s.plans) && AllSound(cfg, s.plans)
    requires forall n :: n in jobs && Spool.Sound(jobs[n]) ==> jobs[n].wire in chain
    ensures AllOnChain(chain, s)
  {
    hide BodyValue, WellFormed, RecordOf, InTime, NoCollisions, Ship, Replaces, Spooled;
    var shipments := Shipments(s.plans, s.delivered);
    forall i, j | 0 <= i < j < |shipments| ensures !Replaces(shipments[i], shipments[j]) { NamesAreOwn(cfg, s, i, j); }
    SpoolKeepsExactly(shipments);
    forall k | 0 <= k < |s.delivered| ensures WireOf(s.delivered[k].record) in chain {
      assert Holds(jobs, shipments[k]);
      ShippedIsSound(cfg, s, k);
    }
  }

  lemma ShippedIsSound(cfg: Config, s: State, k: nat)
    requires k < |s.delivered| && Placed(s.plans, s.delivered[k].at)
    requires DeliveredOk(cfg, s) && AllSound(cfg, s.plans)
    ensures var parcel := Ship(s.plans, s.delivered[k]).parcel;
      Spool.Sound(parcel) && parcel.wire == WireOf(s.delivered[k].record)
  {
    hide BodyValue, WellFormed;
    var d := s.delivered[k];
    assert Determined(cfg, s.plans, d);
    assert Sound(cfg, s.plans[d.at.plan], s.plans[d.at.plan].chunks[d.at.chunk]);
  }

  /** Any life of a capture host's retention followed by any life of the relay, both ending undisturbed. */
  method RetentionToChain(life: Life, steps: nat) returns (end: State, chain: seq<Spool.Wire>, arrived: bool)
    requires life.cfg.tier == "capture-host" && life.settle.Some?
    ensures Honest(life.cfg, end) && Spool.NoDuplicates(chain)
    // The chain holds nothing but records this host delivered.
    ensures forall w :: w in chain ==> exists d :: d in end.delivered && w == WireOf(d.record)
    // No old file is left.
    ensures Ordinary(life) ==>
      forall n :: n in end.dir ==> end.dir[n].mtime >= life.settle.value - life.cfg.policy * DAY
    // Once every shipment has arrived, each file is as it was or its digest, kind and length are on the chain.
    ensures arrived && Ordinary(life) && ClockAdvances(life) && OwnCameras(life) ==>
      forall n :: n in life.dir && n !in Written(life.events) ==> KeptOrDeclared(life, end, chain, n)
  {
    hide Ordinary, ClockAdvances, OwnCameras, AllSound, InTime, NoCollisions, Accounted, Honest, KeptOrDeclared, WireOf, Written, Spooled, Ship, NodeOk, Blocked;
    var last, own;
    end, last, own := RetentionLife(life);
    HonestIsPlaced(life.cfg, end);
    var jobs := Spooled(Shipments(end.plans, end.delivered));
    var delivered, waiting;
    chain, delivered, waiting := Spool.RelayLifetime(jobs, steps, true);
    arrived := delivered == jobs.Keys;
    OnlyDelivered(end, jobs, chain);
    if arrived && Ordinary(life) && ClockAdvances(life) && OwnCameras(life) {
      EverySoundJobLands(life.cfg, end, jobs, chain);
      AllKeptOrDeclared(life, end, chain);
    }
  }

  /** A file is as it was, or its digest, kind and length are on the chain. */
  ghost predicate KeptOrDeclared(life: Life, end: State, chain: seq<Spool.Wire>, n: string)
    requires n in life.dir
  {
    (n in end.dir && end.dir[n] == life.dir[n]) || OnChain(chain, Describe(life.cfg, n, life.dir[n].content))
  }

  lemma AllKeptOrDeclared(life: Life, end: State, chain: seq<Spool.Wire>)
    requires Honest(life.cfg, end) && Accounted(life.dir - Written(life.events), end) && AllOnChain(chain, end)
    ensures forall n :: n in life.dir && n !in Written(life.events) ==> KeptOrDeclared(life, end, chain, n)
  {
    hide Honest, Accounted, AllOnChain, OnChain, Describe, Written;
    HonestIsDeclared(life.cfg, end);
    forall n | n in life.dir && n !in Written(life.events) ensures KeptOrDeclared(life, end, chain, n) {
      GoneIsDeclared(life.cfg, chain, end, life.dir - Written(life.events), n);
    }
  }

  /** On the node's own host there is no spool between: whatever the cameras, the clock and the faults,
      a file is gone only if the chain declares it. */
  method NodeRetentionToChain(life: Life) returns (end: State, last: Outcome, chain: seq<Spool.Wire>)
    requires life.cfg.tier == "spool"
    ensures Honest(life.cfg, end) && Spool.NoDuplicates(chain)
    ensures forall w :: w in chain ==> PlannedWire(life.cfg, end.plans, w)
    ensures forall n :: n in life.dir && n !in Written(life.events) ==> KeptOrDeclared(life, end, chain, n)
    ensures forall k :: 0 <= k < |end.unlinked| ==>
      OnChain(chain, Describe(life.cfg, end.unlinked[k].name, end.unlinked[k].content))
    ensures Ordinary(life) && life.settle.Some? ==>
      last == Finished && forall n :: n in end.dir ==> end.dir[n].mtime >= life.settle.value - life.cfg.policy * DAY
  {
    hide Ordinary, AllSound, InTime, NoCollisions, Accounted, Honest, KeptOrDeclared, OnChain, Describe, WireOf, Written, Blocked, PlannedWire;
    end, last, chain := RetentionLife(life);
    AllKeptOrDeclared(life, end, chain);
    HonestIsDeclared(life.cfg, end);
    forall k | 0 <= k < |end.unlinked| ensures OnChain(chain, Describe(life.cfg, end.unlinked[k].name, end.unlinked[k].content)) {
      UnlinkedIsDeclared(life.cfg, chain, end, k);
    }
  }

  lemma HonestIsDeclared(cfg: Config, s: State)
    requires Honest(cfg, s)
    ensures UnlinkedOk(cfg, s)
  {
  }

  lemma OnlyDelivered(s: State, jobs: map<Spool.Name, Spool.Parcel>, chain: seq<Spool.Wire>)
    requires AllPlaced(s.plans, s.delivered) && jobs == Spooled(Shipments(s.plans, s.delivered))
    requires forall w :: w in chain ==> exists n :: n in jobs && jobs[n].wire == w
    ensures forall w :: w in chain ==> exists d :: d in s.delivered && w == WireOf(d.record)
  {
    hide BodyValue, Spooled;
    var shipments := Shipments(s.plans, s.delivered);
    SpooledWasShipped(shipments);
    forall w | w in chain ensures exists d :: d in s.delivered && w == WireOf(d.record) {
      var n :| n in jobs && jobs[n].wire == w;
      var k :| 0 <= k < |shipments| && shipments[k] == Shipment(n, jobs[n]);
      assert s.delivered[k] in s.delivered;
    }
  }

  // ---- One camera id over two jobs ----

  const TWO_NAMES := ["a.mp4", "b.mp4"]

  /** Two jobs' files under one camera id: an undisturbed pass removes both, and the spool is left with
      one record, so that nothing the relay can append declares the other file. */
  method OneRecordIsLost(cfg: Config, now: int) returns (end: State, lost: string)
    requires SoundConfig(cfg) && cfg.tier == "capture-host" && SpoolCamera(cfg.configured) && cfg.policy * DAY < now < WORD
    ensures Honest(cfg, end) && AllPlaced(end.plans, end.delivered) && end.dir == map[] && lost in TWO_FILES
    ensures forall chain :: (forall w :: w in chain ==> Spool.Shipped(Spooled(Shipments(end.plans, end.delivered)), w)) ==>
      !OnChain(chain, Describe(cfg, lost, TWO_FILES[lost].content))
  {
    hide *;
    TwoOldFiles(cfg, now);
    end := PassOver(cfg, TWO_FILES, TWO_NAMES, now);
    HonestIsPlaced(cfg, end);
    SecondReplacesFirst(cfg, TWO_FILES, end, now);
    lost := end.plans[0].chunks[0].files[0];
    forall chain: seq<Spool.Wire> | forall w :: w in chain ==> Spool.Shipped(Spooled(Shipments(end.plans, end.delivered)), w)
      ensures !OnChain(chain, Describe(cfg, lost, TWO_FILES[lost].content))
    {
      NotOnAnyChain(chain, Spooled(Shipments(end.plans, end.delivered)), Describe(cfg, lost, TWO_FILES[lost].content));
    }
  }

  /** Two old files of different lengths whose jobs share a camera. */
  ghost predicate TwoOld(cfg: Config, dir: Directory, names: seq<string>, now: int) {
    && |names| == 2 && names[0] != names[1] && dir.Keys == {names[0], names[1]}
    && |dir[names[0]].content| != |dir[names[1]].content| && OrdinaryFiles(dir) && OrdinaryTime(now)
    && OldNames(dir, names, now - cfg.policy * DAY) == names && SharesCamera(Scan(cfg, dir, names), names)
    && SpoolCamera(cfg.configured)
  }

  lemma TwoOldFiles(cfg: Config, now: int)
    requires SoundConfig(cfg) && SpoolCamera(cfg.configured) && cfg.policy * DAY < now < WORD
    ensures TwoOld(cfg, TWO_FILES, TWO_NAMES, now)
  {
    hide OldNames, SharesCamera, OrdinaryFiles;
    TwoTokensOneCamera(Scan(cfg, TWO_FILES, TWO_NAMES));
    AllOld(TWO_FILES, TWO_NAMES, now - cfg.policy * DAY);
    SmallFiles();
  }

  lemma {:induction false} AllOld(dir: Directory, names: seq<string>, cutoff: int)
    requires forall i :: 0 <= i < |names| ==> names[i] in dir && dir[names[i]].mtime < cutoff
    ensures OldNames(dir, names, cutoff) == names
  {
    if names != [] { AllOld(dir, names[..|names| - 1], cutoff); }
  }

  lemma SmallFiles()
    ensures OrdinaryFiles(TWO_FILES)
  {
  }

  method PassOver(cfg: Config, dir: Directory, names: seq<string>, now: int) returns (end: State)
    requires SoundConfig(cfg) && TwoOld(cfg, dir, names, now)
    ensures Honest(cfg, end) && end.dir == map[] && OnePassDone(cfg, dir, end, now)
  {
    hide Honest, SoundConfig, PlannedNow, Batch, OnePassDone, UsableNames, SharesCamera, OldNames;
    ConfiguredIsUsable(cfg, dir, names);
    end := CalmPass(cfg, dir, names, now);
    DoneInOnePass(cfg, State(dir, None, [], 0, [], []), end, names, now);
    TwoNames(dir, names);
  }

  lemma TwoNames(dir: Directory, names: seq<string>)
    requires |names| == 2 && dir.Keys == {names[0], names[1]}
    ensures dir - Names(names) == map[]
  {
    assert Names(names) == {names[0], names[1]};
  }

  /** An undisturbed pass over old files, all of them deliverable. */
  method CalmPass(cfg: Config, dir: Directory, names: seq<string>, now: int) returns (end: State)
    requires SoundConfig(cfg) && OrdinaryFiles(dir) && OrdinaryTime(now) && names != [] && forall n :: n in dir ==> n in names
    requires OldNames(dir, names, now - cfg.policy * DAY) == names && UsableNames(Scan(cfg, dir, names), names)
    ensures Honest(cfg, end) && end.dir == dir - Names(names)
    ensures PlannedNow(cfg, State(dir, None, [], 0, [], []), end, names, now)
    ensures end.plans != [] && end.delivered == Batch(cfg, end.plans, 0, |end.plans[|end.plans| - 1].chunks|)
  {
    hide Honest, SoundConfig, OrdinaryFiles, OldNames, PlannedNow, Batch, Accounted, Shrinks, NodeOk, AllDeliverable, Blocked, UsableNames, Names, Hopeless;
    var relay := new Spool.Relay();
    NothingOnNode(cfg);
    relay.calm := true;
    var host := new Host(cfg, dir, relay, true);
    ghost var start := host.s;
    var r := host.RunRetention(names, now);
    end := host.s;
    PlannedIsNew(cfg, start, end, names, now);
    PassFinishesExactly(cfg, start, end, names, now);
  }

  lemma ConfiguredIsUsable(cfg: Config, dir: Directory, names: seq<string>)
    requires SpoolCamera(cfg.configured)
    ensures UsableNames(Scan(cfg, dir, names), names)
  {
    hide Token;
  }

  lemma PlannedIsNew(cfg: Config, s: State, s': State, listing: seq<string>, now: int)
    requires PlannedNow(cfg, s, s', listing, now)
    ensures |s'.plans| == |s.plans| + 1
  {
  }

  /** One chunk for each of two files, under one identity. */
  ghost predicate OneEach(chunks: seq<Chunk>) {
    && |chunks| == 2 && SameIdentity(chunks[0], chunks[1])
    && |chunks[0].files| == 1 && |chunks[1].files| == 1 && chunks[0].files[0] != chunks[1].files[0]
  }

  /** The one pass has delivered a record for each file. */
  ghost predicate OnePassDone(cfg: Config, dir: Directory, s: State, now: int) {
    && |s.plans| == 1 && OneEach(s.plans[0].chunks) && s.delivered == Batch(cfg, s.plans, 0, 2)
    && var c := s.plans[0].chunks; TwoItems(cfg, dir, c[0], c[1])
  }

  ghost predicate TwoItems(cfg: Config, dir: Directory, c: Chunk, d: Chunk) {
    && Describes(cfg, dir, c) && Describes(cfg, dir, d) && |c.removed| == |d.removed| == 1
    && c.removed[0].len != d.removed[0].len
  }

  lemma DoneInOnePass(cfg: Config, start: State, s: State, names: seq<string>, now: int)
    requires start.plans == [] && start.delivered == []
    requires TwoOld(cfg, start.dir, names, now) && PlannedNow(cfg, start, s, names, now)
    requires s.plans != [] && s.delivered == Batch(cfg, s.plans, 0, |s.plans[|s.plans| - 1].chunks|)
    ensures OnePassDone(cfg, start.dir, s, now)
  {
    hide Batch, Collision, SharesCamera, FilesOf, OldNames, Weight, BytesOf, CamerasAre, Payload, Describe, SpoolCamera;
    var chunks := s.plans[0].chunks;
    TwoChunks(chunks, names);
    TwoLengths(cfg, start.dir, names, chunks[0], chunks[1]);
  }

  lemma TwoLengths(cfg: Config, dir: Directory, names: seq<string>, c: Chunk, d: Chunk)
    requires |names| == 2 && dir.Keys == {names[0], names[1]} && |dir[names[0]].content| != |dir[names[1]].content|
    requires Describes(cfg, dir, c) && Describes(cfg, dir, d)
    requires |c.files| == 1 && |d.files| == 1 && c.files[0] != d.files[0]
    ensures TwoItems(cfg, dir, c, d)
  {
    hide RetentionKind;
  }

  lemma TwoChunks(chunks: seq<Chunk>, names: seq<string>)
    requires Collision(chunks) && multiset(FilesOf(chunks)) == multiset(names) && |names| == 2 && names[0] != names[1]
    requires forall i :: 0 <= i < |chunks| ==> chunks[i].files != []
    ensures OneEach(chunks)
  {
    hide FilesOf, Collision;
    TwoDiffer(FilesOf(chunks), names);
    OneFileEach(chunks);
  }

  lemma OneFileEach(chunks: seq<Chunk>)
    requires Collision(chunks) && |FilesOf(chunks)| == 2 && FilesOf(chunks)[0] != FilesOf(chunks)[1]
    requires forall i :: 0 <= i < |chunks| ==> chunks[i].files != []
    ensures OneEach(chunks)
  {
    hide FilesOf;
    NoEmptyChunks(chunks);
    var i, j :| 0 <= i < j < |chunks| && SameIdentity(chunks[i], chunks[j]);
    FilesOfTwo(chunks);
  }

  lemma {:induction false} NoEmptyChunks(chunks: seq<Chunk>)
    requires forall i :: 0 <= i < |chunks| ==> chunks[i].files != []
    ensures |FilesOf(chunks)| >= |chunks|
  {
    if chunks != [] { NoEmptyChunks(chunks[..|chunks| - 1]); }
  }

  lemma TwoDiffer(files: seq<string>, names: seq<string>)
    requires multiset(files) == multiset(names) && |names| == 2 && names[0] != names[1]
    ensures |files| == 2 && files[0] != files[1]
  {
    assert |files| == |multiset(files)| == |multiset(names)| == 2;
    assert names == [names[0], names[1]] && files == [files[0], files[1]];
    assert multiset(files)[files[0]] == 1;
  }

  lemma FilesOfTwo(chunks: seq<Chunk>)
    requires |chunks| == 2
    ensures FilesOf(chunks) == chunks[0].files + chunks[1].files
  {
    assert chunks[..1] == [chunks[0]] && chunks[..1][..0] == [];
    assert FilesOf(chunks[..1]) == chunks[0].files;
  }

  lemma TwoDeliveries(cfg: Config, plans: seq<Journal>)
    requires |plans| == 1 && |plans[0].chunks| == 2
    ensures Batch(cfg, plans, 0, 2) ==
      [Delivery(At(0, 0), RecordOf(cfg, plans[0], plans[0].chunks[0])), Delivery(At(0, 1), RecordOf(cfg, plans[0], plans[0].chunks[1]))]
  {
    assert Batch(cfg, plans, 0, 0) == [];
  }

  lemma SecondReplacesFirst(cfg: Config, dir: Directory, s: State, now: int)
    requires OnePassDone(cfg, dir, s, now) && AllPlaced(s.plans, s.delivered)
    ensures |s.plans| == 1 && |s.plans[0].chunks| == 2 && |s.plans[0].chunks[0].files| == 1
    ensures var lost := s.plans[0].chunks[0].files[0];
      lost in dir && NotDeclared(Spooled(Shipments(s.plans, s.delivered)), Describe(cfg, lost, dir[lost].content))
  {
    hide BodyValue, Batch;
    TwoDeliveries(cfg, s.plans);
    var shipments := Shipments(s.plans, s.delivered);
    var c := s.plans[0].chunks;
    var first, kept := RecordOf(cfg, s.plans[0], c[0]), RecordOf(cfg, s.plans[0], c[1]);
    assert shipments == [Ship(s.plans, Delivery(At(0, 0), first)), Ship(s.plans, Delivery(At(0, 1), kept))];
    SpooledTwo(shipments);
    OnlyOneItem(kept, c[1].removed[0], c[0].removed[0]);
  }

  ghost predicate NotDeclared(jobs: map<Spool.Name, Spool.Parcel>, item: Item) {
    forall n :: n in jobs ==> jobs[n].wire.RetentionRecord? && !Declares(jobs[n].wire.record, item)
  }

  lemma SpooledTwo(shipments: seq<Shipment>)
    requires |shipments| == 2 && shipments[0].name == shipments[1].name
    ensures Spooled(shipments) == map[shipments[1].name := shipments[1].parcel]
  {
    assert shipments[..1] == [shipments[0]] && shipments[..1][..0] == [];
    assert Spooled(shipments[..1]) == map[shipments[0].name := shipments[0].parcel];
  }

  lemma OnlyOneItem(r: Record, only: Item, other: Item)
    requires r.removed == [only] && other.len != only.len
    ensures !Declares(BodyValue(r), other)
  {
    assert ItemValues(r.removed)[0] == ItemValue(only);
    assert ItemValue(other).fields["byte_len"] != ItemValue(only).fields["byte_len"];
  }

  lemma NotOnAnyChain(chain: seq<Spool.Wire>, jobs: map<Spool.Name, Spool.Parcel>, item: Item)
    requires forall w :: w in chain ==> Spool.Shipped(jobs, w)
    requires NotDeclared(jobs, item)
    ensures !OnChain(chain, item)
  {
    hide Declares;
    forall i | 0 <= i < |chain| ensures !(chain[i].RetentionRecord? && Declares(chain[i].record, item)) {
      assert Spool.Shipped(jobs, chain[i]);
      var n :| n in jobs && jobs[n].wire == chain[i];
    }
  }
}
