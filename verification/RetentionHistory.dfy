/** Whole lives of a retention host: any passes, killed anywhere, with files arriving between them. What
    each assumption about the host gives is stated on its inputs: the files it starts with, the events
    and the configuration. */
module RetentionHistory {
  import opened Prelude
  import opened RetentionRecord
  import opened RetentionPlan
  import opened RetentionRun
  import Spool = SpoolRelay

  /** A pass, or another writer's file. */
  datatype Event = Pass(now: int) | NewFile(name: string, file: File)

  /** The files at first, what happens, and whether undisturbed passes at a given time end it. */
  datatype Life = Life(cfg: Config, dir: Directory, events: seq<Event>, settle: Option<int>)

  // ---- The files of a life, and the cameras they may be recorded under ----

  /** The names other writers write under. */
  function Written(events: seq<Event>): set<string> {
    set i | 0 <= i < |events| && events[i].NewFile? :: events[i].name
  }

  ghost predicate Appears(life: Life, name: string, file: File) {
    || (name in life.dir && life.dir[name] == file)
    || exists i :: 0 <= i < |life.events| && life.events[i] == NewFile(name, file)
  }

  ghost predicate Known(life: Life, name: string) { name in life.dir || name in Written(life.events) }

  /** A camera the job may be recorded under: the configured one, or else one that a body of the job
      claims, or the token itself. */
  ghost predicate MayBe(life: Life, token: string, camera: string) {
    if life.cfg.configured != "" then camera == life.cfg.configured
    else
      || camera == token
      || (camera != "" && exists n, file :: Appears(life, n, file) && BodyOf(n, token) && life.cfg.claims(file.content) == Some(camera))
  }

  /** Everything there has appeared. */
  ghost predicate Within(life: Life, dir: Directory) {
    forall n :: n in dir ==> Appears(life, n, dir[n])
  }

  lemma CameraMayBe(life: Life, dir: Directory, listing: seq<string>, token: string)
    requires Within(life, dir)
    ensures MayBe(life, token, CameraOf(Scan(life.cfg, dir, listing), token))
  {
    hide BodyOf, Appears;
    ClaimIsSomeones(life.cfg, dir, listing, token);
    var claim := Claimed(life.cfg, dir, listing, token);
    if claim.Some? {
      var n :| n in listing && ClaimOf(life.cfg, dir, n, token) == claim;
      assert Appears(life, n, dir[n]);
    }
  }

  // ---- Assumptions about a life ----

  ghost predicate SoundConfig(cfg: Config) {
    && Tier(cfg.tier) && 0 < cfg.policy < WORD && |cfg.keyId| == 32
    && (forall c :: HexDigest(cfg.sha(c)))
    && (forall r :: |cfg.sign(r)| == 128)
  }

  ghost predicate OrdinaryTime(now: int) { 0 < now < WORD }

  /** Every job that can be planned is recorded under an id that can name a spool job. */
  ghost predicate SpoolCameras(life: Life) {
    forall n, c :: Known(life, n) && MayBe(life, Token(n), c) ==> SpoolCamera(c)
  }

  /** Nothing out of the ordinary: a sound configuration, usable camera ids, 64-bit lengths and times. */
  ghost predicate Ordinary(life: Life) {
    && SoundConfig(life.cfg) && SpoolCameras(life)
    && (forall n, file :: Appears(life, n, file) ==> |file.content| < WORD)
    && (forall i :: 0 <= i < |life.events| && life.events[i].Pass? ==> OrdinaryTime(life.events[i].now))
    && (life.settle.Some? ==> OrdinaryTime(life.settle.value))
  }

  /** No two jobs are ever recorded under one camera. */
  ghost predicate OwnCameras(life: Life) {
    forall n, m, c :: Known(life, n) && Known(life, m) && MayBe(life, Token(n), c) && MayBe(life, Token(m), c) ==>
      Token(n) == Token(m)
  }

  /** The clock moves on between passes. */
  ghost predicate ClockAdvances(life: Life) {
    && (forall i, j :: 0 <= i < j < |life.events| && life.events[i].Pass? && life.events[j].Pass? ==>
          life.events[i].now < life.events[j].now)
    && (life.settle.Some? ==> forall i :: 0 <= i < |life.events| && life.events[i].Pass? ==>
          life.events[i].now < life.settle.value)
  }

  /** The command was given a camera id that can name no spool job. */
  ghost predicate Unusable(cfg: Config) { cfg.configured != "" && !SpoolCamera(cfg.configured) }

  lemma SpaceIsRefused()
    ensures !SpoolCamera("lobby cam")
  {
    assert "lobby cam"[5] == ' ';
  }

  // ---- Lives that meet them ----

  /** Jobs named after their own tokens: every assumption then is one on the file names. */
  lemma TokenNamedLife(life: Life)
    requires SoundConfig(life.cfg) && life.cfg.configured == "" && forall c :: life.cfg.claims(c) == None
    requires forall n :: Known(life, n) ==> SpoolCamera(Token(n))
    ensures SpoolCameras(life) && OwnCameras(life)
  {
    hide Token, BodyOf, SpoolCamera;
  }

  function PlainConfig(tier: string): Config {
    Config(tier, 30, seq(32, i => '0'), "", c => None, c => seq(64, i => '0'), r => seq(128, i => '0'))
  }

  const TWO_FILES: Directory := map["a.mp4" := File([], 0), "b.mp4" := File([1], 0)]

  /** Such lives exist, on either tier, with several jobs. */
  lemma OrdinaryLivesExist(tier: string)
    requires Tier(tier)
    ensures var life := Life(PlainConfig(tier), TWO_FILES, [], Some(31 * DAY));
      Ordinary(life) && OwnCameras(life) && ClockAdvances(life)
  {
    var life := Life(PlainConfig(tier), TWO_FILES, [], Some(31 * DAY));
    PlainTokens();
    PlainIsSound(tier);
    TokenNamedLife(life);
  }

  lemma PlainIsSound(tier: string)
    requires Tier(tier)
    ensures SoundConfig(PlainConfig(tier))
  {
  }

  lemma PlainTokens()
    ensures forall n :: n in TWO_FILES ==> SpoolCamera(Token(n))
  {
    TokenBeforeDot("a", ".mp4");
    TokenBeforeDot("b", ".mp4");
    assert SpoolCamera("a") && SpoolCamera("b");
  }

  // ---- What a planned record looks like on the wire ----

  /** Lengths are 64-bit numbers. */
  ghost predicate OrdinaryFiles(dir: Directory) {
    forall n :: n in dir ==> |dir[n].content| < WORD
  }

  /** A planned record whose camera can name a spool job passes the relay's validator and is never refused
      for its size. */
  lemma PlannedRecordIsSound(cfg: Config, dir: Directory, now: int, plan: Journal, c: Chunk)
    requires SoundConfig(cfg) && OrdinaryFiles(dir) && OrdinaryTime(now)
    requires Planned(cfg, dir, now, c) && SpoolCamera(c.camera) && plan.tier == cfg.tier && plan.policy == cfg.policy
    ensures Passes(cfg, plan, c) && Fits(cfg, plan, c)
  {
    hide BodyText, WellFormed, Payload, Bytes, EscapedText, BodyValue;
    var r := RecordOf(cfg, plan, c);
    forall i | 0 <= i < |r.removed| ensures GoodItem(r.removed[i]) && r.removed[i].len < WORD {
      assert r.removed[i] == Describe(cfg, c.files[i], dir[c.files[i]].content);
    }
    BuiltBodyIsWellFormed(r);
    PrintableEscapes(r.camera);
    ShortCameraFits(r);
  }

  ghost predicate Sound(cfg: Config, plan: Journal, c: Chunk) {
    Fits(cfg, plan, c) && Passes(cfg, plan, c) && SpoolCamera(c.camera)
  }

  /** Every record any pass planned can be delivered and would be accepted. */
  ghost predicate AllSound(cfg: Config, plans: seq<Journal>) {
    forall p, c :: 0 <= p < |plans| && 0 <= c < |plans[p].chunks| ==> Sound(cfg, plans[p], plans[p].chunks[c])
  }

  lemma BlockedIsUnsound(cfg: Config, s: State)
    requires Blocked(cfg, s)
    ensures !AllSound(cfg, s.plans)
  {
    hide Fits, Passes, SpoolCamera;
    var plan := s.plans[|s.plans| - 1];
    SameRecord(cfg, s);
    SameFate(cfg, plan, s.journal.value, plan.chunks[s.done]);
    assert !Sound(cfg, plan, plan.chunks[s.done]);
  }

  /** The names a fresh pass plans, each with a camera a spool job can be named after. */
  ghost predicate UsableNames(scan: Scan, names: seq<string>) {
    forall k :: 0 <= k < |names| ==> SpoolCamera(CameraOf(scan, Token(names[k])))
  }

  /** Exactly when everything a fresh pass plans can be delivered: every old file's job has a camera id a
      spool job can be named after. Size never decides it. */
  lemma PassFinishesExactly(cfg: Config, s: State, s': State, listing: seq<string>, now: int)
    requires PlannedNow(cfg, s, s', listing, now) && SoundConfig(cfg) && OrdinaryFiles(s.dir) && OrdinaryTime(now)
    ensures AllDeliverable(cfg, s'.plans[|s.plans|]) <==>
      UsableNames(Scan(cfg, s.dir, listing), OldNames(s.dir, listing, now - cfg.policy * DAY))
    ensures AllDeliverable(cfg, s'.plans[|s.plans|]) ==>
      forall c :: 0 <= c < |s'.plans[|s.plans|].chunks| ==> Sound(cfg, s'.plans[|s.plans|], s'.plans[|s.plans|].chunks[c])
  {
    hide Fits, Passes, Planned, SpoolCamera, Collision, SharesCamera, FilesOf, OldNames, Weight, BytesOf, CameraOf, Token, SoundConfig;
    var scan, names := Scan(cfg, s.dir, listing), OldNames(s.dir, listing, now - cfg.policy * DAY);
    var plan := s'.plans[|s.plans|];
    forall c | 0 <= c < |plan.chunks|
      ensures Deliverable(cfg, plan, plan.chunks[c]) <==> SpoolCamera(plan.chunks[c].camera)
      ensures Deliverable(cfg, plan, plan.chunks[c]) ==> Sound(cfg, plan, plan.chunks[c])
    {
      if SpoolCamera(plan.chunks[c].camera) { PlannedRecordIsSound(cfg, s.dir, now, plan, plan.chunks[c]); }
    }
    if AllDeliverable(cfg, plan) {
      forall k | 0 <= k < |names| ensures SpoolCamera(CameraOf(scan, Token(names[k]))) {
        assert HasCamera(plan.chunks, CameraOf(scan, Token(names[k])));
      }
    }
    if UsableNames(scan, names) {
      forall c | 0 <= c < |plan.chunks| ensures SpoolCamera(plan.chunks[c].camera) {
        assert NamedBy(scan, names, plan.chunks[c].camera);
      }
    }
  }

  // ---- When records were planned ----

  /** Every record planned so far is dated before `t`. */
  ghost predicate Before(plans: seq<Journal>, t: int) {
    forall p, c :: 0 <= p < |plans| && 0 <= c < |plans[p].chunks| ==> plans[p].chunks[c].deletedAt < t
  }

  /** The records of a later pass carry a later date. */
  ghost predicate InTime(plans: seq<Journal>) {
    forall p, q, c, d :: 0 <= p < q < |plans| && 0 <= c < |plans[p].chunks| && 0 <= d < |plans[q].chunks| ==>
      plans[p].chunks[c].deletedAt < plans[q].chunks[d].deletedAt
  }

  ghost predicate NoCollisions(plans: seq<Journal>) {
    forall p :: 0 <= p < |plans| ==> !Collision(plans[p].chunks)
  }

  // ---- What one more plan keeps ----

  lemma OldPlansStay(cfg: Config, s: State, s': State, listing: seq<string>, now: int)
    requires PlannedNow(cfg, s, s', listing, now)
    ensures |s'.plans| == |s.plans| + 1 && forall p :: 0 <= p < |s.plans| ==> s'.plans[p] == s.plans[p]
  {
    hide FilesOf, OldNames, Planned, Weight, BytesOf, Collision, CamerasAre, SharesCamera;
    forall p | 0 <= p < |s.plans| ensures s'.plans[p] == s.plans[p] { assert s'.plans[..|s.plans|][p] == s.plans[p]; }
  }

  lemma NewPlanIsSound(cfg: Config, s: State, s': State, listing: seq<string>, now: int)
    requires PlannedNow(cfg, s, s', listing, now) && SoundConfig(cfg) && OrdinaryFiles(s.dir) && OrdinaryTime(now)
    requires UsableNames(Scan(cfg, s.dir, listing), OldNames(s.dir, listing, now - cfg.policy * DAY))
    requires AllSound(cfg, s.plans)
    ensures AllSound(cfg, s'.plans)
  {
    hide Sound, PlannedNow, UsableNames, SoundConfig, OldNames, AllDeliverable;
    OldPlansStay(cfg, s, s', listing, now);
    PassFinishesExactly(cfg, s, s', listing, now);
  }

  lemma NewPlanIsLater(cfg: Config, s: State, s': State, listing: seq<string>, now: int)
    requires PlannedNow(cfg, s, s', listing, now) && InTime(s.plans) && Before(s.plans, now)
    ensures InTime(s'.plans)
    ensures forall t :: now < t && Before(s.plans, t) ==> Before(s'.plans, t)
  {
    hide Collision, SharesCamera, FilesOf, OldNames, Weight, BytesOf, CamerasAre, Planned;
    OldPlansStay(cfg, s, s', listing, now);
    var plan := s'.plans[|s.plans|];
    forall c | 0 <= c < |plan.chunks| ensures plan.chunks[c].deletedAt == now { DatedNow(cfg, s.dir, now, plan.chunks[c]); }
  }

  lemma NewPlanDoesNotCollide(cfg: Config, s: State, s': State, listing: seq<string>, now: int)
    requires PlannedNow(cfg, s, s', listing, now) && NoCollisions(s.plans)
    requires !SharesCamera(Scan(cfg, s.dir, listing), OldNames(s.dir, listing, now - cfg.policy * DAY))
    ensures NoCollisions(s'.plans)
  {
    hide Collision, SharesCamera, FilesOf, OldNames, Weight, BytesOf, CamerasAre, Planned;
    OldPlansStay(cfg, s, s', listing, now);
  }

  /** Every planned record is under the configured camera, and nothing was ever delivered or removed. */
  ghost predicate NothingDone(cfg: Config, s: State) {
    && s.delivered == [] && s.unlinked == []
    && forall p, c :: 0 <= p < |s.plans| && 0 <= c < |s.plans[p].chunks| ==> s.plans[p].chunks[c].camera == cfg.configured
  }

  lemma ConfiguredPlan(cfg: Config, s: State, s': State, listing: seq<string>, now: int)
    requires PlannedNow(cfg, s, s', listing, now) && cfg.configured != ""
    ensures var plan := s'.plans[|s.plans|]; forall c :: 0 <= c < |plan.chunks| ==> plan.chunks[c].camera == cfg.configured
  {
    hide Collision, SharesCamera, FilesOf, OldNames, Weight, BytesOf, Planned, Token;
    var plan := s'.plans[|s.plans|];
    var scan, names := Scan(cfg, s.dir, listing), OldNames(s.dir, listing, now - cfg.policy * DAY);
    forall c | 0 <= c < |plan.chunks| ensures plan.chunks[c].camera == cfg.configured {
      assert NamedBy(scan, names, plan.chunks[c].camera);
    }
  }

  // ---- What every event of a life keeps ----

  /** What is true of everything planned so far, under each assumption about the life. */
  ghost predicate HistoryOk(life: Life, s: State) {
    && Within(life, s.dir)
    && (Ordinary(life) ==> AllSound(life.cfg, s.plans))
    && (OwnCameras(life) ==> NoCollisions(s.plans))
    && (ClockAdvances(life) ==> InTime(s.plans))
    && (Unusable(life.cfg) ==> NothingDone(life.cfg, s))
  }

  lemma UsableNow(life: Life, dir: Directory, listing: seq<string>, cutoff: int)
    requires Within(life, dir) && SpoolCameras(life)
    ensures UsableNames(Scan(life.cfg, dir, listing), OldNames(dir, listing, cutoff))
  {
    hide Appears, MayBe, CameraOf, SpoolCamera, Token, OldNames;
    var scan, names := Scan(life.cfg, dir, listing), OldNames(dir, listing, cutoff);
    OldNamesAre(dir, listing, cutoff);
    forall k | 0 <= k < |names| ensures SpoolCamera(CameraOf(scan, Token(names[k]))) {
      assert names[k] in names;
      ThereIsKnown(life, dir, names[k]);
      CameraMayBe(life, dir, listing, Token(names[k]));
    }
  }

  lemma ThereIsKnown(life: Life, dir: Directory, n: string)
    requires Within(life, dir) && n in dir
    ensures Known(life, n)
  {
    assert Appears(life, n, dir[n]);
    if n !in life.dir {
      var i :| 0 <= i < |life.events| && life.events[i] == NewFile(n, dir[n]);
      assert life.events[i].name in Written(life.events);
    }
  }

  lemma NotSharedNow(life: Life, dir: Directory, listing: seq<string>, cutoff: int)
    requires Within(life, dir) && OwnCameras(life)
    ensures !SharesCamera(Scan(life.cfg, dir, listing), OldNames(dir, listing, cutoff))
  {
    hide Appears, MayBe, CameraOf, Token, OldNames, Known;
    var scan, names := Scan(life.cfg, dir, listing), OldNames(dir, listing, cutoff);
    OldNamesAre(dir, listing, cutoff);
    forall i, j | 0 <= i < |names| && 0 <= j < |names| ensures !Clash(scan, Token(names[i]), Token(names[j])) {
      assert names[i] in names && names[j] in names;
      ThereIsKnown(life, dir, names[i]);
      ThereIsKnown(life, dir, names[j]);
      CameraMayBe(life, dir, listing, Token(names[i]));
      CameraMayBe(life, dir, listing, Token(names[j]));
    }
  }

  lemma SmallNow(life: Life, dir: Directory)
    requires Within(life, dir) && Ordinary(life)
    ensures OrdinaryFiles(dir)
  {
    hide Appears, SpoolCameras, SoundConfig;
    forall n | n in dir ensures |dir[n].content| < WORD { assert Appears(life, n, dir[n]); }
  }

  lemma PlanKeepsHistory(life: Life, s: State, s': State, listing: seq<string>, now: int)
    requires HistoryOk(life, s) && PlannedNow(life.cfg, s, s', listing, now)
    requires (Ordinary(life) ==> OrdinaryTime(now)) && (ClockAdvances(life) ==> Before(s.plans, now))
    ensures Ordinary(life) ==> AllSound(life.cfg, s'.plans)
    ensures OwnCameras(life) ==> NoCollisions(s'.plans)
    ensures ClockAdvances(life) ==> InTime(s'.plans) && forall t :: now < t && Before(s.plans, t) ==> Before(s'.plans, t)
  {
    hide Within, AllSound, NoCollisions, InTime, Before, PlannedNow, SoundConfig, SpoolCameras, OwnCameras, ClockAdvances, NothingDone, Appears, OldNames;
    var cutoff := now - life.cfg.policy * DAY;
    if Ordinary(life) {
      UsableNow(life, s.dir, listing, cutoff);
      SmallNow(life, s.dir);
      NewPlanIsSound(life.cfg, s, s', listing, now);
    }
    if OwnCameras(life) {
      NotSharedNow(life, s.dir, listing, cutoff);
      NewPlanDoesNotCollide(life.cfg, s, s', listing, now);
    }
    if ClockAdvances(life) { NewPlanIsLater(life.cfg, s, s', listing, now); }
  }

  lemma ShrinksWithin(life: Life, dir: Directory, dir': Directory, files: set<string>)
    requires Within(life, dir) && Shrinks(dir, dir', files)
    ensures Within(life, dir')
  {
    hide Appears;
  }

  /** A pass keeps all of it, whatever came of the pass. */
  lemma PassKeeps(life: Life, s: State, s': State, listing: seq<string>, now: int)
    requires HistoryOk(life, s) && Shrinks(s.dir, s'.dir, s.dir.Keys)
    requires s'.plans == s.plans || (PlannedNow(life.cfg, s, s', listing, now) && (ClockAdvances(life) ==> Before(s.plans, now)))
    requires Ordinary(life) ==> OrdinaryTime(now)
    requires Unusable(life.cfg) ==> NothingDone(life.cfg, s')
    ensures HistoryOk(life, s')
    ensures ClockAdvances(life) ==> forall t :: now < t && Before(s.plans, t) ==> Before(s'.plans, t)
  {
    hide Within, AllSound, NoCollisions, InTime, Before, PlannedNow, Ordinary, OwnCameras, ClockAdvances, NothingDone, Unusable, Shrinks;
    ShrinksWithin(life, s.dir, s'.dir, s.dir.Keys);
    if s'.plans != s.plans { PlanKeepsHistory(life, s, s', listing, now); }
  }

  lemma ArrivalKeeps(life: Life, s: State, i: nat)
    requires HistoryOk(life, s) && i < |life.events| && life.events[i].NewFile?
    ensures HistoryOk(life, Arrive(s, life.events[i].name, life.events[i].file))
  {
    hide AllSound, NoCollisions, InTime, Ordinary, OwnCameras, ClockAdvances, Unusable;
    var name, file := life.events[i].name, life.events[i].file;
    assert life.events[i] == NewFile(name, file);
    assert Appears(life, name, file);
  }

  lemma HistoryStarts(life: Life)
    ensures HistoryOk(life, State(life.dir, None, [], 0, [], []))
  {
  }

  /** Under an unusable camera id the first record of every plan is refused. */
  lemma NothingEverHappens(cfg: Config, s: State, s': State, listing: seq<string>, now: int)
    requires Unusable(cfg) && Honest(cfg, s) && NothingDone(cfg, s)
    requires s.journal.Some? && Blocked(cfg, s) ==> s' == s
    requires s.journal.None? ==> s' == s || PlannedNow(cfg, s, s', listing, now)
    requires s.journal.None? && s' != s && s'.plans != [] && Hopeless(cfg, s'.plans[|s'.plans| - 1]) ==>
      s'.delivered == s.delivered && s'.unlinked == s.unlinked
    requires JournalOk(s')
    ensures NothingDone(cfg, s')
  {
    hide Fits, Passes, SpoolCamera, PlannedNow, DeliveredOk, UnlinkedOk, PendingOk;
    if s.journal.Some? {
      var plan := s.plans[|s.plans| - 1];
      assert s.done == 0 && plan.chunks[0..] == plan.chunks;
      assert plan.chunks[0].camera == cfg.configured;
      assert Blocked(cfg, s);
    } else if s' != s {
      OldPlansStay(cfg, s, s', listing, now);
      ConfiguredPlan(cfg, s, s', listing, now);
    }
  }

  /** What is planned so far is older than every pass to come. */
  ghost predicate AllToCome(life: Life, k: nat, plans: seq<Journal>)
    requires k <= |life.events|
  {
    && (forall i :: k <= i < |life.events| && life.events[i].Pass? ==> Before(plans, life.events[i].now))
    && (life.settle.Some? ==> Before(plans, life.settle.value))
  }

  lemma NoneToCome(life: Life)
    ensures AllToCome(life, 0, [])
  {
  }

  lemma OnePassLess(life: Life, k: nat, plans: seq<Journal>, plans': seq<Journal>)
    requires ClockAdvances(life) && k < |life.events| && AllToCome(life, k, plans)
    requires life.events[k].Pass? ==> forall t :: life.events[k].now < t && Before(plans, t) ==> Before(plans', t)
    requires life.events[k].NewFile? ==> plans' == plans
    ensures AllToCome(life, k + 1, plans')
  {
    hide Before;
  }

  lemma ArrivalAccounts(dir: Directory, s: State, name: string, file: File)
    requires Accounted(dir, s) && name !in dir
    ensures Accounted(dir, Arrive(s, name, file))
  {
    hide Gone;
  }

  lemma SomeAreThere(s: State, others: set<string>)
    ensures Accounted(s.dir - others, s)
  {
  }

  lemma TimesAreOrdinary(life: Life, i: nat)
    requires i < |life.events| && life.events[i].Pass? && Ordinary(life)
    ensures OrdinaryTime(life.events[i].now)
  {
  }

  // ---- Runs ----

  /** One pass of a life. */
  method OnePass(host: Host, life: Life, now: int, ghost untouched: Directory) returns (last: Outcome)
    requires Honest(host.cfg, host.s) && host.Connected() && host.cfg == life.cfg && HistoryOk(life, host.s)
    requires (Ordinary(life) ==> OrdinaryTime(now)) && (ClockAdvances(life) ==> Before(host.s.plans, now))
    requires Accounted(untouched, host.s)
    modifies host`s, host.relay`bodies, host.relay`chain, host.relay`sidecars
    ensures Honest(host.cfg, host.s) && host.Connected() && HistoryOk(life, host.s) && Accounted(untouched, host.s)
    ensures ClockAdvances(life) ==> forall t :: now < t && Before(old(host.s).plans, t) ==> Before(host.s.plans, t)
    ensures old(host.s).journal.Some? ==> host.s.plans == old(host.s).plans
    ensures (host.calm && last != Finished) || last == TooLarge || last == BadCamera ==> Blocked(host.cfg, host.s)
    ensures Blocked(host.cfg, old(host.s)) ==> last != Finished && host.s == old(host.s)
    ensures last == Finished && old(host.s).journal.None? ==>
      forall n :: n in host.s.dir ==> host.s.dir[n].mtime >= now - host.cfg.policy * DAY
    ensures last == Finished ==> host.s.journal.None?
  {
    hide Honest, OldNames, FilesOf, PlannedNow, HistoryOk, Before, Drained, Accounted, Ordinary, ClockAdvances, Unusable, NothingDone, Hopeless, Blocked, NodeOk, AllDeliverable;
    ghost var before := host.s;
    var listing := Listing(host.s.dir);
    OldNamesAre(host.s.dir, listing, now - host.cfg.policy * DAY);
    last := host.RunRetention(listing, now);
    HonestMeansJournalOk(host.cfg, host.s);
    if Unusable(life.cfg) {
      UnusableSoFar(life, before);
      NothingEverHappens(life.cfg, before, host.s, listing, now);
    }
    PassKeeps(life, before, host.s, listing, now);
    AccountedOnward(untouched, before, host.s);
  }

  lemma UnusableSoFar(life: Life, s: State)
    requires HistoryOk(life, s) && Unusable(life.cfg)
    ensures NothingDone(life.cfg, s)
  {
  }

  /** Passes killed anywhere, and files arriving between them under names no pending chunk uses. */
  method Disturbed(host: Host, life: Life) returns (last: Outcome)
    requires Honest(host.cfg, host.s) && host.Connected() && host.cfg == life.cfg
    requires host.s == State(life.dir, None, [], 0, [], [])
    modifies host`s, host.relay`bodies, host.relay`chain, host.relay`sidecars
    ensures Honest(host.cfg, host.s) && host.Connected() && HistoryOk(life, host.s)
    ensures ClockAdvances(life) && life.settle.Some? ==> Before(host.s.plans, life.settle.value)
    ensures last == TooLarge || last == BadCamera ==> !AllSound(life.cfg, host.s.plans)
    ensures Accounted(life.dir - Written(life.events), host.s)
  {
    hide Honest, FilesOf, HistoryOk, Before, Accounted, Ordinary, ClockAdvances, NodeOk, Blocked, AllSound;
    ghost var untouched := life.dir - Written(life.events);
    SomeAreThere(host.s, Written(life.events));
    HistoryStarts(life);
    NoneToCome(life);
    last := Died;
    for i := 0 to |life.events|
      invariant Honest(host.cfg, host.s) && host.Connected() && HistoryOk(life, host.s) && Accounted(untouched, host.s)
      invariant last == TooLarge || last == BadCamera ==> Blocked(host.cfg, host.s)
      invariant ClockAdvances(life) ==> AllToCome(life, i, host.s.plans)
    {
      ghost var before := host.s;
      host.relay.DisturbSidecars();
      match life.events[i] {
        case Pass(now) =>
          if Ordinary(life) { TimesAreOrdinary(life, i); }
          last := OnePass(host, life, now, untouched);
        case NewFile(name, file) =>
          if host.s.journal.None? || name !in FilesOf(host.s.journal.value.chunks) {
            ArriveKeeps(host.cfg, host.s, name, file);
            ArrivalKeeps(life, host.s, i);
            ArrivalAccounts(untouched, host.s, name, file);
            StillBlocked(host.cfg, host.s, name, file);
            host.s := Arrive(host.s, name, file);
          }
      }
      if ClockAdvances(life) { OnePassLess(life, i, before.plans, host.s.plans); }
    }
    if last == TooLarge || last == BadCamera { BlockedIsUnsound(host.cfg, host.s); }
  }

  lemma StillBlocked(cfg: Config, s: State, name: string, file: File)
    ensures Blocked(cfg, s) ==> Blocked(cfg, Arrive(s, name, file))
  {
    hide Deliverable;
  }

  /** Undisturbed: what is journaled is finished, and then everything old is removed. */
  method CalmEnd(host: Host, life: Life, now: int, ghost untouched: Directory) returns (last: Outcome)
    requires host.calm && Honest(host.cfg, host.s) && host.Connected() && host.cfg == life.cfg && HistoryOk(life, host.s)
    requires (Ordinary(life) ==> OrdinaryTime(now)) && (ClockAdvances(life) ==> Before(host.s.plans, now))
    requires Accounted(untouched, host.s)
    modifies host`s, host.relay`bodies, host.relay`chain, host.relay`sidecars
    ensures Honest(host.cfg, host.s) && host.Connected() && HistoryOk(life, host.s) && Accounted(untouched, host.s)
    ensures last == Finished ==>
      host.s.journal.None? && forall n :: n in host.s.dir ==> host.s.dir[n].mtime >= now - host.cfg.policy * DAY
    ensures last != Finished ==> Blocked(host.cfg, host.s)
  {
    hide Honest, HistoryOk, Before, Accounted, Ordinary, ClockAdvances, NodeOk, Blocked;
    if host.s.journal.Some? {
      last := OnePass(host, life, now, untouched);
      if last != Finished { return; }
    }
    last := OnePass(host, life, now, untouched);
  }

  /** Any sequence of passes, each dying where it may, with files arriving between them under names
      no pending chunk uses; then one calm pass or two. */
  method RetentionLife(life: Life) returns (end: State, last: Outcome, chain: seq<Spool.Wire>)
    ensures Honest(life.cfg, end)
    // On the node's own host: what was delivered is on the chain, none twice, nothing else.
    ensures NodeOk(life.cfg, end.plans, end.delivered, chain)
    // A calm end removes everything old, or stands before a record that no delivery will take.
    ensures life.settle.Some? && last == Finished ==>
      end.journal.None? && forall n :: n in end.dir ==> end.dir[n].mtime >= life.settle.value - life.cfg.policy * DAY
    ensures life.settle.Some? && last != Finished ==> Blocked(life.cfg, end)
    // Nothing out of the ordinary: nothing is refused, and every record would be accepted.
    ensures Ordinary(life) ==> AllSound(life.cfg, end.plans) && last != TooLarge && last != BadCamera
    ensures Ordinary(life) && life.settle.Some? ==> last == Finished
    // A clock that advances and cameras of their own give every record its own identity.
    ensures OwnCameras(life) ==> NoCollisions(end.plans)
    ensures ClockAdvances(life) ==> InTime(end.plans)
    // No file vanishes: it is as it was, or its unlink is on record (and so, being honest, was declared).
    ensures Accounted(life.dir - Written(life.events), end)
    // Under a camera id no spool job can be named after, nothing is ever declared or removed.
    ensures Unusable(life.cfg) ==> end.delivered == [] && end.unlinked == []
  {
    hide Honest, HistoryOk, Before, Accounted, Ordinary, ClockAdvances, OwnCameras, NodeOk, Blocked, AllSound, NoCollisions, InTime, Unusable, Written;
    var relay := new Spool.Relay();
    NothingOnNode(life.cfg);
    var host := new Host(life.cfg, life.dir, relay, false);
    last := Disturbed(host, life);
    if life.settle.Some? {
      if Ordinary(life) { SettleIsOrdinary(life); }
      relay.calm, host.calm := true, true;
      last := CalmEnd(host, life, life.settle.value, life.dir - Written(life.events));
      if last != Finished { BlockedIsUnsound(life.cfg, host.s); }
    }
    HistoryMeans(life, host.s);
    end, chain := host.s, relay.chain;
  }

  lemma NothingOnNode(cfg: Config)
    ensures NodeOk(cfg, [], [], [])
  {
  }

  lemma SettleIsOrdinary(life: Life)
    requires Ordinary(life) && life.settle.Some?
    ensures OrdinaryTime(life.settle.value)
  {
  }

  lemma HistoryMeans(life: Life, s: State)
    requires HistoryOk(life, s)
    ensures Ordinary(life) ==> AllSound(life.cfg, s.plans)
    ensures OwnCameras(life) ==> NoCollisions(s.plans)
    ensures ClockAdvances(life) ==> InTime(s.plans)
    ensures Unusable(life.cfg) ==> s.delivered == [] && s.unlinked == []
  {
    hide Ordinary, AllSound, OwnCameras, NoCollisions, ClockAdvances, InTime, Unusable;
  }

  /** A record no delivery will take blocks every later pass: nothing is sent or removed again, whatever
      arrives. */
  method StaysBlocked(host: Host, events: seq<Event>) returns (finished: bool)
    requires Honest(host.cfg, host.s) && host.Connected() && Blocked(host.cfg, host.s)
    modifies host`s, host.relay`bodies, host.relay`chain, host.relay`sidecars
    ensures Blocked(host.cfg, host.s) && host.s.journal == old(host.s).journal && !finished
    ensures host.s.delivered == old(host.s).delivered && host.s.unlinked == old(host.s).unlinked
    ensures forall n :: n in old(host.s).dir ==> n in host.s.dir
  {
    hide Honest, FilesOf, NodeOk, Blocked;
    finished := false;
    for i := 0 to |events|
      invariant Honest(host.cfg, host.s) && host.Connected() && Blocked(host.cfg, host.s) && !finished
      invariant host.s.journal == old(host.s).journal
      invariant host.s.delivered == old(host.s).delivered && host.s.unlinked == old(host.s).unlinked
      invariant forall n :: n in old(host.s).dir ==> n in host.s.dir
    {
      match events[i] {
        case Pass(now) =>
          var listing := Listing(host.s.dir);
          var r := host.RunRetention(listing, now);
          finished := finished || r == Finished;
        case NewFile(name, file) =>
          if host.s.journal.None? || name !in FilesOf(host.s.journal.value.chunks) {
            ArriveKeeps(host.cfg, host.s, name, file);
            StillBlocked(host.cfg, host.s, name, file);
            host.s := Arrive(host.s, name, file);
          }
      }
    }
  }

  /** The directory listing: every name once, in some order. */
  method Listing(dir: Directory) returns (names: seq<string>)
    ensures NoRepeats(names) && forall n :: n in names <==> n in dir
  {
    names := [];
    var rest := dir.Keys;
    while rest != {}
      invariant rest <= dir.Keys && NoRepeats(names)
      invariant forall n :: n in names <==> n in dir && n !in rest
      decreases |rest|
    {
      var n :| n in rest;
      names, rest := names + [n], rest - {n};
    }
  }
}
