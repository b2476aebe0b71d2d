/** Planning a retention pass: which files are old, how they are grouped, digested and split. */
module RetentionPlan {
  import opened Prelude
  import opened RetentionRecord

  type Content = seq<int>

  datatype File = File(content: Content, mtime: int)

  type Directory = map<string, File>

  /** `configured` is the camera id given to the command, if any; `claims` is the camera id a file's JSON
      names, if it names one; `sign` prints the signature of a record still without one. */
  datatype Config = Config(
    tier: string, policy: int, keyId: string, configured: string, claims: Content -> Option<string>,
    sha: Content -> string, sign: Record -> string)

  datatype Chunk = Chunk(camera: string, deletedAt: int, number: nat, files: seq<string>, removed: seq<Item>)

  const DAY := 86_400_000_000_000

  // ---- Names ----

  /** The part of a name before its first dot. */
  function Token(name: string): string {
    if name == [] || name[0] == '.' then [] else [name[0]] + Token(name[1..])
  }

  // ---- Cameras ----

  /** A body file of the job. */
  predicate BodyOf(name: string, token: string) {
    Token(name) == token && |name| > |token| && EndsWith(name, ".body")
  }

  /** What the file names as its camera, if it is a body of the job and names one. */
  function ClaimOf(cfg: Config, dir: Directory, name: string, token: string): Option<string> {
    if BodyOf(name, token) && name in dir && cfg.claims(dir[name].content) != Some("") then cfg.claims(dir[name].content)
    else None
  }

  /** The first claim in listing order. */
  function Claimed(cfg: Config, dir: Directory, listing: seq<string>, token: string): Option<string> {
    if listing == [] then None
    else
      var front := Claimed(cfg, dir, listing[..|listing| - 1], token);
      if front.Some? then front else ClaimOf(cfg, dir, listing[|listing| - 1], token)
  }

  /** The directory as the planner finds it, which is what cameras are looked up in. */
  datatype Scan = Scan(cfg: Config, dir: Directory, listing: seq<string>)

  /** The configured id, else what a body of the job claims, else the token itself. */
  function CameraOf(scan: Scan, token: string): string {
    if scan.cfg.configured != "" then scan.cfg.configured
    else
      var claim := Claimed(scan.cfg, scan.dir, scan.listing, token);
      if claim.Some? then claim.value else token
  }

  lemma {:induction false} ClaimIsSomeones(cfg: Config, dir: Directory, listing: seq<string>, token: string)
    ensures var claim := Claimed(cfg, dir, listing, token);
      claim.Some? ==> claim.value != "" && exists n :: n in listing && ClaimOf(cfg, dir, n, token) == claim
  {
    hide BodyOf;
    if listing != [] {
      ClaimIsSomeones(cfg, dir, listing[..|listing| - 1], token);
      assert listing[|listing| - 1] in listing;
    }
  }

  // ---- Old files ----

  function OldNames(dir: Directory, listing: seq<string>, cutoff: int): seq<string> {
    if listing == [] then []
    else
      var front := OldNames(dir, listing[..|listing| - 1], cutoff);
      var n := listing[|listing| - 1];
      if n in dir && dir[n].mtime < cutoff then front + [n] else front
  }

  lemma {:induction false} OldNamesAre(dir: Directory, listing: seq<string>, cutoff: int)
    ensures forall n :: n in OldNames(dir, listing, cutoff) <==> n in listing && n in dir && dir[n].mtime < cutoff
  {
    if listing != [] {
      OldNamesAre(dir, listing[..|listing| - 1], cutoff);
      assert listing == listing[..|listing| - 1] + [listing[|listing| - 1]];
    }
  }

  function OfToken(names: seq<string>, token: string): seq<string> {
    if names == [] then []
    else
      var front := OfToken(names[..|names| - 1], token);
      if Token(names[|names| - 1]) == token then front + [names[|names| - 1]] else front
  }

  /** The names of each token in turn. */
  function Grouped(names: seq<string>, tokens: seq<string>): seq<string> {
    if tokens == [] then [] else Grouped(names, tokens[..|tokens| - 1]) + OfToken(names, tokens[|tokens| - 1])
  }

  lemma {:induction false} OfTokenHas(names: seq<string>, token: string)
    ensures forall n :: n in OfToken(names, token) <==> n in names && Token(n) == token
  {
    if names != [] {
      OfTokenHas(names[..|names| - 1], token);
      assert names == names[..|names| - 1] + [names[|names| - 1]];
    }
  }

  lemma {:induction false} GroupedHas(names: seq<string>, tokens: seq<string>)
    ensures forall n :: n in Grouped(names, tokens) <==> n in names && Token(n) in tokens
  {
    if tokens != [] {
      var front, last := tokens[..|tokens| - 1], tokens[|tokens| - 1];
      GroupedHas(names, front);
      OfTokenHas(names, last);
      assert tokens == front + [last];
    }
  }

  ghost predicate NoRepeats(s: seq<string>) { forall i, j :: 0 <= i < j < |s| ==> s[i] != s[j] }

  /** The tokens present, each once. */
  method Tokens(names: seq<string>) returns (tokens: seq<string>)
    ensures NoRepeats(tokens)
    ensures forall t :: t in tokens <==> exists i :: 0 <= i < |names| && Token(names[i]) == t
  {
    tokens := [];
    var i := 0;
    while i < |names|
      invariant 0 <= i <= |names| && NoRepeats(tokens)
      invariant forall t :: t in tokens <==> exists j :: 0 <= j < i && Token(names[j]) == t
    {
      var t := Token(names[i]);
      if t !in tokens { tokens := tokens + [t]; }
      i := i + 1;
    }
  }

  // ---- Conservation ----

  function Weight(dir: Directory, names: seq<string>): nat {
    if names == [] then 0
    else Weight(dir, names[..|names| - 1]) + Size(dir, names[|names| - 1])
  }

  function Size(dir: Directory, name: string): nat { if name in dir then |dir[name].content| else 0 }

  lemma {:induction false} WeightOfSum(dir: Directory, a: seq<string>, b: seq<string>)
    ensures Weight(dir, a + b) == Weight(dir, a) + Weight(dir, b)
  {
    if b == [] {
      assert a + b == a;
    } else {
      WeightOfSum(dir, a, b[..|b| - 1]);
      assert (a + b)[..|a + b| - 1] == a + b[..|b| - 1];
    }
  }

  /** A name appears once more, under its own token. */
  lemma {:induction false} GroupedHasOneMore(names: seq<string>, n: string, tokens: seq<string>)
    requires NoRepeats(tokens)
    ensures multiset(Grouped(names + [n], tokens)) ==
      multiset(Grouped(names, tokens)) + if Token(n) in tokens then multiset{n} else multiset{}
  {
    hide Token;
    if tokens != [] {
      var front, last := tokens[..|tokens| - 1], tokens[|tokens| - 1];
      GroupedHasOneMore(names, n, front);
      assert tokens == front + [last];
      assert (names + [n])[..|names|] == names;
      var had := OfToken(names, last);
      assert OfToken(names + [n], last) == if Token(n) == last then had + [n] else had;
      assert last !in front;
    }
  }

  /** Grouping by token is a rearrangement: no name is lost and none is repeated. */
  lemma {:induction false} GroupingConserves(names: seq<string>, tokens: seq<string>)
    requires NoRepeats(tokens) && forall i :: 0 <= i < |names| ==> Token(names[i]) in tokens
    ensures multiset(Grouped(names, tokens)) == multiset(names)
  {
    hide Token;
    if names == [] {
      NothingGrouped(tokens);
    } else {
      var front, n := names[..|names| - 1], names[|names| - 1];
      GroupingConserves(front, tokens);
      GroupedHasOneMore(front, n, tokens);
      assert front + [n] == names;
    }
  }

  lemma DropOne(s: seq<string>, k: nat)
    requires k < |s|
    ensures multiset(s[..k] + s[k + 1..]) == multiset(s) - multiset{s[k]}
  {
    assert s == s[..k] + ([s[k]] + s[k + 1..]);
  }

  lemma WithoutOne(dir: Directory, s: seq<string>, k: nat)
    requires k < |s|
    ensures Weight(dir, s) == Weight(dir, s[..k] + s[k + 1..]) + Size(dir, s[k])
  {
    WeightOfSum(dir, s[..k + 1], s[k + 1..]);
    WeightOfSum(dir, s[..k], s[k + 1..]);
    assert s[..k + 1] + s[k + 1..] == s && s[..k + 1][..k] == s[..k];
  }

  /** Rearranged names weigh the same. */
  lemma {:induction false} WeightOfMultiset(dir: Directory, a: seq<string>, b: seq<string>)
    requires multiset(a) == multiset(b)
    ensures Weight(dir, a) == Weight(dir, b)
  {
    assert |multiset(a)| == |a| && |multiset(b)| == |b|;
    if a != [] {
      hide Weight, Size;
      var last := |a| - 1;
      assert a[last] in multiset(b);
      var k :| 0 <= k < |b| && b[k] == a[last];
      DropOne(a, last);
      DropOne(b, k);
      WithoutOne(dir, a, last);
      WithoutOne(dir, b, k);
      WeightOfMultiset(dir, a[..last] + a[last + 1..], b[..k] + b[k + 1..]);
    }
  }

  lemma {:induction false} NothingGrouped(tokens: seq<string>)
    ensures Grouped([], tokens) == []
  {
    if tokens != [] { NothingGrouped(tokens[..|tokens| - 1]); }
  }

  // ---- Chunks of a pass ----

  function Describe(cfg: Config, name: string, content: Content): Item {
    Item(cfg.sha(content), RetentionKind(name), |content|)
  }

  ghost predicate Describes(cfg: Config, dir: Directory, c: Chunk) {
    && |c.files| == |c.removed| && c.files != []
    && forall k :: 0 <= k < |c.files| ==>
         c.files[k] in dir && c.removed[k] == Describe(cfg, c.files[k], dir[c.files[k]].content)
  }

  function FilesOf(chunks: seq<Chunk>): seq<string> {
    if chunks == [] then [] else FilesOf(chunks[..|chunks| - 1]) + chunks[|chunks| - 1].files
  }

  function BytesOf(chunks: seq<Chunk>): nat {
    if chunks == [] then 0 else BytesOf(chunks[..|chunks| - 1]) + Bytes(chunks[|chunks| - 1].removed)
  }

  lemma {:induction false} ChunkWeight(cfg: Config, dir: Directory, c: Chunk, k: nat)
    requires Describes(cfg, dir, c) && k <= |c.files|
    ensures Bytes(c.removed[..k]) == Weight(dir, c.files[..k])
  {
    if k > 0 {
      ChunkWeight(cfg, dir, c, k - 1);
      assert c.removed[..k][..k - 1] == c.removed[..k - 1] && c.files[..k][..k - 1] == c.files[..k - 1];
    }
  }

  lemma {:induction false} ChunksWeigh(cfg: Config, dir: Directory, chunks: seq<Chunk>)
    requires forall i :: 0 <= i < |chunks| ==> Describes(cfg, dir, chunks[i])
    ensures BytesOf(chunks) == Weight(dir, FilesOf(chunks))
  {
    if chunks != [] {
      var front, c := chunks[..|chunks| - 1], chunks[|chunks| - 1];
      ChunksWeigh(cfg, dir, front);
      ChunkWeight(cfg, dir, c, |c.files|);
      assert c.removed[..|c.files|] == c.removed && c.files[..|c.files|] == c.files;
      WeightOfSum(dir, FilesOf(front), c.files);
    }
  }

  function Paths(entries: seq<Entry>): (r: seq<string>)
    ensures |r| == |entries| && forall i :: 0 <= i < |r| ==> r[i] == entries[i].path
  {
    if entries == [] then [] else Paths(entries[..|entries| - 1]) + [entries[|entries| - 1].path]
  }

  function ChunkFrom(camera: string, now: int, number: nat, entries: seq<Entry>): Chunk {
    Chunk(camera, now, number, Paths(entries), Items(entries))
  }

  ghost predicate EntriesDescribe(cfg: Config, dir: Directory, entries: seq<Entry>) {
    forall k :: 0 <= k < |entries| ==>
      entries[k].path in dir && entries[k].item == Describe(cfg, entries[k].path, dir[entries[k].path].content)
  }

  method DescribeAll(cfg: Config, dir: Directory, names: seq<string>) returns (entries: seq<Entry>)
    requires forall i :: 0 <= i < |names| ==> names[i] in dir
    ensures EntriesDescribe(cfg, dir, entries) && Paths(entries) == names
  {
    entries := [];
    var i := 0;
    while i < |names|
      invariant 0 <= i == |entries| <= |names|
      invariant EntriesDescribe(cfg, dir, entries)
      invariant forall k :: 0 <= k < i ==> entries[k].path == names[k]
    {
      entries := entries + [Entry(names[i], Describe(cfg, names[i], dir[names[i]].content))];
      i := i + 1;
    }
  }

  lemma {:induction false} FlatIndex(chunks: seq<seq<Entry>>, i: nat)
    requires i < |chunks|
    ensures forall k :: 0 <= k < |chunks[i]| ==> chunks[i][k] in Flat(chunks)
  {
    if i < |chunks| - 1 {
      FlatIndex(chunks[..|chunks| - 1], i);
    }
  }

  lemma {:induction false} PathsOfSum(a: seq<Entry>, b: seq<Entry>)
    ensures Paths(a + b) == Paths(a) + Paths(b)
  {
  }

  lemma {:induction false} FilesOfSum(a: seq<Chunk>, b: seq<Chunk>)
    ensures FilesOf(a + b) == FilesOf(a) + FilesOf(b)
  {
    if b == [] {
      assert a + b == a;
    } else {
      var front, last := b[..|b| - 1], b[|b| - 1];
      FilesOfSum(a, front);
      assert (a + b)[..|a + b| - 1] == a + front;
      assert (a + b)[|a + b| - 1] == last;
      assert FilesOf(a + b) == FilesOf(a + front) + last.files;
      assert FilesOf(a) + FilesOf(front) + last.files == FilesOf(a) + (FilesOf(front) + last.files);
    }
  }

  /** What a planned chunk is: it describes the files as they are, dated now, within the splitter's limit. */
  ghost predicate Planned(cfg: Config, dir: Directory, now: int, c: Chunk) {
    && Describes(cfg, dir, c) && c.deletedAt == now
    && (|c.removed| == 1 || Payload(c.removed) <= ARTIFACT_LIMIT - MARGIN)
  }

  lemma PlannedFrom(cfg: Config, dir: Directory, camera: string, now: int, number: nat, entries: seq<Entry>)
    requires EntriesDescribe(cfg, dir, entries) && ChunkFits(entries)
    ensures Planned(cfg, dir, now, ChunkFrom(camera, now, number, entries))
  {
    hide Payload;
  }

  /** The chunks of one token's files, numbered from zero. */
  method PlanToken(scan: Scan, token: string, names: seq<string>, now: int) returns (plan: seq<Chunk>)
    requires names != [] && forall i :: 0 <= i < |names| ==> names[i] in scan.dir
    ensures plan != [] && FilesOf(plan) == names
    ensures forall i :: 0 <= i < |plan| ==> Planned(scan.cfg, scan.dir, now, plan[i])
    ensures forall i :: 0 <= i < |plan| ==> plan[i].camera == CameraOf(scan, token) && plan[i].number == i
  {
    hide CameraOf, Planned, ChunkFits, Greedy, EntriesDescribe, Flat, Paths, FilesOf;
    var entries := DescribeAll(scan.cfg, scan.dir, names);
    var chunks := RetentionChunks(entries);
    plan := [];
    var i := 0;
    assert chunks[..0] == [];
    NoFiles();
    while i < |chunks|
      invariant 0 <= i == |plan| <= |chunks|
      invariant FilesOf(plan) == Paths(Flat(chunks[..i]))
      invariant forall k :: 0 <= k < i ==> Planned(scan.cfg, scan.dir, now, plan[k])
      invariant forall k :: 0 <= k < i ==> plan[k].camera == CameraOf(scan, token) && plan[k].number == k
    {
      FlatIndex(chunks, i);
      DescribedPart(scan.cfg, scan.dir, entries, chunks[i]);
      PlannedFrom(scan.cfg, scan.dir, CameraOf(scan, token), now, i, chunks[i]);
      var c := ChunkFrom(CameraOf(scan, token), now, i, chunks[i]);
      FlatGrows(chunks[..i], chunks[i]);
      assert chunks[..i + 1] == chunks[..i] + [chunks[i]];
      PathsOfSum(Flat(chunks[..i]), chunks[i]);
      OneMoreFile(plan, c);
      plan := plan + [c];
      i := i + 1;
    }
    assert chunks[..|chunks|] == chunks;
    if plan == [] { NoFiles(); }
  }

  lemma NoFiles()
    ensures FilesOf([]) == [] && Paths(Flat([])) == []
  {
  }

  lemma OneMoreFile(plan: seq<Chunk>, c: Chunk)
    ensures FilesOf(plan + [c]) == FilesOf(plan) + c.files
  {
    assert (plan + [c])[..|plan|] == plan;
  }

  lemma DescribedPart(cfg: Config, dir: Directory, entries: seq<Entry>, part: seq<Entry>)
    requires EntriesDescribe(cfg, dir, entries) && forall k :: 0 <= k < |part| ==> part[k] in entries
    ensures EntriesDescribe(cfg, dir, part)
  {
  }

  /** Whose chunk each one is: numbers restart at zero for every token. */
  ghost predicate Numbered(scan: Scan, plan: seq<Chunk>, tokens: seq<string>, owner: seq<nat>) {
    && |owner| == |plan|
    && (forall i :: 0 <= i < |plan| ==> owner[i] < |tokens| && plan[i].camera == CameraOf(scan, tokens[owner[i]]))
    && (forall i, j :: 0 <= i < j < |plan| && owner[i] == owner[j] ==> plan[i].number != plan[j].number)
    && (forall t :: 0 <= t < |tokens| ==> FirstOf(plan, owner, t))
  }

  ghost predicate FirstOf(plan: seq<Chunk>, owner: seq<nat>, t: nat)
    requires |owner| == |plan|
  {
    exists i :: 0 <= i < |plan| && owner[i] == t && plan[i].number == 0
  }

  ghost predicate NamedBy(scan: Scan, names: seq<string>, camera: string) {
    exists k :: 0 <= k < |names| && CameraOf(scan, Token(names[k])) == camera
  }

  ghost predicate HasCamera(plan: seq<Chunk>, camera: string) {
    exists i :: 0 <= i < |plan| && plan[i].camera == camera
  }

  /** The plan's cameras are those of its files' jobs, and each of them is there. */
  ghost predicate CamerasAre(scan: Scan, names: seq<string>, plan: seq<Chunk>) {
    && (forall i :: 0 <= i < |plan| ==> NamedBy(scan, names, plan[i].camera))
    && (forall k :: 0 <= k < |names| ==> HasCamera(plan, CameraOf(scan, Token(names[k]))))
  }

  lemma CamerasOfTokens(scan: Scan, names: seq<string>, plan: seq<Chunk>, tokens: seq<string>, owner: seq<nat>)
    requires Numbered(scan, plan, tokens, owner)
    requires forall u :: u in tokens <==> exists i :: 0 <= i < |names| && Token(names[i]) == u
    ensures CamerasAre(scan, names, plan)
  {
    hide CameraOf, Token;
    forall i | 0 <= i < |plan| ensures NamedBy(scan, names, plan[i].camera) {
      assert tokens[owner[i]] in tokens;
      var k :| 0 <= k < |names| && Token(names[k]) == tokens[owner[i]];
      assert CameraOf(scan, Token(names[k])) == plan[i].camera;
    }
    forall k | 0 <= k < |names| ensures HasCamera(plan, CameraOf(scan, Token(names[k]))) {
      assert Token(names[k]) in tokens;
      var t :| 0 <= t < |tokens| && tokens[t] == Token(names[k]);
      assert FirstOf(plan, owner, t);
    }
  }

  /** One fresh pass: every old file, in exactly one chunk and once. */
  method PlanPass(scan: Scan, names: seq<string>, now: int)
    returns (plan: seq<Chunk>, tokens: seq<string>, ghost owner: seq<nat>)
    requires forall i :: 0 <= i < |names| ==> names[i] in scan.dir
    ensures NoRepeats(tokens) && forall i :: 0 <= i < |names| ==> Token(names[i]) in tokens
    ensures FilesOf(plan) == Grouped(names, tokens) && multiset(FilesOf(plan)) == multiset(names)
    ensures forall i :: 0 <= i < |plan| ==> Planned(scan.cfg, scan.dir, now, plan[i])
    ensures Numbered(scan, plan, tokens, owner)
    ensures CamerasAre(scan, names, plan)
    ensures Collision(plan) <==> SharesCamera(scan, names)
  {
    hide CamerasAre, CameraOf, Planned, Token, Numbered, OfToken, Grouped, FilesOf, NoRepeats, Collision, SharesCamera;
    tokens := Tokens(names);
    plan, owner := [], [];
    var t := 0;
    assert tokens[..0] == [];
    NothingNumbered(scan);
    NoFiles();
    NoGroups(names);
    while t < |tokens|
      invariant 0 <= t <= |tokens|
      invariant FilesOf(plan) == Grouped(names, tokens[..t])
      invariant forall i :: 0 <= i < |plan| ==> Planned(scan.cfg, scan.dir, now, plan[i])
      invariant Numbered(scan, plan, tokens[..t], owner)
    {
      var mine := OfToken(names, tokens[t]);
      TokenHasFiles(scan.dir, names, tokens, t);
      var more := PlanToken(scan, tokens[t], mine, now);
      FilesOfSum(plan, more);
      GroupedNext(names, tokens, t);
      NumberedGrows(scan, plan, tokens[..t], owner, more, tokens[t]);
      assert tokens[..t + 1] == tokens[..t] + [tokens[t]];
      plan := plan + more;
      owner := owner + seq(|more|, k => t);
      t := t + 1;
    }
    assert tokens[..|tokens|] == tokens;
    GroupingConserves(names, tokens);
    forall i | 0 <= i < |plan| ensures plan[i].deletedAt == now { DatedNow(scan.cfg, scan.dir, now, plan[i]); }
    IdentitiesCollideExactly(scan, plan, tokens, owner, now);
    SharedByTokens(scan, names, tokens);
    CamerasOfTokens(scan, names, plan, tokens, owner);
  }

  lemma NoGroups(names: seq<string>)
    ensures Grouped(names, []) == []
  {
  }

  lemma GroupedNext(names: seq<string>, tokens: seq<string>, t: nat)
    requires t < |tokens|
    ensures Grouped(names, tokens[..t + 1]) == Grouped(names, tokens[..t]) + OfToken(names, tokens[t])
  {
    hide OfToken;
    assert tokens[..t + 1][..t] == tokens[..t];
  }

  lemma TokenHasFiles(dir: Directory, names: seq<string>, tokens: seq<string>, t: nat)
    requires forall i :: 0 <= i < |names| ==> names[i] in dir
    requires t < |tokens| && forall u :: u in tokens <==> exists i :: 0 <= i < |names| && Token(names[i]) == u
    ensures OfToken(names, tokens[t]) != []
    ensures forall k :: 0 <= k < |OfToken(names, tokens[t])| ==> OfToken(names, tokens[t])[k] in dir
  {
    hide Token;
    var mine := OfToken(names, tokens[t]);
    OfTokenHas(names, tokens[t]);
    assert tokens[t] in tokens;
    var i :| 0 <= i < |names| && Token(names[i]) == tokens[t];
    assert names[i] in mine;
    forall k | 0 <= k < |mine| ensures mine[k] in dir { assert mine[k] in mine; }
  }

  lemma NothingNumbered(scan: Scan)
    ensures Numbered(scan, [], [], [])
  {
  }

  lemma NumberedGrows(scan: Scan, plan: seq<Chunk>, tokens: seq<string>, owner: seq<nat>, more: seq<Chunk>, token: string)
    requires Numbered(scan, plan, tokens, owner) && more != []
    requires forall i :: 0 <= i < |more| ==> more[i].camera == CameraOf(scan, token) && more[i].number == i
    ensures Numbered(scan, plan + more, tokens + [token], owner + seq(|more|, k => |tokens|))
  {
    var plan', tokens', owner' := plan + more, tokens + [token], owner + seq(|more|, k => |tokens|);
    assert forall i :: 0 <= i < |plan| ==> plan'[i] == plan[i] && owner'[i] == owner[i];
    assert forall i :: |plan| <= i < |plan'| ==> plan'[i] == more[i - |plan|] && owner'[i] == |tokens|;
    forall t | 0 <= t < |tokens'| ensures FirstOf(plan', owner', t) {
      if t < |tokens| {
        assert FirstOf(plan, owner, t);
        var i :| 0 <= i < |plan| && owner[i] == t && plan[i].number == 0;
        assert owner'[i] == t && plan'[i].number == 0;
      } else {
        assert owner'[|plan|] == t && plan'[|plan|].number == 0;
      }
    }
  }

  // ---- Record identities ----

  ghost predicate SameIdentity(a: Chunk, b: Chunk) {
    a.camera == b.camera && a.deletedAt == b.deletedAt && a.number == b.number
  }

  ghost predicate Collision(plan: seq<Chunk>) {
    exists i, j :: 0 <= i < j < |plan| && SameIdentity(plan[i], plan[j])
  }

  /** Two records of one pass share an artifact id exactly when two job tokens name one camera: the
      chunk number restarts for each token, while the id names only the camera, the time and the number. */
  lemma IdentitiesCollideExactly(scan: Scan, plan: seq<Chunk>, tokens: seq<string>, owner: seq<nat>, now: int)
    requires Numbered(scan, plan, tokens, owner) && forall i :: 0 <= i < |plan| ==> plan[i].deletedAt == now
    ensures Collision(plan) <==>
      exists a, b :: 0 <= a < b < |tokens| && CameraOf(scan, tokens[a]) == CameraOf(scan, tokens[b])
  {
    if Collision(plan) {
      var i, j :| 0 <= i < j < |plan| && SameIdentity(plan[i], plan[j]);
      var a, b := owner[i], owner[j];
      assert a != b;
      if a < b { assert CameraOf(scan, tokens[a]) == CameraOf(scan, tokens[b]); }
      else { assert CameraOf(scan, tokens[b]) == CameraOf(scan, tokens[a]); }
    }
    if a, b :| 0 <= a < b < |tokens| && CameraOf(scan, tokens[a]) == CameraOf(scan, tokens[b]) {
      assert FirstOf(plan, owner, a) && FirstOf(plan, owner, b);
      var i :| 0 <= i < |plan| && owner[i] == a && plan[i].number == 0;
      var j :| 0 <= j < |plan| && owner[j] == b && plan[j].number == 0;
      assert SameIdentity(plan[i], plan[j]) && SameIdentity(plan[j], plan[i]);
    }
  }

  /** Two of the files belong to different jobs whose tokens name one camera. */
  ghost predicate SharesCamera(scan: Scan, names: seq<string>) {
    exists i, j :: 0 <= i < |names| && 0 <= j < |names| && Clash(scan, Token(names[i]), Token(names[j]))
  }

  ghost predicate Clash(scan: Scan, t: string, u: string) { t != u && CameraOf(scan, t) == CameraOf(scan, u) }

  lemma SharedByTokens(scan: Scan, names: seq<string>, tokens: seq<string>)
    requires NoRepeats(tokens) && forall u :: u in tokens <==> exists i :: 0 <= i < |names| && Token(names[i]) == u
    ensures SharesCamera(scan, names) <==>
      exists a, b :: 0 <= a < b < |tokens| && CameraOf(scan, tokens[a]) == CameraOf(scan, tokens[b])
  {
    hide Token;
    if SharesCamera(scan, names) {
      var i, j :| 0 <= i < |names| && 0 <= j < |names| && Clash(scan, Token(names[i]), Token(names[j]));
      assert Token(names[i]) in tokens && Token(names[j]) in tokens;
      var a :| 0 <= a < |tokens| && tokens[a] == Token(names[i]);
      var b :| 0 <= b < |tokens| && tokens[b] == Token(names[j]);
      if a < b { assert CameraOf(scan, tokens[a]) == CameraOf(scan, tokens[b]); }
      else { assert CameraOf(scan, tokens[b]) == CameraOf(scan, tokens[a]); }
    }
    if a, b :| 0 <= a < b < |tokens| && CameraOf(scan, tokens[a]) == CameraOf(scan, tokens[b]) {
      assert tokens[a] in tokens && tokens[b] in tokens;
      var i :| 0 <= i < |names| && Token(names[i]) == tokens[a];
      var j :| 0 <= j < |names| && Token(names[j]) == tokens[b];
      assert Clash(scan, Token(names[i]), Token(names[j]));
    }
  }

  /** Two files of different jobs, one configured camera id. */
  lemma TwoTokensOneCamera(scan: Scan)
    requires scan.cfg.configured != ""
    ensures SharesCamera(scan, ["a.mp4", "b.mp4"])
  {
    TokenBeforeDot("a", ".mp4");
    TokenBeforeDot("b", ".mp4");
    var names := ["a.mp4", "b.mp4"];
    assert Clash(scan, Token(names[0]), Token(names[1]));
  }

  lemma TokenBeforeDot(one: string, rest: string)
    requires |one| == 1 && one[0] != '.' && rest != [] && rest[0] == '.'
    ensures Token(one + rest) == one
  {
    assert (one + rest)[1..] == rest;
  }

  lemma DatedNow(cfg: Config, dir: Directory, now: int, c: Chunk)
    requires Planned(cfg, dir, now, c)
    ensures c.deletedAt == now
  {
  }
}
