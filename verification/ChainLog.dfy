/** The hash-linked, HMAC-authenticated session log: one append transaction, the session verifier,
    and what a verified copy of the database proves about the entries the node really committed. */
module ChainLog {
  import opened Prelude
  import opened ChainCanonical

  datatype Row = Row(entry: Entry, entryHash: string, hmac: string)

  datatype Head = Head(last: int, hash: string, hmac: string)

  /** The tables: rows of one session in sequence order, one head per session. */
  datatype Database = Database(rows: map<string, seq<Row>>, heads: map<string, Head>)

  /** One submission. `lands` is false when the transaction rolls back for a reason not modelled. */
  datatype Request = Request(
    session: string, artifactType: string, artifactId: string, artifactHash: string,
    wall: nat, monotonic: nat, lands: bool)

  const GENESIS_PREFIX := "VIRP_CHAIN_GENESIS:"
  const MILESTONE_INTERVAL := 100
  const CANONICAL_BUFFER := 2048

  /** A C string copied into a field of `width` bytes, terminator included. */
  function Clip(s: string, width: nat): (r: string)
    requires width > 0
    ensures |r| < width
    ensures |s| < width ==> r == s
  {
    if |s| < width then s else s[..width - 1]
  }

  function SessionField(session: string): string { Clip(session, 64) }

  predicate ConformantText(s: string) {
    forall i :: 0 <= i < |s| ==> s[i] != '"' && s[i] != '\\' && s[i] >= ' ' && s[i] as int != 0x7F
  }

  predicate HashText(s: string) {
    |s| == 64 && forall i :: 0 <= i < |s| ==> '0' <= s[i] <= '9' || 'a' <= s[i] <= 'f'
  }

  predicate Acceptable(r: Request) {
    ConformantText(r.session) && ConformantText(r.artifactType) && ConformantText(r.artifactId) && HashText(r.artifactHash)
  }

  /** The keyed node: its digest, its MAC under the chain key and its configured identity. */
  datatype Node = Node(digest: string -> string, mac: string -> string, id: nat, org: string)

  /** What is asked of the digest: no collisions, printed without quotes. */
  ghost predicate Ideal(n: Node) {
    && (forall x, y :: n.digest(x) == n.digest(y) ==> x == y)
    && (forall x :: '"' !in n.digest(x))
  }

  function Genesis(n: Node, session: string): string { n.digest(GENESIS_PREFIX + session) }

  function Rows(db: Database, session: string): seq<Row> {
    if session in db.rows then db.rows[session] else []
  }

  function NextEntry(n: Node, db: Database, r: Request): (e: Entry) {
    var rows := Rows(db, r.session);
    Entry(Clip(r.artifactHash, 65), "sha256", Clip(r.artifactId, 128), "1", Clip(r.artifactType, 16), r.monotonic,
          if rows == [] then Genesis(n, r.session) else rows[|rows| - 1].entryHash,
          if rows == [] then 0 else rows[|rows| - 1].entry.sequence + 1,
          SessionField(r.session), n.id, n.org, r.wall)
  }

  function RowOf(n: Node, e: Entry): Row {
    Row(e, n.digest(Canonical(e)), n.mac(Canonical(e)))
  }

  function HeadOf(n: Node, session: string, last: int, hash: string): Head {
    Head(last, hash, n.mac(HeadText(session, last, hash)))
  }

  // ---- The verifier ----

  /** The rows the range query returns. */
  function InRange(rows: seq<Row>, from: int, last: int): seq<Row> {
    if rows == [] then []
    else
      var rest := InRange(rows[..|rows| - 1], from, last);
      var row := rows[|rows| - 1];
      if from <= row.entry.sequence <= last then rest + [row] else rest
  }

  /** The digest of the row with this number, if there is one. */
  function HashAt(rows: seq<Row>, sequence: int): Option<string> {
    if rows == [] then None
    else
      var rest := HashAt(rows[..|rows| - 1], sequence);
      var row := rows[|rows| - 1];
      if rest.None? && row.entry.sequence == sequence then Some(row.entryHash) else rest
  }

  /** What the first row of a range must link to. */
  function Before(n: Node, db: Database, session: string, from: int): Option<string> {
    if from == 0 then Some(Genesis(n, session)) else HashAt(Rows(db, session), from - 1)
  }

  ghost predicate StepAt(n: Node, before: string, from: int, q: seq<Row>, i: int)
    requires 0 <= i < |q|
  {
    && q[i].entry.sequence == from + i
    && q[i].entry.previous == (if i == 0 then before else q[i - 1].entryHash)
    && |Canonical(q[i].entry)| < CANONICAL_BUFFER
    && q[i] == RowOf(n, q[i].entry)
  }

  ghost predicate Steps(n: Node, before: string, from: int, q: seq<Row>) {
    forall i :: 0 <= i < |q| ==> StepAt(n, before, from, q, i)
  }

  /** The range is complete, numbered, linked, rehashed and authenticated. */
  ghost predicate RangeStands(n: Node, db: Database, session: string, from: int, last: int) {
    && 0 <= from <= last
    && Before(n, db, session, from).Some?
    && var q := InRange(Rows(db, session), from, last);
       |q| == last - from + 1 && Steps(n, Before(n, db, session, from).value, from, q)
  }

  ghost predicate LinkAt(n: Node, session: string, q: seq<Row>, i: int)
    requires 0 <= i < |q|
  {
    && q[i].entry.sequence == i
    && q[i].entry.previous == (if i == 0 then Genesis(n, session) else q[i - 1].entryHash)
    && |Canonical(q[i].entry)| < CANONICAL_BUFFER
    && q[i] == RowOf(n, q[i].entry)
  }

  ghost predicate Linked(n: Node, session: string, q: seq<Row>) {
    forall i :: 0 <= i < |q| ==> LinkAt(n, session, q, i)
  }

  /** A session stands when its authenticated head commits to exactly the linked rows in range. */
  ghost predicate Stands(n: Node, db: Database, session: string) {
    && session in db.heads
    && var head := db.heads[session];
       && head == HeadOf(n, session, head.last, head.hash)
       && 0 <= head.last
       && var q := InRange(Rows(db, session), 0, head.last);
          && |q| == head.last + 1
          && Linked(n, session, q)
          && q[head.last].entryHash == head.hash
  }

  method VerifyRange(n: Node, db: Database, session: string, from: int, last: int) returns (ok: bool, final: string)
    ensures ok <==> RangeStands(n, db, session, from, last)
    ensures ok ==> final == InRange(Rows(db, session), from, last)[last - from].entryHash
  {
    hide Canonical, InRange, HashAt;
    final := "";
    if from < 0 || last < from { return false, final; }
    var before := Before(n, db, session, from);
    if before.None? { return false, final; }
    var q := InRange(Rows(db, session), from, last);
    var expected := before.value;
    var checked := 0;
    while checked < |q|
      invariant 0 <= checked <= |q|
      invariant forall i :: 0 <= i < checked ==> StepAt(n, before.value, from, q, i)
      invariant expected == (if checked == 0 then before.value else q[checked - 1].entryHash)
    {
      var row := q[checked];
      var text := Canonical(row.entry);
      if || row.entry.sequence != from + checked || row.entry.previous != expected || |text| >= CANONICAL_BUFFER
         || n.digest(text) != row.entryHash || n.mac(text) != row.hmac {
        assert !StepAt(n, before.value, from, q, checked);
        return false, "";
      }
      expected := row.entryHash;
      checked := checked + 1;
    }
    ok := checked == last - from + 1;
    final := expected;
  }

  // ---- Ranges ----

  ghost predicate Ascending(rows: seq<Row>) {
    forall i, j :: 0 <= i < j < |rows| ==> rows[i].entry.sequence < rows[j].entry.sequence
  }

  lemma {:induction false} NothingBeyond(rows: seq<Row>, from: int, last: int)
    requires forall i :: 0 <= i < |rows| ==> rows[i].entry.sequence < from
    ensures InRange(rows, from, last) == []
  {
    if rows != [] { NothingBeyond(rows[..|rows| - 1], from, last); }
  }

  lemma {:induction false} RangeSplits(rows: seq<Row>, from: int, mid: int, last: int)
    requires Ascending(rows) && from <= mid < last
    ensures InRange(rows, from, last) == InRange(rows, from, mid) + InRange(rows, mid + 1, last)
  {
    if rows != [] {
      var front, row := rows[..|rows| - 1], rows[|rows| - 1];
      RangeSplits(front, from, mid, last);
      if row.entry.sequence <= mid { NothingBeyond(front, mid + 1, last); }
      assert InRange(front, from, mid) + InRange(front, mid + 1, last) + [row]
        == InRange(front, from, mid) + (InRange(front, mid + 1, last) + [row]);
      assert row.entry.sequence <= mid ==> InRange(front, from, mid) + [] + [row] == InRange(front, from, mid) + [row] + [];
    }
  }

  lemma {:induction false} RangeHolds(rows: seq<Row>, from: int, last: int, row: Row)
    requires row in InRange(rows, from, last)
    ensures row in rows && from <= row.entry.sequence <= last
  {
    if rows != [] {
      if row in InRange(rows[..|rows| - 1], from, last) { RangeHolds(rows[..|rows| - 1], from, last, row); }
    }
  }

  lemma {:induction false} HashOfRow(rows: seq<Row>, row: Row)
    requires Ascending(rows) && row in rows
    ensures HashAt(rows, row.entry.sequence) == Some(row.entryHash)
  {
    var front, last := rows[..|rows| - 1], rows[|rows| - 1];
    if row in front {
      HashOfRow(front, row);
    } else {
      assert rows == front + [last];
      assert row == last;
      NoHash(front, row.entry.sequence);
    }
  }

  lemma {:induction false} NoHash(rows: seq<Row>, sequence: int)
    requires forall i :: 0 <= i < |rows| ==> rows[i].entry.sequence < sequence
    ensures HashAt(rows, sequence) == None
  {
    if rows != [] { NoHash(rows[..|rows| - 1], sequence); }
  }

  /** Verifying a range piece by piece is verifying it whole, wherever it is cut. */
  lemma RangesJoin(n: Node, db: Database, session: string, from: int, mid: int, last: int)
    requires Ascending(Rows(db, session)) && from <= mid < last
    ensures RangeStands(n, db, session, from, last) <==>
      RangeStands(n, db, session, from, mid) && RangeStands(n, db, session, mid + 1, last)
  {
    hide Canonical, InRange, HashAt;
    var rows := Rows(db, session);
    var a, b := InRange(rows, from, mid), InRange(rows, mid + 1, last);
    RangeSplits(rows, from, mid, last);
    if RangeStands(n, db, session, from, mid) {
      assert StepAt(n, Before(n, db, session, from).value, from, a, mid - from);
      RangeHolds(rows, from, mid, a[mid - from]);
      HashOfRow(rows, a[mid - from]);
      StepsJoin(n, Before(n, db, session, from).value, from, a, b);
    }
    if RangeStands(n, db, session, from, last) {
      PiecesAreWhole(n, Before(n, db, session, from).value, rows, from, mid, last);
      StepsJoin(n, Before(n, db, session, from).value, from, a, b);
      RangeHolds(rows, from, mid, a[mid - from]);
      HashOfRow(rows, a[mid - from]);
      assert StepAt(n, Before(n, db, session, from).value, from, a, mid - from);
    }
  }

  lemma PiecesAreWhole(n: Node, before: string, rows: seq<Row>, from: int, mid: int, last: int)
    requires from <= mid < last
    requires var q := InRange(rows, from, mid) + InRange(rows, mid + 1, last);
      |q| == last - from + 1 && Steps(n, before, from, q)
    ensures |InRange(rows, from, mid)| == mid - from + 1
  {
    hide Canonical, InRange, RowOf;
    var a, b := InRange(rows, from, mid), InRange(rows, mid + 1, last);
    var q := a + b;
    if |a| > mid - from + 1 {
      assert StepAt(n, before, from, q, mid - from + 1);
      RangeHolds(rows, from, mid, a[mid - from + 1]);
    } else if |a| < mid - from + 1 {
      assert StepAt(n, before, from, q, mid - from);
      RangeHolds(rows, mid + 1, last, b[mid - from - |a|]);
    }
  }

  lemma StepsJoin(n: Node, before: string, from: int, a: seq<Row>, b: seq<Row>)
    requires a != []
    ensures Steps(n, before, from, a + b) <==>
      Steps(n, before, from, a) && Steps(n, a[|a| - 1].entryHash, from + |a|, b)
  {
    hide Canonical, RowOf;
    var q, end, hash := a + b, from + |a|, a[|a| - 1].entryHash;
    assert forall i :: 0 <= i < |a| ==> q[i] == a[i];
    if Steps(n, before, from, q) {
      forall i | 0 <= i < |a| ensures StepAt(n, before, from, a, i) { assert StepAt(n, before, from, q, i); }
      forall i | 0 <= i < |b| ensures StepAt(n, hash, end, b, i) {
        assert StepAt(n, before, from, q, |a| + i);
      }
    }
    if Steps(n, before, from, a) && Steps(n, a[|a| - 1].entryHash, from + |a|, b) {
      forall i | 0 <= i < |q| ensures StepAt(n, before, from, q, i) {
        if i < |a| { assert StepAt(n, before, from, a, i); }
        else { assert StepAt(n, hash, end, b, i - |a|); }
      }
    }
  }

  method VerifySession(n: Node, db: Database, session: string) returns (valid: bool)
    ensures valid <==> Stands(n, db, session)
  {
    if session !in db.heads { return false; }
    var head := db.heads[session];
    if n.mac(HeadText(session, head.last, head.hash)) != head.hmac { return false; }
    var ok, final := VerifyRange(n, db, session, 0, head.last);
    LinkedFromZero(n, session, InRange(Rows(db, session), 0, head.last));
    valid := ok && final == head.hash;
  }

  lemma LinkedFromZero(n: Node, session: string, q: seq<Row>)
    ensures Linked(n, session, q) <==> Steps(n, Genesis(n, session), 0, q)
  {
    hide Canonical, RowOf;
    if Linked(n, session, q) {
      forall i | 0 <= i < |q| ensures StepAt(n, Genesis(n, session), 0, q, i) { assert LinkAt(n, session, q, i); }
    }
    if Steps(n, Genesis(n, session), 0, q) {
      forall i | 0 <= i < |q| ensures LinkAt(n, session, q, i) { assert StepAt(n, Genesis(n, session), 0, q, i); }
    }
  }

  // ---- What the node has committed ----

  /** `founder[s]` is the session the request that wrote row 0 under `s` was made for. */
  datatype Log = Log(db: Database, minted: set<string>, founder: map<string, string>)

  ghost predicate RowsOk(n: Node, log: Log) {
    && log.founder.Keys == log.db.rows.Keys
    && forall s :: s in log.db.rows ==> SessionOk(n, log, s)
  }

  ghost predicate SessionOk(n: Node, log: Log, s: string)
    requires s in log.db.rows && s in log.founder
  {
    && log.db.rows[s] != []
    && SessionField(log.founder[s]) == s
    && '"' !in log.founder[s]
    && (forall i :: 0 <= i < |log.db.rows[s]| ==> log.db.rows[s][i].entry.session == s && QuoteFree(log.db.rows[s][i].entry))
    && Linked(n, log.founder[s], log.db.rows[s])
  }

  ghost predicate IsEntry(log: Log, t: string) {
    exists s, i :: s in log.db.rows && 0 <= i < |log.db.rows[s]| && t == Canonical(log.db.rows[s][i].entry)
  }

  ghost predicate HeadFor(log: Log, s: string, i: int) {
    '"' !in s && SessionField(s) in log.db.rows && 0 <= i < |log.db.rows[SessionField(s)]|
  }

  ghost predicate IsHead(log: Log, t: string) {
    exists s, i :: HeadFor(log, s, i) && t == HeadText(s, i, log.db.rows[SessionField(s)][i].entryHash)
  }

  /** Everything ever authenticated under the chain key and stored. */
  ghost predicate MintedOk(log: Log) {
    forall t :: t in log.minted ==> IsEntry(log, t) || IsHead(log, t) || IsMilestoneText(t)
  }

  ghost predicate HeadOk(n: Node, log: Log, s: string) {
    && s in log.db.rows && log.db.rows[s] != [] && s in log.db.heads
    && var rows := log.db.rows[s]; log.db.heads[s] == HeadOf(n, s, |rows| - 1, rows[|rows| - 1].entryHash)
  }

  ghost predicate HeadsOk(n: Node, log: Log)
    requires RowsOk(n, log)
  {
    && (forall s :: s in log.db.rows ==> |s| < 64)
    && (forall s :: s in log.db.rows && log.founder[s] == s ==> HeadOk(n, log, s))
  }

  ghost predicate Committed(n: Node, log: Log) {
    RowsOk(n, log) && MintedOk(log) && HeadsOk(n, log)
  }

  function Extend(n: Node, log: Log, r: Request): Log {
    var e := NextEntry(n, log.db, r);
    var row := RowOf(n, e);
    var texts := {Canonical(e), HeadText(r.session, e.sequence, row.entryHash)};
    Log(Database(log.db.rows[e.session := Rows(log.db, e.session) + [row]],
                 log.db.heads[r.session := HeadOf(n, r.session, e.sequence, row.entryHash)]),
        log.minted + texts + (if e.sequence > 0 && e.sequence % MILESTONE_INTERVAL == 0
                              then {MilestoneText(r.session, e.sequence, MILESTONE_INTERVAL, row.entryHash)} else {}),
        if e.session in log.founder then log.founder else log.founder[e.session := r.session])
  }

  predicate Taken(rows: seq<Row>, sequence: int) {
    exists i :: 0 <= i < |rows| && rows[i].entry.sequence == sequence
  }

  predicate Admits(n: Node, db: Database, r: Request) {
    && Acceptable(r)
    && r.lands
    && |Canonical(NextEntry(n, db, r))| < CANONICAL_BUFFER
    && !Taken(Rows(db, SessionField(r.session)), NextEntry(n, db, r).sequence)
  }

  // ---- Every append keeps the log committed ----

  ghost predicate Numbered(rows: seq<Row>) {
    forall i :: 0 <= i < |rows| ==> rows[i].entry.sequence == i
  }

  lemma {:induction false} NumberedRange(rows: seq<Row>, last: int)
    requires Numbered(rows) && 0 <= last
    ensures InRange(rows, 0, last) == if |rows| <= last + 1 then rows else rows[..last + 1]
  {
    if rows != [] {
      var front, row := rows[..|rows| - 1], rows[|rows| - 1];
      assert Numbered(front) && row.entry.sequence == |front|;
      NumberedRange(front, last);
      if |rows| <= last + 1 {
        assert front + [row] == rows;
      } else {
        assert InRange(rows, 0, last) == InRange(front, 0, last);
        assert rows[..last + 1] == front[..last + 1];
        assert |front| == last + 1 ==> front[..last + 1] == front;
      }
    }
  }

  lemma CommittedIsNumbered(n: Node, log: Log, s: string)
    requires RowsOk(n, log)
    ensures Numbered(Rows(log.db, s))
  {
    hide Canonical;
    if s in log.db.rows {
      assert SessionOk(n, log, s);
      forall i | 0 <= i < |log.db.rows[s]| ensures log.db.rows[s][i].entry.sequence == i {
        assert LinkAt(n, log.founder[s], log.db.rows[s], i);
      }
    }
  }

  /** A row always lands at the end of its session's rows, or founds them. */
  lemma LandsAtTheEnd(n: Node, log: Log, r: Request)
    requires Committed(n, log) && Admits(n, log.db, r)
    ensures var e := NextEntry(n, log.db, r); var rows := Rows(log.db, e.session);
      && e.session == SessionField(r.session)
      && e.sequence == |rows|
      && e.previous == (if rows == [] then Genesis(n, r.session) else rows[|rows| - 1].entryHash)
      && |Canonical(e)| < CANONICAL_BUFFER
    ensures |r.session| >= 64 ==> SessionField(r.session) !in log.db.rows
    ensures |r.session| < 64 ==> SessionField(r.session) == r.session
  {
    hide Canonical;
    CommittedIsNumbered(n, log, r.session);
    CommittedIsNumbered(n, log, SessionField(r.session));
    var rows := Rows(log.db, SessionField(r.session));
    if SessionField(r.session) in log.db.rows {
      assert SessionOk(n, log, SessionField(r.session));
      assert Taken(rows, rows[0].entry.sequence);
    }
  }

  lemma ConformantTextIsQuoteFree(s: string, width: nat)
    requires ConformantText(s) && width > 0
    ensures '"' !in s && '"' !in Clip(s, width)
  {
  }

  lemma NextEntryIsQuoteFree(n: Node, log: Log, r: Request)
    requires Ideal(n) && ConformantText(n.org) && RowsOk(n, log) && Admits(n, log.db, r)
    ensures QuoteFree(NextEntry(n, log.db, r)) && '"' !in r.session
  {
    hide Canonical;
    ConformantTextIsQuoteFree(r.session, 64);
    ConformantTextIsQuoteFree(r.artifactId, 128);
    ConformantTextIsQuoteFree(r.artifactType, 16);
    ConformantTextIsQuoteFree(n.org, 64);
    var rows := Rows(log.db, r.session);
    if rows != [] {
      assert SessionOk(n, log, r.session);
      assert LinkAt(n, log.founder[r.session], rows, |rows| - 1);
    }
  }

  lemma ExtendKeepsRows(n: Node, log: Log, r: Request)
    requires Ideal(n) && ConformantText(n.org) && Committed(n, log) && Admits(n, log.db, r)
    ensures RowsOk(n, Extend(n, log, r))
  {
    hide Canonical, HeadText, MilestoneText, Ideal, Admits, NextEntry, MintedOk, HeadsOk, Linked;
    var log' := Extend(n, log, r);
    var e := NextEntry(n, log.db, r);
    LandsAtTheEnd(n, log, r);
    NextEntryIsQuoteFree(n, log, r);
    forall s | s in log'.db.rows ensures SessionOk(n, log', s) {
      if s != e.session {
        assert SessionOk(n, log, s);
      } else {
        FoundedOrExtended(n, log, r);
      }
    }
  }

  lemma FoundedOrExtended(n: Node, log: Log, r: Request)
    requires Ideal(n) && ConformantText(n.org) && Committed(n, log) && Admits(n, log.db, r)
    ensures var log' := Extend(n, log, r); var s := SessionField(r.session); s in log'.founder && SessionOk(n, log', s)
  {
    hide Canonical, HeadText, MilestoneText, Ideal, Admits, NextEntry, MintedOk, HeadsOk;
    var e := NextEntry(n, log.db, r);
    LandsAtTheEnd(n, log, r);
    NextEntryIsQuoteFree(n, log, r);
    var before := Rows(log.db, e.session);
    if e.session in log.db.rows {
      assert SessionOk(n, log, e.session);
      LinksExtend(n, log.founder[e.session], before, e);
    } else {
      LinksExtend(n, r.session, before, e);
    }
  }

  lemma LinksExtend(n: Node, founder: string, before: seq<Row>, e: Entry)
    requires Linked(n, founder, before)
    requires e.sequence == |before| && |Canonical(e)| < CANONICAL_BUFFER
    requires e.previous == (if before == [] then Genesis(n, founder) else before[|before| - 1].entryHash)
    ensures Linked(n, founder, before + [RowOf(n, e)])
  {
    hide Canonical;
    var after := before + [RowOf(n, e)];
    forall i | 0 <= i < |after| ensures LinkAt(n, founder, after, i) {
      if i < |before| { assert LinkAt(n, founder, before, i); }
    }
  }

  lemma ExtendKeepsHeads(n: Node, log: Log, r: Request)
    requires Ideal(n) && ConformantText(n.org) && Committed(n, log) && Admits(n, log.db, r)
    ensures RowsOk(n, Extend(n, log, r)) && HeadsOk(n, Extend(n, log, r))
  {
    hide Canonical, HeadText, MilestoneText;
    hide HeadOk, SessionOk;
    ExtendKeepsRows(n, log, r);
    var log' := Extend(n, log, r);
    forall s | s in log'.db.rows && log'.founder[s] == s ensures HeadOk(n, log', s) {
      ExtendKeepsHead(n, log, r, s);
    }
  }

  lemma ExtendKeepsHead(n: Node, log: Log, r: Request, s: string)
    requires Committed(n, log) && Admits(n, log.db, r) && RowsOk(n, Extend(n, log, r))
    requires s in Extend(n, log, r).db.rows && Extend(n, log, r).founder[s] == s
    ensures HeadOk(n, Extend(n, log, r), s)
  {
    hide Canonical, HeadText, MilestoneText, SessionOk;
    LandsAtTheEnd(n, log, r);
    if s != SessionField(r.session) {
      assert HeadOk(n, log, s);
    }
  }

  lemma ExtendKeepsMinted(n: Node, log: Log, r: Request)
    requires Ideal(n) && ConformantText(n.org) && Committed(n, log) && Admits(n, log.db, r)
    ensures MintedOk(Extend(n, log, r))
  {
    hide Canonical, HeadText, MilestoneText, Ideal, Admits, NextEntry, HeadsOk, RowsOk, IsEntry, IsHead, IsMilestoneText;
    var log' := Extend(n, log, r);
    var e := NextEntry(n, log.db, r);
    LandsAtTheEnd(n, log, r);
    NextEntryIsQuoteFree(n, log, r);
    var k := |Rows(log.db, e.session)|;
    assert log'.db.rows[e.session][k] == RowOf(n, e);
    NewlyMinted(log', r.session, k);
    MilestonesAreMilestones(r.session, e.sequence, MILESTONE_INTERVAL, RowOf(n, e).entryHash);
    forall t | t in log'.minted ensures IsEntry(log', t) || IsHead(log', t) || IsMilestoneText(t) {
      if t in log.minted {
        StillMinted(n, log, r, t);
      }
    }
  }

  lemma NewlyMinted(log: Log, session: string, k: nat)
    requires HeadFor(log, session, k)
    ensures IsEntry(log, Canonical(log.db.rows[SessionField(session)][k].entry))
    ensures IsHead(log, HeadText(session, k, log.db.rows[SessionField(session)][k].entryHash))
  {
    hide Canonical, HeadText;
  }

  lemma MilestonesAreMilestones(session: string, sequence: int, covered: int, hash: string)
    ensures IsMilestoneText(MilestoneText(session, sequence, covered, hash))
  {
    hide MilestoneText;
  }

  lemma StillMinted(n: Node, log: Log, r: Request, t: string)
    requires IsEntry(log, t) || IsHead(log, t) || IsMilestoneText(t)
    ensures IsEntry(Extend(n, log, r), t) || IsHead(Extend(n, log, r), t) || IsMilestoneText(t)
  {
    hide Canonical, HeadText, MilestoneText;
    var log' := Extend(n, log, r);
    assert forall s, i :: s in log.db.rows && 0 <= i < |log.db.rows[s]| ==>
      s in log'.db.rows && i < |log'.db.rows[s]| && log'.db.rows[s][i] == log.db.rows[s][i];
    if IsHead(log, t) {
      var s, i :| HeadFor(log, s, i) && t == HeadText(s, i, log.db.rows[SessionField(s)][i].entryHash);
      assert HeadFor(log', s, i);
    } else if IsEntry(log, t) {
      var s, i :| s in log.db.rows && 0 <= i < |log.db.rows[s]| && t == Canonical(log.db.rows[s][i].entry);
      assert t == Canonical(log'.db.rows[s][i].entry);
    }
  }

  // ---- What a verified copy proves ----

  /** An authentic head found in a copy is one the node stored, for that very session. */
  lemma AuthenticHeadWasCommitted(n: Node, log: Log, s: string, last: int, hash: string)
    requires Ideal(n) && Committed(n, log)
    requires HeadText(s, last, hash) in log.minted
    ensures HeadFor(log, s, last) && hash == log.db.rows[SessionField(s)][last].entryHash
  {
    hide Canonical, HeadText, MilestoneText;
    var t := HeadText(s, last, hash);
    KindsNeverCollide(t);
    if IsHead(log, t) {
      var s', i :| HeadFor(log, s', i) && t == HeadText(s', i, log.db.rows[SessionField(s')][i].entryHash);
      var rows := log.db.rows[SessionField(s')];
      assert SessionOk(n, log, SessionField(s'));
      assert LinkAt(n, log.founder[SessionField(s')], rows, i);
      HeadTextReadsBack(s', i, rows[i].entryHash, s, last, hash);
    }
  }

  /** Equal last digests force equal rows all the way back. */
  lemma {:induction false} EqualDigestsEqualRows(n: Node, log: Log, s: string, session: string, q: seq<Row>, k: nat)
    requires Ideal(n) && Committed(n, log) && s in log.db.rows
    requires Linked(n, session, q) && k < |q| && k < |log.db.rows[s]|
    requires q[k].entryHash == log.db.rows[s][k].entryHash
    ensures q[..k + 1] == log.db.rows[s][..k + 1]
  {
    hide Canonical, HeadText, MilestoneText, Ideal, MintedOk, HeadsOk, Linked;
    var rows := log.db.rows[s];
    assert SessionOk(n, log, s);
    LinkHolds(n, session, q, k);
    LinkHolds(n, log.founder[s], rows, k);
    DigestReadsBack(n, Canonical(rows[k].entry), Canonical(q[k].entry));
    CanonicalReadsBack(rows[k].entry, q[k].entry);
    if k > 0 {
      EqualDigestsEqualRows(n, log, s, session, q, k - 1);
      assert q[..k + 1] == q[..k] + [q[k]] && rows[..k + 1] == rows[..k] + [rows[k]];
    } else {
      assert q[..1] == [q[0]] && rows[..1] == [rows[0]];
    }
  }

  lemma LinkHolds(n: Node, session: string, q: seq<Row>, k: nat)
    requires Linked(n, session, q) && k < |q|
    ensures LinkAt(n, session, q, k)
  {
    hide LinkAt;
  }

  lemma DigestReadsBack(n: Node, x: string, y: string)
    requires Ideal(n) && n.digest(x) == n.digest(y)
    ensures x == y
  {
  }

  /** Soundness. A copy that stands, its head not forged, holds exactly the first `last + 1` rows the
      node committed for that session, whatever else was done to it. */
  lemma VerifiedMeansCommittedPrefix(n: Node, log: Log, copy: Database, s: string)
    requires Ideal(n) && Committed(n, log)
    requires Stands(n, copy, s)
    requires HeadText(s, copy.heads[s].last, copy.heads[s].hash) in log.minted
    ensures var last := copy.heads[s].last; var stored := SessionField(s);
      && stored in log.db.rows && stored in log.founder && log.founder[stored] == s
      && last < |log.db.rows[stored]|
      && InRange(Rows(copy, s), 0, last) == log.db.rows[stored][..last + 1]
  {
    hide Canonical, HeadText, MilestoneText, InRange, Ideal, Committed;
    var head := copy.heads[s];
    var q := InRange(Rows(copy, s), 0, head.last);
    AuthenticHeadWasCommitted(n, log, s, head.last, head.hash);
    var stored := SessionField(s);
    EqualDigestsEqualRows(n, log, stored, s, q, head.last);
    assert q[..head.last + 1] == q;
    assert LinkAt(n, s, q, 0);
    assert q[0] == log.db.rows[stored][..head.last + 1][0];
    FounderIsTheSession(n, log, stored, s, q[0]);
  }

  lemma FounderIsTheSession(n: Node, log: Log, stored: string, s: string, first: Row)
    requires Ideal(n) && Committed(n, log) && stored in log.db.rows
    requires log.db.rows[stored] != [] && first == log.db.rows[stored][0] && first.entry.previous == Genesis(n, s)
    ensures stored in log.founder && log.founder[stored] == s
  {
    hide Canonical, HeadText, MintedOk, HeadsOk, Linked;
    assert SessionOk(n, log, stored);
    FirstLink(n, log.founder[stored], log.db.rows[stored]);
    GenesisReadsBack(n, s, log.founder[stored]);
  }

  lemma FirstLink(n: Node, founder: string, rows: seq<Row>)
    requires Linked(n, founder, rows) && rows != []
    ensures rows[0].entry.previous == Genesis(n, founder)
  {
    hide Canonical;
    assert LinkAt(n, founder, rows, 0);
  }

  lemma GenesisReadsBack(n: Node, s: string, t: string)
    requires Ideal(n) && Genesis(n, s) == Genesis(n, t)
    ensures s == t
  {
    assert s == (GENESIS_PREFIX + s)[|GENESIS_PREFIX|..];
    assert t == (GENESIS_PREFIX + t)[|GENESIS_PREFIX|..];
  }

  /** The converse, and the limit of the guarantee: every earlier state of an honestly named session,
      put back with its own head, stands again. */
  lemma EveryCommittedPrefixStands(n: Node, log: Log, copy: Database, s: string, last: nat)
    requires Committed(n, log) && s in log.db.rows && log.founder[s] == s && last < |log.db.rows[s]|
    requires Rows(copy, s) == log.db.rows[s][..last + 1]
    requires s in copy.heads && copy.heads[s] == HeadOf(n, s, last, log.db.rows[s][last].entryHash)
    ensures Stands(n, copy, s)
  {
    hide Canonical, HeadText, MintedOk, HeadsOk, InRange;
    var rows, q := log.db.rows[s], Rows(copy, s);
    assert SessionOk(n, log, s);
    CommittedIsNumbered(n, log, s);
    NumberedRange(q, last);
    forall i | 0 <= i < |q| ensures LinkAt(n, s, q, i) {
      assert LinkAt(n, s, rows, i);
    }
  }

  /** The node's own database: a session stands exactly when its first row was written for that very
      name, that is, was not clipped from a longer one. */
  lemma OwnSessionStandsExactlyWhenFounded(n: Node, log: Log, s: string)
    requires Ideal(n) && Committed(n, log)
    ensures Stands(n, log.db, s) <==> s in log.founder && log.founder[s] == s
  {
    hide Canonical, HeadText, MilestoneText, InRange, Ideal, SessionOk, HeadOk;
    if s in log.founder && log.founder[s] == s {
      assert SessionOk(n, log, s) && HeadOk(n, log, s);
      OwnHeadIsLast(n, log, s);
      var last := |log.db.rows[s]| - 1;
      assert log.db.rows[s][..last + 1] == log.db.rows[s];
      EveryCommittedPrefixStands(n, log, log.db, s, last);
    }
    if Stands(n, log.db, s) {
      var last := log.db.heads[s].last;
      var q := InRange(Rows(log.db, s), 0, last);
      CommittedIsNumbered(n, log, s);
      NumberedRange(Rows(log.db, s), last);
      assert LinkAt(n, s, q, 0);
      FounderIsTheSession(n, log, s, s, q[0]);
    }
  }

  lemma OwnHeadIsLast(n: Node, log: Log, s: string)
    requires Committed(n, log) && s in log.db.rows && log.founder[s] == s
    ensures log.db.rows[s] != [] && s in log.db.heads
    ensures var rows := log.db.rows[s]; log.db.heads[s] == HeadOf(n, s, |rows| - 1, rows[|rows| - 1].entryHash)
  {
    hide Canonical, HeadText;
    assert HeadOk(n, log, s);
  }

  // ---- The running node ----

  class Chain {
    const node: Node
    var log: Log

    constructor (n: Node)
      requires ConformantText(n.org)
      ensures node == n && log == Log(Database(map[], map[]), {}, map[])
    {
      node := n;
      log := Log(Database(map[], map[]), {}, map[]);
    }

    /** One append transaction: the row, its head and every hundredth entry's milestone, or nothing. */
    method Append(r: Request) returns (ok: bool)
      requires Ideal(node) && ConformantText(node.org) && Committed(node, log)
      modifies this
      ensures Committed(node, log)
      ensures ok <==> Admits(node, old(log).db, r)
      ensures log == if ok then Extend(node, old(log), r) else old(log)
    {
      hide Canonical, HeadText, MilestoneText, Ideal, Committed;
      if !Acceptable(r) || !r.lands { return false; }
      var rows := Rows(log.db, r.session);
      var sequence, previous := 0, Genesis(node, r.session);
      if rows != [] {
        sequence, previous := rows[|rows| - 1].entry.sequence + 1, rows[|rows| - 1].entryHash;
      }
      var e := Entry(Clip(r.artifactHash, 65), "sha256", Clip(r.artifactId, 128), "1", Clip(r.artifactType, 16),
                     r.monotonic, previous, sequence, SessionField(r.session), node.id, node.org, r.wall);
      var text := Canonical(e);
      if |text| >= CANONICAL_BUFFER { return false; }
      var row := Row(e, node.digest(text), node.mac(text));
      if Taken(Rows(log.db, e.session), sequence) { return false; }
      var head := HeadOf(node, r.session, sequence, row.entryHash);
      var minted := {text, HeadText(r.session, sequence, row.entryHash)};
      if sequence > 0 && sequence % MILESTONE_INTERVAL == 0 {
        minted := minted + {MilestoneText(r.session, sequence, MILESTONE_INTERVAL, row.entryHash)};
      }
      ExtendKeeps(node, log, r);
      log := Log(Database(log.db.rows[e.session := Rows(log.db, e.session) + [row]], log.db.heads[r.session := head]),
                 log.minted + minted,
                 if e.session in log.founder then log.founder else log.founder[e.session := r.session]);
      assert log == Extend(node, old(log), r);
      ok := true;
    }
  }

  lemma ExtendKeeps(n: Node, log: Log, r: Request)
    requires Ideal(n) && ConformantText(n.org) && Committed(n, log) && Admits(n, log.db, r)
    ensures Committed(n, Extend(n, log, r))
  {
    hide Canonical, HeadText, MilestoneText, Extend, HeadsOk, RowsOk, MintedOk;
    ExtendKeepsRows(n, log, r);
    ExtendKeepsHeads(n, log, r);
    ExtendKeepsMinted(n, log, r);
  }

  ghost predicate AllShort(requests: seq<Request>) {
    forall i :: 0 <= i < |requests| ==> |requests[i].session| < 64
  }

  ghost predicate HonestlyFounded(log: Log) {
    forall s :: s in log.founder ==> log.founder[s] == s
  }

  /** Any run of submissions. When every session name fits its field, every session an append was
      answered for stands; whatever the names, every copy is judged as the lemmas above say. */
  method ChainLife(n: Node, requests: seq<Request>) returns (log: Log, answers: seq<bool>)
    requires Ideal(n)
    ensures |answers| == |requests| && Committed(n, log)
    ensures forall i :: 0 <= i < |requests| && answers[i] ==> SessionField(requests[i].session) in log.db.rows
    ensures AllShort(requests) ==>
      forall i :: 0 <= i < |requests| && answers[i] ==> Stands(n, log.db, requests[i].session)
  {
    hide Canonical, HeadText, MilestoneText, Ideal, Committed, Stands, Admits;
    answers := seq(|requests|, i => false);
    if !ConformantText(n.org) {
      log := Log(Database(map[], map[]), {}, map[]);
      EmptyLogIsCommitted(n);
      return;
    }
    var chain := new Chain(n);
    EmptyLogIsCommitted(n);
    var k := 0;
    while k < |requests|
      invariant 0 <= k <= |requests| == |answers|
      invariant chain.node == n && Committed(n, chain.log)
      invariant forall i :: 0 <= i < |requests| && answers[i] ==> i < k && SessionField(requests[i].session) in chain.log.db.rows
      invariant AllShort(requests) ==> HonestlyFounded(chain.log)
    {
      var ok := chain.Append(requests[k]);
      answers := answers[k := ok];
      k := k + 1;
    }
    log := chain.log;
    if AllShort(requests) {
      forall i | 0 <= i < |requests| && answers[i] ensures Stands(n, log.db, requests[i].session) {
        FoundersAreSessions(n, log);
        OwnSessionStandsExactlyWhenFounded(n, log, requests[i].session);
      }
    }
  }

  lemma FoundersAreSessions(n: Node, log: Log)
    requires Committed(n, log)
    ensures log.founder.Keys == log.db.rows.Keys
    ensures forall s :: s in log.founder ==> |s| < 64
  {
    hide Canonical, HeadText;
  }

  lemma EmptyLogIsCommitted(n: Node)
    ensures Committed(n, Log(Database(map[], map[]), {}, map[]))
  {
  }

  /** A name too long for its field is accepted once, and the session it was accepted for never
      stands in the node's own database: the row is stored under the clipped name. */
  lemma LongNameNeverStands(n: Node, log: Log, r: Request)
    requires Ideal(n) && ConformantText(n.org) && Committed(n, log) && Admits(n, log.db, r)
    ensures Stands(n, Extend(n, log, r).db, r.session) <==>
      |r.session| < 64 && (r.session in log.founder ==> log.founder[r.session] == r.session)
  {
    hide Canonical, HeadText, MilestoneText, Ideal, Stands, Committed;
    ExtendKeeps(n, log, r);
    FoundersAreSessions(n, Extend(n, log, r));
    OwnSessionStandsExactlyWhenFounded(n, Extend(n, log, r), r.session);
  }
}
