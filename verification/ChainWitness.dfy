/** What is asked of a node's digest can be met: one node, collision-free, that commits sessions of
    every length the sequence column can number. */
module ChainWitness {
  import opened Numerals
  import opened ChainCanonical
  import opened ChainLog

  // ---- A digest that is short on one session ----

  function Quoteless(x: string): string {
    if x == [] then [] else (if x[0] == '"' then "\\q" else if x[0] == '\\' then "\\\\" else [x[0]]) + Quoteless(x[1..])
  }

  lemma {:induction false} QuotelessIsInjective(x: string, y: string)
    requires Quoteless(x) == Quoteless(y)
    ensures x == y
  {
    if x != [] && y != [] {
      assert Quoteless(x)[0] == Quoteless(y)[0];
      assert x[0] == '"' ==> Quoteless(x)[1] == 'q';
      assert y[0] == '"' ==> Quoteless(y)[1] == 'q';
      assert x[0] == '\\' ==> Quoteless(x)[1] == '\\';
      assert y[0] == '\\' ==> Quoteless(y)[1] == '\\';
      assert x[0] == y[0];
      var k := if x[0] == '"' || x[0] == '\\' then 2 else 1;
      assert Quoteless(x[1..]) == Quoteless(x)[k..] && Quoteless(y[1..]) == Quoteless(y)[k..];
      QuotelessIsInjective(x[1..], y[1..]);
      assert x == [x[0]] + x[1..] && y == [y[0]] + y[1..];
    }
  }

  lemma {:induction false} QuotelessHasNoQuote(x: string)
    ensures '"' !in Quoteless(x)
  {
    if x != [] { QuotelessHasNoQuote(x[1..]); }
  }

  lemma {:induction false} PlainStaysPlain(x: string)
    requires '"' !in x && '\\' !in x
    ensures Quoteless(x) == x
  {
    if x != [] {
      PlainStaysPlain(x[1..]);
      assert x == [x[0]] + x[1..];
    }
  }

  const NAME := "s"

  function ZeroHash(): (h: string)
    ensures HashText(h) && '"' !in h
  {
    seq(64, i => '0')
  }

  function Submission(): Request { Request(NAME, "t", "a", ZeroHash(), 0, 0, true) }

  function Code(k: nat): string { "k" + Digits(k) }

  /** The entry with number `k` of the session: it links to the code of the one before. */
  function EntryAt(k: nat): Entry {
    Entry(ZeroHash(), "sha256", "a", "1", "t", 0, if k == 0 then "x" + GENESIS_PREFIX + NAME else Code(k - 1), k, NAME, 0, "", 0)
  }

  ghost predicate OfSession(x: string) { exists k: nat :: x == Canonical(EntryAt(k)) }

  /** The entries of that session get their number, every other text gets itself without quotes. */
  ghost function Coded(x: string): string {
    if OfSession(x) then Code(NumberOf(x)) else "x" + Quoteless(x)
  }

  ghost function NumberOf(x: string): nat
    requires OfSession(x)
  {
    var k: nat :| x == Canonical(EntryAt(k));
    k
  }

  ghost function TheNode(): Node { Node(Coded, Quoteless, 0, "") }

  lemma EntriesArePlain(k: nat)
    ensures QuoteFree(EntryAt(k))
  {
    hide Digits, ZeroHash;
    if k > 0 { DigitsAreDigits(k - 1); }
    PrefixIsPlain();
  }

  lemma PrefixIsPlain()
    ensures '"' !in GENESIS_PREFIX && '\\' !in GENESIS_PREFIX
  {
  }

  lemma CodeOfEntry(k: nat)
    ensures OfSession(Canonical(EntryAt(k))) && Coded(Canonical(EntryAt(k))) == Code(k)
  {
    hide Canonical, Quoteless, Digits;
    var x := Canonical(EntryAt(k));
    assert OfSession(x);
    forall j: nat | x == Canonical(EntryAt(j)) ensures j == k {
      EntriesArePlain(k);
      CanonicalReadsBack(EntryAt(k), EntryAt(j));
    }
  }

  lemma CodedIsInjective(x: string, y: string)
    requires Coded(x) == Coded(y)
    ensures x == y
  {
    hide Canonical, Quoteless, Digits;
    assert Coded(x)[0] == Coded(y)[0];
    if OfSession(x) && OfSession(y) {
      var j: nat :| x == Canonical(EntryAt(j));
      var k: nat :| y == Canonical(EntryAt(k));
      CodeOfEntry(j);
      CodeOfEntry(k);
      assert Digits(j) == Code(j)[1..] && Digits(k) == Code(k)[1..];
      DigitsReadBack(j, k);
    } else if !OfSession(x) && !OfSession(y) {
      assert Quoteless(x) == Coded(x)[1..] && Quoteless(y) == Coded(y)[1..];
      QuotelessIsInjective(x, y);
    }
  }

  lemma CodedHasNoQuote(x: string)
    ensures '"' !in Coded(x)
  {
    hide Canonical, Quoteless, Digits;
    if OfSession(x) {
      var k: nat :| x == Canonical(EntryAt(k));
      CodeOfEntry(k);
      DigitsAreDigits(k);
    } else {
      QuotelessHasNoQuote(x);
    }
  }

  lemma TheNodeIsIdeal()
    ensures Ideal(TheNode()) && ConformantText(TheNode().org)
  {
    hide Coded, Quoteless;
    var n := TheNode();
    forall x, y | n.digest(x) == n.digest(y) ensures x == y { CodedIsInjective(x, y); }
    forall x ensures '"' !in n.digest(x) { CodedHasNoQuote(x); }
  }

  /** A genesis text is no entry. */
  lemma GenesisIsPlain(session: string)
    requires '"' !in session && '\\' !in session
    ensures Genesis(TheNode(), session) == "x" + (GENESIS_PREFIX + session)
  {
    hide Canonical, Quoteless;
    var x := GENESIS_PREFIX + session;
    forall k: nat ensures x != Canonical(EntryAt(k)) {
      EntryKind(EntryAt(k));
      assert x[2] == 'R';
    }
    assert !OfSession(x);
    PlainStaysPlain(x);
  }

  // ---- Sessions of every length ----

  ghost predicate Runs(log: Log, length: nat) {
    && Committed(TheNode(), log) && NAME in log.db.rows && log.founder.Keys == log.db.rows.Keys && log.founder[NAME] == NAME
    && |log.db.rows[NAME]| == length
    && forall i :: 0 <= i < length ==> log.db.rows[NAME][i].entry == EntryAt(i)
  }

  lemma EntryFits(k: nat)
    requires k < 0x8000_0000_0000_0000
    ensures |Canonical(EntryAt(k))| < CANONICAL_BUFFER
  {
    hide Canonical, Digits;
    if k > 0 { WordFits(k - 1); }
    EntryAlwaysFits(EntryAt(k));
  }

  /** The next submission is the next entry. */
  lemma NextIsNext(log: Log, length: nat)
    requires length > 0 && Runs(log, length)
    ensures NextEntry(TheNode(), log.db, Submission()) == EntryAt(length)
    ensures !Taken(Rows(log.db, NAME), length)
  {
    hide Canonical, Coded, Quoteless, MintedOk, HeadsOk;
    var n, rows := TheNode(), log.db.rows[NAME];
    assert SessionOk(n, log, NAME);
    assert LinkAt(n, NAME, rows, length - 1);
    CodeOfEntry(length - 1);
  }

  lemma FirstIsFirst()
    ensures NextEntry(TheNode(), Database(map[], map[]), Submission()) == EntryAt(0)
  {
    hide Canonical, Coded, Quoteless;
    GenesisIsPlain(NAME);
    assert "x" + (GENESIS_PREFIX + NAME) == "x" + GENESIS_PREFIX + NAME;
  }

  lemma SubmissionIsAcceptable()
    ensures Acceptable(Submission()) && SessionField(NAME) == NAME
  {
  }

  lemma {:induction false} EveryLength(length: nat) returns (log: Log)
    requires 0 < length <= 0x8000_0000_0000_0000
    ensures Runs(log, length)
  {
    hide Canonical, HeadText, MilestoneText, Coded, Quoteless, Committed, EntryAt, Ideal, NextEntry, Digits;
    var n := TheNode();
    TheNodeIsIdeal();
    SubmissionIsAcceptable();
    EntryFits(length - 1);
    EntryNames(length - 1);
    if length == 1 {
      log := Log(Database(map[], map[]), {}, map[]);
      EmptyLogIsCommitted(n);
      FirstIsFirst();
    } else {
      log := EveryLength(length - 1);
      NextIsNext(log, length - 1);
    }
    assert Admits(n, log.db, Submission());
    ExtendKeeps(n, log, Submission());
    log := Extend(n, log, Submission());
    FoundersAreSessions(n, log);
  }

  lemma EntryNames(k: nat)
    ensures EntryAt(k).session == NAME && EntryAt(k).sequence == k
  {
  }

  /** One ideal node commits sessions of every length, and each stands. */
  lemma EveryLengthIsReached(length: nat)
    requires 0 < length <= 0x8000_0000_0000_0000
    ensures Ideal(TheNode()) && ConformantText(TheNode().org)
    ensures exists log :: Committed(TheNode(), log) && |Rows(log.db, NAME)| == length && Stands(TheNode(), log.db, NAME)
  {
    hide Committed, Stands, Ideal, Coded, EntryAt;
    TheNodeIsIdeal();
    var log := EveryLength(length);
    OwnSessionStandsExactlyWhenFounded(TheNode(), log, NAME);
  }

  // ---- A name too long for its field ----

  /** On an empty database an ideal node accepts such a name, and its session does not stand. */
  lemma LongNameExample()
    ensures exists n: Node, r: Request ::
      var log := Log(Database(map[], map[]), {}, map[]);
      Ideal(n) && Admits(n, log.db, r) && !Stands(n, Extend(n, log, r).db, r.session)
  {
    hide Canonical, HeadText, MilestoneText, Stands, Coded, Quoteless, Ideal, Committed, Extend;
    var log := Log(Database(map[], map[]), {}, map[]);
    var n := TheNode();
    TheNodeIsIdeal();
    var r := Request(seq(64, i => 'a'), "observation", "first", ZeroHash(), 0, 0, true);
    GenesisIsPlain(r.session);
    EntryAlwaysFits(NextEntry(n, log.db, r));
    assert Admits(n, log.db, r);
    EmptyLogIsCommitted(n);
    LongNameNeverStands(n, log, r);
  }
}
