/** The three texts a chain node authenticates (entry, head, milestone) and why none can be mistaken
    for another: the canonical forms paste string members without escaping, yet read back uniquely. */
module ChainCanonical {
  import opened Numerals
  import opened Template

  datatype Entry = Entry(
    artifactHash: string, hashAlg: string, artifactId: string, schemaVersion: string,
    artifactType: string, monotonic: nat, previous: string, sequence: int, session: string,
    nodeId: nat, orgId: string, timestamp: nat)

  // ---- Reading a text with holes back ----

  /** How many double quotes a text holds. */
  function Quotes(s: string): nat {
    if s == [] then 0 else (if s[0] == '"' then 1 else 0) + Quotes(s[1..])
  }

  function QuotesIn(texts: seq<string>): nat {
    if texts == [] then 0 else Quotes(texts[0]) + QuotesIn(texts[1..])
  }

  lemma {:induction false} QuotesOfSum(a: string, b: string)
    ensures Quotes(a + b) == Quotes(a) + Quotes(b)
  {
    if a == [] {
      assert a + b == b;
    } else {
      QuotesOfSum(a[1..], b);
      assert (a + b)[1..] == a[1..] + b;
    }
  }

  lemma {:induction false} QuotesOfWeave(lits: seq<string>, vals: seq<string>)
    requires |lits| == |vals| + 1
    ensures Quotes(Weave(lits, vals)) == QuotesIn(lits) + QuotesIn(vals)
  {
    if vals == [] {
      assert lits[1..] == [];
      assert QuotesIn(lits) == Quotes(lits[0]) + QuotesIn(lits[1..]);
    } else {
      QuotesOfWeave(lits[1..], vals[1..]);
      QuotesOfSum(vals[0], Weave(lits[1..], vals[1..]));
      QuotesOfSum(lits[0], vals[0] + Weave(lits[1..], vals[1..]));
    }
  }

  lemma {:induction false} NoQuotesMeansNone(s: string)
    ensures Quotes(s) == 0 <==> '"' !in s
  {
    if s != [] {
      NoQuotesMeansNone(s[1..]);
      assert s == [s[0]] + s[1..];
    }
  }

  lemma {:induction false} NoQuotesInAny(texts: seq<string>)
    ensures QuotesIn(texts) == 0 <==> forall i :: 0 <= i < |texts| ==> '"' !in texts[i]
  {
    if texts != [] {
      NoQuotesMeansNone(texts[0]);
      NoQuotesInAny(texts[1..]);
      assert forall i :: 1 <= i < |texts| ==> texts[i] == texts[1..][i - 1];
      assert forall i :: 0 <= i < |texts[1..]| ==> texts[1..][i] == texts[i + 1];
    }
  }

  /** Two texts cut at the first `mark` agree on both sides of the cut. */
  lemma CutAtMark(a: string, x: string, b: string, y: string, mark: char)
    requires mark !in a && mark !in b
    requires |x| > 0 && x[0] == mark && |y| > 0 && y[0] == mark
    requires a + x == b + y
    ensures a == b && x == y
  {
    assert forall i :: 0 <= i < |a| ==> (a + x)[i] == a[i];
    assert forall i :: 0 <= i < |b| ==> (b + y)[i] == b[i];
    assert (a + x)[|a|] == mark && (b + y)[|b|] == mark;
    assert a == (a + x)[..|a|] && b == (b + y)[..|b|];
    assert x == (a + x)[|a|..] && y == (b + y)[|b|..];
  }

  /** The literal after hole `i` begins with a character its value does not hold. */
  ghost predicate MarkedAt(lits: seq<string>, vals: seq<string>, i: nat)
    requires i < |vals| && |lits| == |vals| + 1
  {
    |lits[i + 1]| > 0 && lits[i + 1][0] !in vals[i]
  }

  ghost predicate Marked(lits: seq<string>, vals: seq<string>) {
    |lits| == |vals| + 1 && forall i: nat :: i < |vals| ==> MarkedAt(lits, vals, i)
  }

  lemma MarkedTail(lits: seq<string>, vals: seq<string>)
    requires Marked(lits, vals) && vals != []
    ensures Marked(lits[1..], vals[1..])
  {
    forall i: nat | i < |vals[1..]| ensures MarkedAt(lits[1..], vals[1..], i) {
      assert MarkedAt(lits, vals, i + 1);
    }
  }

  lemma {:induction false} WeaveReadsBack(lits: seq<string>, v: seq<string>, w: seq<string>)
    requires Marked(lits, v) && Marked(lits, w)
    requires Weave(lits, v) == Weave(lits, w)
    ensures v == w
  {
    hide MarkedAt;
    if v != [] {
      var restV, restW := Weave(lits[1..], v[1..]), Weave(lits[1..], w[1..]);
      assert v[0] + restV == Weave(lits, v)[|lits[0]|..];
      assert w[0] + restW == Weave(lits, w)[|lits[0]|..];
      FirstMark(lits, v);
      FirstMark(lits, w);
      WeaveStartsWithItsLiteral(lits[1..], v[1..]);
      WeaveStartsWithItsLiteral(lits[1..], w[1..]);
      CutAtMark(v[0], restV, w[0], restW, lits[1][0]);
      MarkedTail(lits, v);
      MarkedTail(lits, w);
      WeaveReadsBack(lits[1..], v[1..], w[1..]);
      assert v == [v[0]] + v[1..] && w == [w[0]] + w[1..];
    }
  }

  lemma FirstMark(lits: seq<string>, vals: seq<string>)
    requires Marked(lits, vals) && vals != []
    ensures |lits[1]| > 0 && lits[1][0] !in vals[0]
  {
    assert MarkedAt(lits, vals, 0);
  }

  lemma WeaveStartsWithItsLiteral(lits: seq<string>, vals: seq<string>)
    requires |lits| == |vals| + 1 && |lits[0]| > 0
    ensures |Weave(lits, vals)| > 0 && Weave(lits, vals)[0] == lits[0][0]
    ensures Weave(lits, vals)[..|lits[0]|] == lits[0]
  {
  }

  /** Only one side need be known free of quotes: equal texts hold equally many, and the literals
      already account for all of them. */
  lemma QuoteFreeSideDecides(lits: seq<string>, v: seq<string>, w: seq<string>)
    requires |lits| == |v| + 1 == |w| + 1
    requires forall i :: 0 <= i < |v| ==> '"' !in v[i]
    requires forall i: nat :: i < |v| ==> QuotedOrMarked(lits, v, w, i)
    requires Weave(lits, v) == Weave(lits, w)
    ensures v == w
  {
    hide Weave, QuotesIn;
    QuotesOfWeave(lits, v);
    QuotesOfWeave(lits, w);
    NoQuotesInAny(v);
    NoQuotesInAny(w);
    forall i: nat | i < |v| ensures MarkedAt(lits, v, i) && MarkedAt(lits, w, i) {
      assert QuotedOrMarked(lits, v, w, i);
    }
    WeaveReadsBack(lits, v, w);
  }

  ghost predicate QuotedOrMarked(lits: seq<string>, v: seq<string>, w: seq<string>, i: nat)
    requires i < |v| == |w| && |lits| == |v| + 1
  {
    |lits[i + 1]| > 0 && (lits[i + 1][0] == '"' || (MarkedAt(lits, v, i) && MarkedAt(lits, w, i)))
  }

  // ---- The three authenticated texts ----

  const ENTRY_FORM: seq<string> := [
    "{\"artifact_hash\":\"", "\",\"artifact_hash_alg\":\"", "\",\"artifact_id\":\"",
    "\",\"artifact_schema_version\":\"", "\",\"artifact_type\":\"", "\",\"monotonic_ns\":",
    ",\"previous_entry_hash\":\"", "\",\"sequence\":", ",\"session_id\":\"",
    "\",\"signer_node_id\":", ",\"signer_org_id\":\"", "\",\"timestamp_ns\":", "}"]

  const HEAD_FORM: seq<string> := [
    "{\"last_entry_hash\":\"", "\",\"last_sequence\":", ",\"session_id\":\"",
    "\",\"v\":\"VIRP-CHAIN-HEAD-v1\"}"]

  const MILESTONE_FORM: seq<string> := [
    "{\"cumulative_hash\":\"", "\",\"entries_covered\":", ",\"sequence\":", ",\"session_id\":\"", "\"}"]

  function Members(e: Entry): (r: seq<string>)
    ensures |r| == 12
  {
    [e.artifactHash, e.hashAlg, e.artifactId, e.schemaVersion, e.artifactType, Digits(e.monotonic),
     e.previous, Decimal(e.sequence), e.session, Digits(e.nodeId), e.orgId, Digits(e.timestamp)]
  }

  function Canonical(e: Entry): string { Weave(ENTRY_FORM, Members(e)) }

  function HeadMembers(session: string, last: int, hash: string): seq<string> { [hash, Decimal(last), session] }

  function HeadText(session: string, last: int, hash: string): string {
    Weave(HEAD_FORM, HeadMembers(session, last, hash))
  }

  function MilestoneText(session: string, sequence: int, covered: int, hash: string): string {
    Weave(MILESTONE_FORM, [hash, Decimal(covered), Decimal(sequence), session])
  }

  predicate QuoteFree(e: Entry) {
    && '"' !in e.artifactHash && '"' !in e.hashAlg && '"' !in e.artifactId && '"' !in e.schemaVersion
    && '"' !in e.artifactType && '"' !in e.previous && '"' !in e.session && '"' !in e.orgId
  }

  lemma NumbersArePlain(e: Entry)
    ensures forall c | c == '"' || c == ',' || c == '}' ::
      c !in Digits(e.monotonic) && c !in Decimal(e.sequence) && c !in Digits(e.nodeId) && c !in Digits(e.timestamp)
  {
    DigitsAreDigits(e.monotonic);
    DecimalIsPlain(e.sequence);
    DigitsAreDigits(e.nodeId);
    DigitsAreDigits(e.timestamp);
  }

  lemma EntryFormIsMarked(e: Entry, f: Entry)
    ensures forall i: nat :: i < 12 ==> QuotedOrMarked(ENTRY_FORM, Members(e), Members(f), i)
  {
    hide Digits, Decimal;
    NumbersArePlain(e);
    NumbersArePlain(f);
  }

  lemma MembersAreQuoteFree(e: Entry)
    requires QuoteFree(e)
    ensures forall i :: 0 <= i < 12 ==> '"' !in Members(e)[i]
  {
    hide Digits, Decimal;
    NumbersArePlain(e);
  }

  lemma MembersReadBack(e: Entry, f: Entry)
    requires Members(e) == Members(f)
    ensures e == f
  {
    hide Digits, Decimal;
    var v, w := Members(e), Members(f);
    assert v[5] == w[5] && v[7] == w[7] && v[9] == w[9] && v[11] == w[11];
    DigitsReadBack(e.monotonic, f.monotonic);
    DecimalReadsBack(e.sequence, f.sequence);
    DigitsReadBack(e.nodeId, f.nodeId);
    DigitsReadBack(e.timestamp, f.timestamp);
    assert v[0] == w[0] && v[1] == w[1] && v[2] == w[2] && v[3] == w[3] && v[4] == w[4];
    assert v[6] == w[6] && v[8] == w[8] && v[10] == w[10];
  }

  /** The canonical form of an entry whose string members hold no quote is that of no other entry. */
  lemma CanonicalReadsBack(e: Entry, f: Entry)
    requires QuoteFree(e)
    requires Canonical(e) == Canonical(f)
    ensures e == f
  {
    hide Members, Weave, QuotedOrMarked, QuoteFree;
    EntryFormIsMarked(e, f);
    MembersAreQuoteFree(e);
    QuoteFreeSideDecides(ENTRY_FORM, Members(e), Members(f));
    MembersReadBack(e, f);
  }

  lemma HeadTextReadsBack(session: string, last: int, hash: string, session': string, last': int, hash': string)
    requires '"' !in session && '"' !in hash
    requires HeadText(session, last, hash) == HeadText(session', last', hash')
    ensures session == session' && last == last' && hash == hash'
  {
    hide Decimal, Weave;
    var v, w := HeadMembers(session, last, hash), HeadMembers(session', last', hash');
    DecimalIsPlain(last);
    DecimalIsPlain(last');
    forall i: nat | i < 3 ensures QuotedOrMarked(HEAD_FORM, v, w, i) { }
    QuoteFreeSideDecides(HEAD_FORM, v, w);
    assert v[0] == w[0] && v[1] == w[1] && v[2] == w[2];
    DecimalReadsBack(last, last');
  }

  lemma EntryKind(e: Entry)
    ensures |Canonical(e)| > 2 && Canonical(e)[2] == 'a'
  {
    WeaveStartsWithItsLiteral(ENTRY_FORM, Members(e));
    assert Canonical(e)[..|ENTRY_FORM[0]|][2] == 'a';
  }

  lemma HeadKind(s: string, last: int, hash: string)
    ensures |HeadText(s, last, hash)| > 2 && HeadText(s, last, hash)[2] == 'l'
  {
    WeaveStartsWithItsLiteral(HEAD_FORM, HeadMembers(s, last, hash));
    assert HeadText(s, last, hash)[..|HEAD_FORM[0]|][2] == 'l';
  }

  lemma MilestoneKind(s: string, sequence: int, covered: int, hash: string)
    ensures |MilestoneText(s, sequence, covered, hash)| > 2 && MilestoneText(s, sequence, covered, hash)[2] == 'c'
  {
    WeaveStartsWithItsLiteral(MILESTONE_FORM, [hash, Decimal(covered), Decimal(sequence), s]);
    assert MilestoneText(s, sequence, covered, hash)[..|MILESTONE_FORM[0]|][2] == 'c';
  }

  ghost predicate IsEntryText(t: string) { exists e :: t == Canonical(e) }

  ghost predicate IsHeadText(t: string) { exists s, last, hash :: t == HeadText(s, last, hash) }

  ghost predicate IsMilestoneText(t: string) { exists s, i, covered, hash :: t == MilestoneText(s, i, covered, hash) }

  /** The same key authenticates all three kinds of text; none is ever the text of another kind. */
  lemma KindsNeverCollide(t: string)
    ensures IsEntryText(t) ==> !IsHeadText(t) && !IsMilestoneText(t)
    ensures IsHeadText(t) ==> !IsMilestoneText(t)
  {
    hide Canonical, HeadText, MilestoneText;
    if IsEntryText(t) { var e :| t == Canonical(e); EntryKind(e); }
    if IsHeadText(t) { var s, last, hash :| t == HeadText(s, last, hash); HeadKind(s, last, hash); }
    if IsMilestoneText(t) {
      var s, i, covered, hash :| t == MilestoneText(s, i, covered, hash);
      MilestoneKind(s, i, covered, hash);
    }
  }

  // ---- The canonical buffer ----

  /** No entry whose members fit their declared fields overflows the canonical buffer of 2048 bytes. */
  lemma EntryAlwaysFits(e: Entry)
    requires |e.artifactHash| < 65 && |e.hashAlg| < 8 && |e.artifactId| < 128 && |e.schemaVersion| < 8
    requires |e.artifactType| < 16 && |e.previous| < 128 && |e.session| < 64 && |e.orgId| < 64
    requires e.monotonic < 0x1_0000_0000_0000_0000 && e.timestamp < 0x1_0000_0000_0000_0000
    requires e.nodeId < 0x1_0000_0000 && -0x8000_0000_0000_0000 <= e.sequence < 0x8000_0000_0000_0000
    ensures |Canonical(e)| < 2048
  {
    hide Weave, Digits, TotalLength;
    WordFits(e.monotonic);
    WordFits(e.timestamp);
    WordFits(e.nodeId);
    WordFits(if e.sequence < 0 then -e.sequence else e.sequence);
    var members := Members(e);
    WeaveLength(ENTRY_FORM, members);
    LiteralsFit();
    BoundedTotal(members, 127);
  }

  lemma LiteralsFit()
    ensures TotalLength(ENTRY_FORM) <= 377
  {
    hide TotalLength;
    BoundedTotal(ENTRY_FORM, 29);
  }
}
