/** The claim verifier: staged checks of one evidence reference against signed bytes, and the verdict
    of a claim as the worst of its evidence. */
module ClaimVerify {
  import opened Prelude
  import opened Json

  datatype Verdict = Verified | Contradicted | Unverifiable | Incomplete | Stale | SchemaError

  function Rank(v: Verdict): nat {
    match v
    case Verified => 1
    case Unverifiable => 2
    case Stale => 3
    case Incomplete => 4
    case Contradicted => 5
    case SchemaError => 6
  }

  type Message = seq<int>

  /** What the signed bytes decode to. */
  datatype Signed = Signed(obsType: int, sequence: int, node: int, timestamp: int, output: string)

  datatype Raw = HexText(text: string) | RawBytes(bytes: Message)

  /** A corpus entry: the signed message and the unsigned fields beside it. */
  datatype Entry = Entry(
    message: Option<Raw>, node: Option<Value>, rawOutput: Option<Value>, payload: Option<Value>, status: Option<Value>)

  datatype Evidence = Evidence(obs: Value, node: Value, path: string, expected: Value)

  datatype Assertion = Assertion(operator: string, value: string)

  type Corpus = map<Value, Entry>

  /** The parts outside this module: hex decoding, the signature check, the C parser, identifier
      resolution, extraction and the assertion operators. */
  datatype Oracle = Oracle(
    unhex: string -> Option<Message>, verifies: Message -> bool, parse: Message -> Option<Signed>,
    resolve: Value -> Option<int>, extract: (string, string) -> Option<string>, holds: (string, Assertion) -> bool)

  datatype Finding = Finding(verdict: Verdict, extracted: Option<string>)

  const DEVICE_OUTPUT := 0x07

  // ---- One evidence reference ----

  function MessageOf(o: Oracle, e: Entry): Option<Message> {
    match e.message
    case None => None
    case Some(HexText(t)) => if t == "" then None else o.unhex(t)
    case Some(RawBytes(b)) => if b == [] then None else Some(b)
  }

  /** The signed content, when there is a message, its signature verifies and it is device output. */
  function SignedOf(o: Oracle, e: Entry): Option<Signed> {
    var m := MessageOf(o, e);
    if m.None? || !o.verifies(m.value) then None
    else
      var signed := o.parse(m.value);
      if signed.None? || signed.value.obsType != DEVICE_OUTPUT then None else signed
  }

  /** A claimed node must name the signed one; an absent or null claim is not checked. */
  function NodeCheck(o: Oracle, claimed: Option<Value>, signed: Signed): Option<Verdict> {
    if claimed.None? || claimed.value.Null? then None
    else
      var n := o.resolve(claimed.value);
      if n.None? then Some(Unverifiable) else if n.value != signed.node then Some(Contradicted) else None
  }

  predicate CopyAgrees(copy: Option<Value>, signed: Signed) { copy.None? || copy.value == Str(signed.output) }

  predicate Complete(status: Option<Value>) { status.None? || status.value == Str("COMPLETE") }

  function VerifyEvidence(o: Oracle, ev: Evidence, corpus: Corpus, window: real, now: real): Finding {
    if ev.obs !in corpus then Finding(Unverifiable, None) else Examine(o, ev, corpus[ev.obs], window, now)
  }

  function Examine(o: Oracle, ev: Evidence, e: Entry, window: real, now: real): Finding {
    var signed := SignedOf(o, e);
    if signed.None? then Finding(Unverifiable, None)
    else
      var s := signed.value;
      var obs := o.resolve(ev.obs);
      if obs.None? then Finding(Unverifiable, None)
      else if obs.value != s.sequence then Finding(Contradicted, None)
      else
        var mine, theirs := NodeCheck(o, Some(ev.node), s), NodeCheck(o, e.node, s);
        if mine.Some? then Finding(mine.value, None)
        else if theirs.Some? then Finding(theirs.value, None)
        else if !CopyAgrees(e.rawOutput, s) || !CopyAgrees(e.payload, s) then Finding(Contradicted, None)
        else if now - s.timestamp as real / 1000000000.0 > window then Finding(Stale, None)
        else if !Complete(e.status) then Finding(Incomplete, None)
        else Extraction(o, ev, s)
  }

  function Extraction(o: Oracle, ev: Evidence, s: Signed): Finding {
    var x := o.extract(s.output, ev.path);
    if x.None? then Finding(Unverifiable, None)
    else if Str(x.value) != ev.expected then Finding(Contradicted, x)
    else Finding(Verified, x)
  }

  // ---- Unsigned data ----

  function Stripped(e: Entry): Entry { Entry(e.message, None, None, None, None) }

  /** The unsigned fields, judged against the signed content alone. */
  predicate UnsignedAgrees(o: Oracle, e: Entry, s: Signed) {
    NodeCheck(o, e.node, s).None? && CopyAgrees(e.rawOutput, s) && CopyAgrees(e.payload, s) && Complete(e.status)
  }

  /** Unsigned fields can take a verification away and never give one: an entry verifies, with a value,
      exactly when it verifies with that value stripped bare and its unsigned fields agree. */
  lemma UnsignedDataOnlyDowngrades(o: Oracle, ev: Evidence, e: Entry, window: real, now: real, x: string)
    ensures Examine(o, ev, e, window, now) == Finding(Verified, Some(x)) <==>
      && Examine(o, ev, Stripped(e), window, now) == Finding(Verified, Some(x))
      && UnsignedAgrees(o, e, SignedOf(o, e).value)
  {
    assert SignedOf(o, Stripped(e)) == SignedOf(o, e);
  }

  /** Authentic, fresh device output of the observation and node the reference names. */
  predicate Authentic(o: Oracle, ev: Evidence, e: Entry, window: real, now: real) {
    && MessageOf(o, e).Some? && o.verifies(MessageOf(o, e).value)
    && var s := o.parse(MessageOf(o, e).value);
       && s.Some? && s.value.obsType == DEVICE_OUTPUT
       && o.resolve(ev.obs) == Some(s.value.sequence)
       && (ev.node.Null? || o.resolve(ev.node) == Some(s.value.node))
       && now - s.value.timestamp as real / 1000000000.0 <= window
  }

  /** What the authentic message says. */
  function Content(o: Oracle, ev: Evidence, e: Entry, window: real, now: real): Signed
    requires Authentic(o, ev, e, window, now)
  {
    o.parse(MessageOf(o, e).value).value
  }

  /** The unsigned copies beside the message do not disagree with it. */
  predicate CopiesAgree(o: Oracle, e: Entry, s: Signed) {
    && (e.node.None? || e.node.value.Null? || o.resolve(e.node.value) == Some(s.node))
    && CopyAgrees(e.rawOutput, s) && CopyAgrees(e.payload, s)
  }

  /** The collection status is said only to downgrade. It lowers the rank in exactly one case: the message
      is authentic, fresh and uncontested, says something other than what is expected where it is expected,
      and the status is not COMPLETE. A contradiction then shows as a milder INCOMPLETE. */
  lemma StatusLowersRankExactly(o: Oracle, ev: Evidence, e: Entry, window: real, now: real)
    ensures Rank(Examine(o, ev, e, window, now).verdict) < Rank(Examine(o, ev, e.(status := None), window, now).verdict) <==>
      && Authentic(o, ev, e, window, now)
      && var s := Content(o, ev, e, window, now);
         && CopiesAgree(o, e, s) && !Complete(e.status)
         && var x := o.extract(s.output, ev.path); x.Some? && Str(x.value) != ev.expected
  {
    var bare := e.(status := None);
    assert SignedOf(o, bare) == SignedOf(o, e);
    if SignedOf(o, e).Some? {
      var s := SignedOf(o, e).value;
      assert Complete(bare.status);
      assert Extraction(o, ev, s).verdict != Stale && Extraction(o, ev, s).verdict != Incomplete;
    }
  }

  // ---- The claim ----

  /** One evidence reference with the assertion applied to what was extracted. */
  function Judged(o: Oracle, a: Assertion, ev: Evidence, corpus: Corpus, window: real, now: real): Verdict {
    var f := VerifyEvidence(o, ev, corpus, window, now);
    if f.verdict == Verified && f.extracted.Some? && !o.holds(f.extracted.value, a) then Contradicted else f.verdict
  }

  method VerifyClaim(o: Oracle, schemaOk: bool, a: Assertion, evidence: seq<Evidence>, corpus: Corpus, window: real, now: real)
    returns (verdict: Verdict)
    ensures !schemaOk ==> verdict == SchemaError
    ensures schemaOk && evidence == [] ==> verdict == Unverifiable
    ensures schemaOk && evidence != [] ==> Worst(verdict, o, a, evidence, corpus, window, now)
  {
    hide VerifyEvidence;
    if !schemaOk { return SchemaError; }
    if evidence == [] { return Unverifiable; }
    var results: seq<Finding> := [];
    var i := 0;
    while i < |evidence|
      invariant 0 <= i == |results| <= |evidence|
      invariant forall k :: 0 <= k < i ==> results[k] == VerifyEvidence(o, evidence[k], corpus, window, now)
    {
      var f := VerifyEvidence(o, evidence[i], corpus, window, now);
      results := results + [f];
      i := i + 1;
    }
    i := 0;
    while i < |results|
      invariant 0 <= i <= |results| == |evidence|
      invariant forall k :: 0 <= k < i ==> results[k].verdict == Judged(o, a, evidence[k], corpus, window, now)
      invariant forall k :: i <= k < |results| ==> results[k] == VerifyEvidence(o, evidence[k], corpus, window, now)
    {
      if results[i].verdict == Verified && results[i].extracted.Some? && !o.holds(results[i].extracted.value, a) {
        results := results[i := results[i].(verdict := Contradicted)];
      }
      i := i + 1;
    }
    verdict := results[0].verdict;
    i := 1;
    while i < |results|
      invariant 1 <= i <= |results|
      invariant exists k :: 0 <= k < i && results[k].verdict == verdict
      invariant forall k :: 0 <= k < i ==> Rank(results[k].verdict) <= Rank(verdict)
    {
      if Rank(results[i].verdict) > Rank(verdict) { verdict := results[i].verdict; }
      i := i + 1;
    }
    var k :| 0 <= k < |results| && results[k].verdict == verdict;
    assert Judged(o, a, evidence[k], corpus, window, now) == verdict;
  }

  /** The verdict is some evidence's, and no evidence's is worse. */
  ghost predicate Worst(v: Verdict, o: Oracle, a: Assertion, evidence: seq<Evidence>, corpus: Corpus, window: real, now: real) {
    && (exists k :: 0 <= k < |evidence| && Judged(o, a, evidence[k], corpus, window, now) == v)
    && (forall k :: 0 <= k < |evidence| ==> Rank(Judged(o, a, evidence[k], corpus, window, now)) <= Rank(v))
  }

  /** A claim with evidence verifies exactly when every reference passes every stage and the assertion. */
  lemma VerifiedExactlyWhenAllPass(o: Oracle, a: Assertion, evidence: seq<Evidence>, corpus: Corpus, window: real, now: real, v: Verdict)
    requires Worst(v, o, a, evidence, corpus, window, now)
    ensures v == Verified <==> forall k :: 0 <= k < |evidence| ==> Passes(o, a, evidence[k], corpus, window, now)
  {
    hide VerifyEvidence;
    forall k | 0 <= k < |evidence|
      ensures Passes(o, a, evidence[k], corpus, window, now) <==> Judged(o, a, evidence[k], corpus, window, now) == Verified
    {
      VerifiedHasAValue(o, evidence[k], corpus, window, now);
    }
    var k :| 0 <= k < |evidence| && Judged(o, a, evidence[k], corpus, window, now) == v;
  }

  predicate Passes(o: Oracle, a: Assertion, ev: Evidence, corpus: Corpus, window: real, now: real) {
    var f := VerifyEvidence(o, ev, corpus, window, now);
    f.verdict == Verified && f.extracted.Some? && o.holds(f.extracted.value, a)
  }

  lemma VerifiedHasAValue(o: Oracle, ev: Evidence, corpus: Corpus, window: real, now: real)
    ensures VerifyEvidence(o, ev, corpus, window, now).verdict == Verified ==>
      VerifyEvidence(o, ev, corpus, window, now).extracted.Some?
  {
  }

  /** A reference the signed bytes bear out: they say what is expected where it is expected, with no
      unsigned field against it. */
  predicate Backed(o: Oracle, ev: Evidence, corpus: Corpus, window: real, now: real) {
    && ev.obs in corpus
    && var e := corpus[ev.obs];
       && Authentic(o, ev, e, window, now)
       && var s := Content(o, ev, e, window, now);
          && CopiesAgree(o, e, s) && Complete(e.status)
          && ev.expected.Str? && o.extract(s.output, ev.path) == Some(ev.expected.text)
  }

  lemma PassesExactlyWhenBacked(o: Oracle, a: Assertion, ev: Evidence, corpus: Corpus, window: real, now: real)
    ensures Passes(o, a, ev, corpus, window, now) <==>
      Backed(o, ev, corpus, window, now) && o.holds(ev.expected.text, a)
  {
  }

  function Bare(corpus: Corpus): Corpus { map k | k in corpus :: Stripped(corpus[k]) }

  /** A claim verifies exactly when the signed bytes back every reference and the assertion holds of what
      each expects; and then it verifies on the signed bytes alone. */
  lemma ClaimVerifiesExactlyWhenBacked(o: Oracle, a: Assertion, evidence: seq<Evidence>, corpus: Corpus, window: real, now: real,
                                       v: Verdict, bare: Verdict)
    requires Worst(v, o, a, evidence, corpus, window, now) && Worst(bare, o, a, evidence, Bare(corpus), window, now)
    ensures v == Verified <==> forall k :: 0 <= k < |evidence| ==>
      Backed(o, evidence[k], corpus, window, now) && o.holds(evidence[k].expected.text, a)
    ensures v == Verified ==> bare == Verified
  {
    hide Passes, Judged;
    VerifiedExactlyWhenAllPass(o, a, evidence, corpus, window, now, v);
    VerifiedExactlyWhenAllPass(o, a, evidence, Bare(corpus), window, now, bare);
    forall k | 0 <= k < |evidence|
      ensures Passes(o, a, evidence[k], corpus, window, now) <==>
        Backed(o, evidence[k], corpus, window, now) && o.holds(evidence[k].expected.text, a)
      ensures Passes(o, a, evidence[k], corpus, window, now) ==> Passes(o, a, evidence[k], Bare(corpus), window, now)
    {
      PassesExactlyWhenBacked(o, a, evidence[k], corpus, window, now);
      PassesExactlyWhenBacked(o, a, evidence[k], Bare(corpus), window, now);
      BareStaysBacked(o, evidence[k], corpus, window, now);
    }
  }

  lemma BareStaysBacked(o: Oracle, ev: Evidence, corpus: Corpus, window: real, now: real)
    ensures Backed(o, ev, corpus, window, now) ==> Backed(o, ev, Bare(corpus), window, now)
  {
    if ev.obs in corpus { assert MessageOf(o, Stripped(corpus[ev.obs])) == MessageOf(o, corpus[ev.obs]); }
  }

  ghost predicate IsVerdict(v: Verdict, o: Oracle, a: Assertion, evidence: seq<Evidence>, corpus: Corpus, window: real, now: real) {
    if evidence == [] then v == Unverifiable else Worst(v, o, a, evidence, corpus, window, now)
  }

  /** Adding evidence lowers the rank exactly when it is the first evidence and it passes: a claim
      with none is UNVERIFIABLE, which ranks worse than VERIFIED. */
  lemma AddingEvidenceLowersRankExactly(o: Oracle, a: Assertion, evidence: seq<Evidence>, more: Evidence,
                                        corpus: Corpus, window: real, now: real, before: Verdict, after: Verdict)
    requires IsVerdict(before, o, a, evidence, corpus, window, now)
    requires IsVerdict(after, o, a, evidence + [more], corpus, window, now)
    ensures Rank(after) < Rank(before) <==> evidence == [] && Passes(o, a, more, corpus, window, now)
  {
    hide VerifyEvidence;
    var all := evidence + [more];
    assert all[|evidence|] == more;
    VerifiedHasAValue(o, more, corpus, window, now);
    if evidence == [] {
      var k :| 0 <= k < |all| && Judged(o, a, all[k], corpus, window, now) == after;
      assert all[k] == more;
      JudgedNeverSchemaError(o, a, more, corpus, window, now);
    } else {
      var k :| 0 <= k < |evidence| && Judged(o, a, evidence[k], corpus, window, now) == before;
      assert all[k] == evidence[k];
    }
  }

  lemma JudgedNeverSchemaError(o: Oracle, a: Assertion, ev: Evidence, corpus: Corpus, window: real, now: real)
    ensures Judged(o, a, ev, corpus, window, now) != SchemaError
  {
  }

  // ---- Where the rank goes down ----

  /** Every message is authentic output "up" of observation 1 on node 1; extraction returns it whole. */
  function PlainOracle(): Oracle {
    Oracle(t => None, m => true, m => Some(Signed(DEVICE_OUTPUT, 1, 1, 0, "up")), v => Some(1), (s, p) => Some(s), (x, a) => true)
  }

  function Observed(status: Option<Value>): Entry { Entry(Some(RawBytes([1])), None, None, None, status) }

  function Reference(expected: string): Evidence { Evidence(Int(1), Null, "", Str(expected)) }

  /** A claim with no reference is UNVERIFIABLE; its first reference, passing, makes it VERIFIED. */
  lemma FirstReferenceLowersRank(a: Assertion)
    ensures var corpus := map[Int(1) := Observed(None)];
      && IsVerdict(Unverifiable, PlainOracle(), a, [], corpus, 1.0, 0.0)
      && IsVerdict(Verified, PlainOracle(), a, [Reference("up")], corpus, 1.0, 0.0)
    ensures Rank(Verified) < Rank(Unverifiable)
  {
    var corpus := map[Int(1) := Observed(None)];
    assert [Reference("up")][0] == Reference("up");
    assert Judged(PlainOracle(), a, [Reference("up")][0], corpus, 1.0, 0.0) == Verified;
  }

  /** A partial entry whose output contradicts the reference is reported INCOMPLETE. */
  lemma PartialHidesContradiction()
    ensures Examine(PlainOracle(), Reference("down"), Observed(Some(Str("PARTIAL"))), 1.0, 0.0).verdict == Incomplete
    ensures Examine(PlainOracle(), Reference("down"), Observed(None), 1.0, 0.0).verdict == Contradicted
    ensures Rank(Incomplete) < Rank(Contradicted)
  {
    assert "up"[0] != "down"[0];
    assert "PARTIAL"[0] != "COMPLETE"[0];
  }
}
