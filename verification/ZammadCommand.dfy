/** The one typed Zammad write: its grammar, its single spelling, and the JSON it becomes. */
module ZammadCommand {
  import opened Prelude
  import opened Ingress
  import opened ZammadBody

  const DIGITS_MAX := 20
  const COMMAND_MAX := 1792
  const BODY_ENC_MAX := 1536
  const OP_ID_MAX := 64
  const OP_ID := "ticket.article.create"

  datatype Request = Request(id: string, body: string)

  predicate IsDigit(c: char) { '0' <= c <= '9' }

  predicate AllDigits(s: string) { forall i :: 0 <= i < |s| ==> IsDigit(s[i]) }

  /** 1 to 20 digits, no leading zero unless the number is exactly "0". */
  predicate CanonicalNumber(s: string) {
    1 <= |s| <= DIGITS_MAX && AllDigits(s) && (|s| > 1 ==> s[0] != '0')
  }

  predicate Legal(q: Request) {
    CanonicalNumber(q.id) && LegalBody(q.body) && 1 <= |q.body| <= BODY_MAX
  }

  const HEAD := "zammad " + "op=" + OP_ID + " " + "id="
  const MIDDLE := " body=\""

  /** The spelling of a request. */
  function Render(q: Request): string {
    HEAD + q.id + MIDDLE + Encode(q.body) + "\""
  }

  predicate HasAt(s: string, p: nat, text: string) {
    p + |text| <= |s| && s[p..p + |text|] == text
  }

  // ---- Scanning ----

  method ScanTo(s: string, from: nat, stop: char) returns (to: nat)
    requires from <= |s|
    ensures from <= to <= |s|
    ensures forall i :: from <= i < to ==> s[i] != stop
    ensures to < |s| ==> s[to] == stop
  {
    to := from;
    while to < |s| && s[to] != stop
      invariant from <= to <= |s|
      invariant forall i :: from <= i < to ==> s[i] != stop
    {
      to := to + 1;
    }
  }

  /** The first occurrence of `text` at or after `from`, or the length of `s`. */
  function FirstAt(s: string, text: string, from: nat): (at: nat)
    requires from <= |s|
    ensures from <= at <= |s|
    ensures forall j :: from <= j < at ==> !HasAt(s, j, text)
    decreases |s| - from
  {
    if from == |s| || HasAt(s, from, text) then from else FirstAt(s, text, from + 1)
  }

  predicate NoControls(s: string) { forall i :: 0 <= i < |s| ==> !IsControl(s[i]) }

  predicate NoSpaceRuns(s: string, upTo: nat) {
    forall i :: 0 <= i < upTo && i + 1 < |s| ==> !(s[i] == ' ' && s[i + 1] == ' ')
  }

  /** The byte guards that run before any token is looked at. */
  method CheckBytes(cmd: string) returns (r: Option<Reason>)
    ensures r.None? <==> NoControls(cmd) && NoSpaceRuns(cmd, FirstAt(cmd, MIDDLE, 0))
  {
    var guard := FirstAt(cmd, MIDDLE, 0);
    var i := 0;
    while i < |cmd|
      invariant 0 <= i <= |cmd|
      invariant forall j :: 0 <= j < i ==> !IsControl(cmd[j])
      invariant forall j :: 0 <= j < i && j < guard && j + 1 < |cmd| ==> !(cmd[j] == ' ' && cmd[j + 1] == ' ')
    {
      if IsControl(cmd[i]) { return Some(Charset); }
      if i < guard && cmd[i] == ' ' && i + 1 < |cmd| && cmd[i + 1] == ' ' { return Some(Grammar); }
      i := i + 1;
    }
    r := None;
  }

  // ---- The parser ----

  /** An id word and a body text in the command's frame, whether or not they are legal. */
  datatype Frame = Frame(id: string, enc: string)

  ghost predicate Framed(cmd: string, f: Frame) {
    var n := |f.id|;
    && |cmd| == 43 + n + |f.enc| < COMMAND_MAX
    && cmd[..35] == HEAD
    && cmd[35..35 + n] == f.id
    && HasAt(cmd, 35 + n, MIDDLE)
    && cmd[42 + n..42 + n + |f.enc|] == f.enc
    && cmd[|cmd| - 1] == '"'
    && ' ' !in f.id && '"' !in f.enc
    && NoControls(cmd)
    && NoSpaceRuns(cmd, 35 + n)
  }

  /** What a framed command deserves: the reason is that of its first bad part. */
  function Verdict(f: Frame): Result<Request, Reason> {
    if !CanonicalNumber(f.id) then Err(BadId)
    else if |f.enc| > BODY_ENC_MAX then Err(Length)
    else
      var body := Decoded(f.enc, BODY_MAX);
      if body.Err? then Err(body.error) else if body.value == [] then Err(Length) else Ok(Request(f.id, body.value))
  }

  function FrameOf(q: Request): Frame { Frame(q.id, Encode(q.body)) }

  lemma RenderIsFramed(q: Request)
    requires Legal(q)
    ensures Framed(Render(q), FrameOf(q)) && Verdict(FrameOf(q)) == Ok(q) && SeparatorGuard(Render(q))
  {
    hide Encode, Decoded, NoSpaceRuns, SeparatorGuard;
    var cmd, enc := Render(q), Encode(q.body);
    EncodingPassesTheGuard(q.body);
    RenderPassesTheGuard(q);
    GuardMeansNoControls(cmd);
    HeadHasNoSpaceRuns();
    assert |MIDDLE| == 7;
    PartsOf(HEAD, q.id, MIDDLE, enc, cmd);
    NoRunsBeforeBody(cmd, q.id);
    DecodeInvertsEncode(q.body, BODY_MAX);
  }

  lemma PartsOf(head: string, id: string, middle: string, enc: string, cmd: string)
    requires cmd == head + id + middle + enc + "\""
    ensures var a := |head|; var b := a + |id|; var c := b + |middle|;
      && |cmd| == c + |enc| + 1
      && cmd[..a] == head && cmd[a..b] == id && cmd[b..c] == middle && cmd[c..c + |enc|] == enc && cmd[|cmd| - 1] == '"'
  {
  }

  lemma GuardMeansNoControls(cmd: string)
    requires SeparatorGuard(cmd)
    ensures NoControls(cmd)
  {
  }

  lemma NoRunsBeforeBody(cmd: string, id: string)
    requires |cmd| >= 35 + |id| && cmd[..35] == HEAD && cmd[35..35 + |id|] == id && ' ' !in id
    ensures NoSpaceRuns(cmd, 35 + |id|)
  {
    HeadHasNoSpaceRuns();
    assert forall i :: 0 <= i < 35 ==> cmd[i] == HEAD[i];
    assert forall i :: 35 <= i < 35 + |id| ==> cmd[i] == id[i - 35];
    assert cmd[34] == '=';
  }

  lemma HeadHasNoSpaceRuns()
    ensures |HEAD| == 35 && HEAD[34] == '=' && NoSpaceRuns(HEAD, 35)
  {
    HeadIs();
    var a, b, c, d := HEAD[0..7], HEAD[7..10], HEAD[10..31], HEAD[32..35];
    assert forall i :: 0 <= i < 7 ==> HEAD[i] == a[i];
    assert forall i :: 7 <= i < 10 ==> HEAD[i] == b[i - 7];
    assert forall i :: 10 <= i < 31 ==> HEAD[i] == c[i - 10];
    assert forall i :: 32 <= i < 35 ==> HEAD[i] == d[i - 32];
    OpIdHasNoSpace();
    assert forall i :: 0 <= i < 35 && HEAD[i] == ' ' ==> i == 6 || i == 31;
  }

  lemma OpIdHasNoSpace()
    ensures |OP_ID| == 21 && ' ' !in OP_ID
  {
  }

  /** No command the driver accepts is refused at the ingress boundary. */
  lemma RenderPassesTheGuard(q: Request)
    requires Legal(q)
    ensures SeparatorGuard(Render(q))
  {
    hide Encode;
    var enc := Encode(q.body);
    EncodingPassesTheGuard(q.body);
    LiteralsPass();
    assert SeparatorGuard(q.id);
    GuardOfSum(HEAD, q.id);
    GuardOfSum(HEAD + q.id, MIDDLE);
    GuardOfSum(HEAD + q.id + MIDDLE, enc);
    EncodingNeverEndsOpen(q.body);
    GuardOfSum(HEAD + q.id + MIDDLE + enc, "\"");
  }

  lemma OpIdPasses()
    ensures SeparatorGuard(OP_ID)
  {
  }

  lemma KeysPass()
    ensures SeparatorGuard("zammad ") && SeparatorGuard("op=") && SeparatorGuard(" ") && SeparatorGuard("id=")
  {
  }

  lemma LiteralsPass()
    ensures SeparatorGuard(HEAD) && SeparatorGuard(MIDDLE) && SeparatorGuard("\"")
  {
    assert SeparatorGuard(MIDDLE);
    assert SeparatorGuard("\"");
    hide SeparatorGuard;
    KeysPass();
    OpIdPasses();
    GuardOfSum("zammad ", "op=");
    GuardOfSum("zammad " + "op=", OP_ID);
    GuardOfSum("zammad " + "op=" + OP_ID, " ");
    GuardOfSum("zammad " + "op=" + OP_ID + " ", "id=");
  }

  lemma {:induction false} EncodingNeverEndsOpen(body: string)
    requires LegalBody(body) && body != []
    ensures Encode(body) != [] && Encode(body)[|Encode(body)| - 1] != '$'
  {
    EscapesPassTheGuard(body[0]);
    if |body| > 1 {
      EncodingNeverEndsOpen(body[1..]);
    } else {
      assert Encode(body[1..]) == [];
      assert Encode(body) == EncodeChar(body[0]);
    }
  }

  /** The one frame of a command, if it has one. */
  lemma FrameIsUnique(cmd: string, f: Frame, g: Frame)
    requires Framed(cmd, f) && Framed(cmd, g)
    ensures f == g
  {
    hide NoControls, NoSpaceRuns;
    var n, m := |f.id|, |g.id|;
    assert cmd[35 + n] == cmd[35 + n..42 + n][0] && cmd[35 + m] == cmd[35 + m..42 + m][0];
    assert forall i :: 35 <= i < 35 + n ==> cmd[i] == f.id[i - 35];
    assert forall i :: 35 <= i < 35 + m ==> cmd[i] == g.id[i - 35];
  }

  /** Accepts exactly the spellings of legal requests; a framed command is refused for its first bad part. */
  method ParseCommand(cmd: string) returns (r: Result<Request, Reason>)
    ensures r.Ok? ==> Legal(r.value) && cmd == Render(r.value)
    ensures forall q :: Legal(q) && Render(q) == cmd ==> r == Ok(q)
    ensures forall f :: Framed(cmd, f) ==> r == Verdict(f)
  {
    hide Framed, Verdict, Encode, Decoded, Legal, Render;
    ghost var framed := exists f :: Framed(cmd, f);
    ghost var f := Frame("", "");
    if framed {
      f :| Framed(cmd, f);
      forall g | Framed(cmd, g) ensures g == f { FrameIsUnique(cmd, f, g); }
    }
    forall q | Legal(q) && Render(q) == cmd ensures framed && Verdict(f) == Ok(q) { RenderIsFramed(q); }
    r := ParseFramed(cmd, framed, f);
  }

  /** The parser itself; `f` is the command's frame, if it is framed. */
  method ParseFramed(cmd: string, ghost framed: bool, ghost f: Frame) returns (r: Result<Request, Reason>)
    requires framed ==> Framed(cmd, f)
    ensures r.Ok? ==> Legal(r.value) && cmd == Render(r.value)
    ensures framed ==> r == Verdict(f)
  {
    hide Encode, Decoded, NoControls, NoSpaceRuns, CanonicalNumber, LegalBody, Framed;
    if framed { FrameFacts(cmd, f); }
    if |cmd| == 0 || |cmd| >= COMMAND_MAX { return Err(Grammar); }
    var bytes := CheckBytes(cmd);
    if bytes.Some? { return Err(bytes.value); }
    if cmd[|cmd| - 1] == ' ' { return Err(Grammar); }
    if framed { HeadParts(cmd); }
    if !HasAt(cmd, 0, "zammad ") { return Err(Grammar); }
    if !HasAt(cmd, 7, "op=") { return Err(Grammar); }
    var p := ScanTo(cmd, 10, ' ');
    if framed { OpEnds(cmd, p); }
    if p - 10 >= OP_ID_MAX { return Err(Grammar); }
    if cmd[10..p] != OP_ID { return Err(UnknownOp); }
    if p == |cmd| { return Err(Grammar); }
    if !HasAt(cmd, p + 1, "id=") { return Err(Grammar); }
    var q := ScanTo(cmd, p + 4, ' ');
    var id := cmd[p + 4..q];
    if framed { IdEnds(cmd, f, q); }
    if !CanonicalNumber(id) { return Err(BadId); }
    var body := ParseBody(cmd, q, framed, f);
    if body.Err? { return Err(body.error); }
    PiecesMakeTheCommand(cmd, p, q, |cmd| - 1);
    r := Ok(Request(id, body.value));
  }

  /** The quoted body, which ends the command. */
  method ParseBody(cmd: string, q: nat, ghost framed: bool, ghost f: Frame) returns (r: Result<string, Reason>)
    requires q <= |cmd| && (q < |cmd| ==> cmd[q] == ' ')
    requires framed ==> Framed(cmd, f) && q == 35 + |f.id| && CanonicalNumber(f.id)
    ensures r.Ok? ==>
      && q + 8 <= |cmd| && HasAt(cmd, q + 1, "body=") && cmd[q + 6] == '"' && cmd[|cmd| - 1] == '"'
      && r.value != [] && |r.value| <= BODY_MAX && LegalBody(r.value)
      && Encode(r.value) == cmd[q + 7..|cmd| - 1] && |Encode(r.value)| <= BODY_ENC_MAX
    ensures framed ==> Verdict(f) == if r.Ok? then Ok(Request(f.id, r.value)) else Err(r.error)
  {
    hide Encode, Decoded, CanonicalNumber, LegalBody, Framed;
    if framed { BodyStarts(cmd, f); }
    if q == |cmd| || !HasAt(cmd, q + 1, "body=") { return Err(Grammar); }
    if q + 6 == |cmd| || cmd[q + 6] != '"' { return Err(BadQuotes); }
    var e := ScanTo(cmd, q + 7, '"');
    if framed { BodyEnds(cmd, f, q, e); }
    if e == |cmd| || e + 1 != |cmd| { return Err(BadQuotes); }
    var enc := cmd[q + 7..e];
    if |enc| > BODY_ENC_MAX { return Err(Length); }
    var out := new char[BODY_MAX + 1];
    var n := DecodeBody(enc, out);
    if n.Err? { return Err(n.error); }
    if n.value == 0 { return Err(Length); }
    EncodeInvertsDecode(enc, BODY_MAX);
    r := Ok(out[..n.value]);
  }

  lemma BodyStarts(cmd: string, f: Frame)
    requires Framed(cmd, f)
    ensures var q := 35 + |f.id|; q + 6 < |cmd| && HasAt(cmd, q + 1, "body=") && cmd[q + 6] == '"'
  {
    hide NoControls, NoSpaceRuns;
    MiddleParts(cmd, 35 + |f.id|);
  }

  lemma FrameFacts(cmd: string, f: Frame)
    requires Framed(cmd, f)
    ensures 35 <= |cmd| < COMMAND_MAX && cmd[..35] == HEAD && cmd[|cmd| - 1] == '"'
    ensures NoControls(cmd) && NoSpaceRuns(cmd, FirstAt(cmd, MIDDLE, 0))
  {
    assert FirstAt(cmd, MIDDLE, 0) <= 35 + |f.id|;
  }

  lemma HeadIs()
    ensures |HEAD| == 35
    ensures HEAD[0..7] == "zammad " && HEAD[7..10] == "op=" && HEAD[10..31] == OP_ID && HEAD[31] == ' ' && HEAD[32..35] == "id="
  {
  }

  lemma HeadParts(cmd: string)
    requires |cmd| >= 35 && cmd[..35] == HEAD
    ensures HasAt(cmd, 0, "zammad ") && HasAt(cmd, 7, "op=") && HasAt(cmd, 32, "id=")
    ensures cmd[10..31] == OP_ID && cmd[31] == ' '
  {
    HeadIs();
    assert cmd[0..7] == cmd[..35][0..7] && cmd[7..10] == cmd[..35][7..10];
    assert cmd[10..31] == cmd[..35][10..31] && cmd[32..35] == cmd[..35][32..35];
    assert cmd[31] == cmd[..35][31];
  }

  /** A scan stops right after a word that does not hold the stop character. */
  lemma ScanEndsAt(s: string, from: nat, word: string, stop: char, to: nat)
    requires from + |word| < |s| && s[from..from + |word|] == word && stop !in word && s[from + |word|] == stop
    requires from <= to <= |s| && (forall i :: from <= i < to ==> s[i] != stop) && (to < |s| ==> s[to] == stop)
    ensures to == from + |word|
  {
    forall i | from <= i < from + |word| ensures s[i] != stop {
      assert s[from..from + |word|][i - from] == s[i];
    }
  }

  lemma OpEnds(cmd: string, p: nat)
    requires |cmd| >= 35 && cmd[10..31] == OP_ID && cmd[31] == ' '
    requires 10 <= p <= |cmd| && (forall i :: 10 <= i < p ==> cmd[i] != ' ') && (p < |cmd| ==> cmd[p] == ' ')
    ensures p == 31
  {
    OpIdHasNoSpace();
    ScanEndsAt(cmd, 10, OP_ID, ' ', p);
  }

  lemma MiddleParts(cmd: string, q: nat)
    requires HasAt(cmd, q, MIDDLE)
    ensures q + 6 < |cmd| && cmd[q] == ' ' && HasAt(cmd, q + 1, "body=") && cmd[q + 6] == '"'
  {
    assert cmd[q] == cmd[q..q + 7][0] && cmd[q + 6] == cmd[q..q + 7][6];
    assert cmd[q + 1..q + 6] == cmd[q..q + 7][1..6];
    assert MIDDLE[1..6] == "body=";
  }

  lemma PartsMakeTheMiddle(cmd: string, q: nat)
    requires q + 6 < |cmd| && cmd[q] == ' ' && HasAt(cmd, q + 1, "body=") && cmd[q + 6] == '"'
    ensures cmd[q..q + 7] == MIDDLE
  {
    assert cmd[q..q + 7] == [cmd[q]] + cmd[q + 1..q + 6] + [cmd[q + 6]];
    assert [' '] + "body=" + ['"'] == MIDDLE;
  }

  lemma IdEnds(cmd: string, f: Frame, q: nat)
    requires Framed(cmd, f)
    requires 35 <= q <= |cmd| && (forall i :: 35 <= i < q ==> cmd[i] != ' ') && (q < |cmd| ==> cmd[q] == ' ')
    ensures q == 35 + |f.id| && cmd[35..q] == f.id
  {
    hide NoControls, NoSpaceRuns;
    MiddleParts(cmd, 35 + |f.id|);
    ScanEndsAt(cmd, 35, f.id, ' ', q);
  }

  lemma BodyEnds(cmd: string, f: Frame, q: nat, e: nat)
    requires Framed(cmd, f) && q == 35 + |f.id|
    requires q + 7 <= e <= |cmd| && (forall i :: q + 7 <= i < e ==> cmd[i] != '"') && (e < |cmd| ==> cmd[e] == '"')
    ensures e + 1 == |cmd| && cmd[q + 7..e] == f.enc
  {
    hide NoControls, NoSpaceRuns;
    ScanEndsAt(cmd, q + 7, f.enc, '"', e);
  }

  lemma FiveParts(s: string, a: nat, b: nat, c: nat, d: nat)
    requires a <= b <= c <= d <= |s|
    ensures s == s[..a] + s[a..b] + s[b..c] + s[c..d] + s[d..]
  {
  }

  lemma PiecesMakeTheCommand(cmd: string, p: nat, q: nat, e: nat)
    requires HasAt(cmd, 0, "zammad ") && HasAt(cmd, 7, "op=") && 10 <= p < q < e && e + 1 == |cmd|
    requires cmd[10..p] == OP_ID && cmd[p] == ' ' && HasAt(cmd, p + 1, "id=") && p + 4 <= q && cmd[q] == ' '
    requires HasAt(cmd, q + 1, "body=") && q + 7 <= e && cmd[q + 6] == '"' && cmd[e] == '"'
    ensures cmd == HEAD + cmd[p + 4..q] + MIDDLE + cmd[q + 7..e] + "\""
  {
    OpIdHasNoSpace();
    assert p == 31;
    PartsMakeTheHead(cmd);
    PartsMakeTheMiddle(cmd, q);
    FiveParts(cmd, 35, q, q + 7, e);
    assert cmd[e..] == "\"";
  }

  lemma PartsMakeTheHead(cmd: string)
    requires HasAt(cmd, 0, "zammad ") && HasAt(cmd, 7, "op=") && |cmd| >= 35
    requires cmd[10..31] == OP_ID && cmd[31] == ' ' && HasAt(cmd, 32, "id=")
    ensures cmd[..35] == HEAD
  {
    HeadIs();
    var h := cmd[..35];
    FiveParts(h, 7, 10, 31, 32);
    assert h[..7] == cmd[0..7] && h[7..10] == cmd[7..10] && h[10..31] == cmd[10..31];
    assert h[31..32] == [cmd[31]] && h[32..] == cmd[32..35];
  }

  /** A request has exactly one spelling, and a spelling exactly one request. */
  lemma OneSpellingPerRequest(q: Request, q': Request)
    requires Legal(q) && Legal(q') && Render(q) == Render(q')
    ensures q == q'
  {
    hide Framed, Verdict, Encode, LegalBody;
    RenderIsFramed(q);
    RenderIsFramed(q');
    FrameIsUnique(Render(q), FrameOf(q), FrameOf(q'));
  }
}
