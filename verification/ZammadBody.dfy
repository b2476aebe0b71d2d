/** The percent-escaped note body of a typed Zammad write: one spelling per body, one body per spelling. */
module ZammadBody {
  import opened Prelude
  import opened Ingress

  const BODY_MAX := 512

  datatype Reason = Grammar | UnknownOp | BadId | BadQuotes | BadEscape | NonCanonical | Charset | Length

  predicate BodyChar(c: char) {
    ' ' <= c && c as int < 0x7F && c != '"' && c != '\\' && c != '<' && c != '>'
  }

  predicate MustEscape(c: char) {
    c == ';' || c == '|' || c == '&' || c == '`' || c == '$' || c == '%'
  }

  /** Upper-case hexadecimal only. */
  function HexValue(c: char): Option<nat> {
    if '0' <= c <= '9' then Some(c as int - '0' as int)
    else if 'A' <= c <= 'F' then Some(c as int - 'A' as int + 10)
    else None
  }

  function HexDigit(d: nat): char
    requires d < 16
  {
    if d < 10 then (d + '0' as int) as char else (d - 10 + 'A' as int) as char
  }

  /** The encoder a client must use: every byte the ingress policy would refuse, and no other, escaped. */
  function EncodeChar(c: char): string {
    if MustEscape(c) then ['%', HexDigit(c as int / 16), HexDigit(c as int % 16)] else [c]
  }

  function Encode(body: string): string {
    if body == [] then [] else EncodeChar(body[0]) + Encode(body[1..])
  }

  // ---- The decoder ----

  /** The byte spelled at the front, and how many characters spell it. */
  function NextByte(enc: string): (r: Result<(char, nat), Reason>)
    requires enc != []
    ensures r.Ok? ==> 1 <= r.value.1 <= |enc| && r.value.1 <= 3
  {
    if enc[0] == '%' then
      if |enc| < 3 then Err(BadEscape)
      else
        var hi, lo := HexValue(enc[1]), HexValue(enc[2]);
        if hi.None? || lo.None? then Err(BadEscape)
        else
          var c := (16 * hi.value + lo.value) as char;
          if MustEscape(c) then Ok((c, 3)) else Err(NonCanonical)
    else if MustEscape(enc[0]) then Err(NonCanonical)
    else Ok((enc[0], 1))
  }

  /** The first offending byte decides the reason; `room` is how many bytes may still be written. */
  function Decoded(enc: string, room: nat): Result<string, Reason> {
    if enc == [] then Ok("")
    else
      var next := NextByte(enc);
      if next.Err? then Err(next.error)
      else if !BodyChar(next.value.0) then Err(Charset)
      else if room == 0 then Err(Length)
      else
        var rest := Decoded(enc[next.value.1..], room - 1);
        if rest.Err? then rest else Ok([next.value.0] + rest.value)
  }

  /** One spelling at position `i`. */
  method TakeByte(enc: string, i: nat) returns (r: Result<(char, nat), Reason>)
    requires i < |enc|
    ensures r == NextByte(enc[i..])
  {
    var c := enc[i];
    if c == '%' {
      if i + 2 >= |enc| { return Err(BadEscape); }
      var hi, lo := HexValue(enc[i + 1]), HexValue(enc[i + 2]);
      if hi.None? || lo.None? { return Err(BadEscape); }
      var decoded := (16 * hi.value + lo.value) as char;
      if !MustEscape(decoded) { return Err(NonCanonical); }
      return Ok((decoded, 3));
    }
    if MustEscape(c) { return Err(NonCanonical); }
    return Ok((c, 1));
  }

  /** The decoder as the driver runs it, filling the caller's buffer. */
  method DecodeBody(enc: string, out: array<char>) returns (r: Result<nat, Reason>)
    modifies out
    ensures out.Length == 0 ==> r == Err(BadEscape)
    ensures out.Length > 0 ==>
      var want := Decoded(enc, if out.Length - 1 < BODY_MAX then out.Length - 1 else BODY_MAX);
      && (want.Err? ==> r == Err(want.error))
      && (want.Ok? ==> r == Ok(|want.value|) && |want.value| < out.Length && out[..|want.value|] == want.value)
  {
    hide Decoded, NextByte, BodyChar, MustEscape;
    if out.Length == 0 { return Err(BadEscape); }
    ghost var room := if out.Length - 1 < BODY_MAX then out.Length - 1 else BODY_MAX;
    ghost var want := Decoded(enc, room);
    var i, o := 0, 0;
    assert enc[0..] == enc && out[..0] == [];
    ResumedFromNothing(want);
    while i < |enc|
      invariant 0 <= i <= |enc| && 0 <= o <= room < out.Length
      invariant want == Resumed(out[..o], Decoded(enc[i..], room - o))
    {
      DecodedUnfolds(enc, i, room - o);
      var next := TakeByte(enc, i);
      if next.Err? { return Err(next.error); }
      var (decoded, width) := next.value;
      if !BodyChar(decoded) { return Err(Charset); }
      if o + 1 >= out.Length || o >= BODY_MAX { return Err(Length); }
      ghost var before := out[..o];
      out[o] := decoded;
      assert out[..o + 1] == before + [decoded];
      ResumedStep(before, decoded, Decoded(enc[i + width..], room - o - 1));
      i, o := i + width, o + 1;
    }
    assert enc[i..] == [];
    DecodedOfNothing(room - o);
    assert out[..o] + [] == out[..o];
    r := Ok(o);
  }

  lemma DecodedOfNothing(room: nat)
    ensures Decoded("", room) == Ok("")
  {
  }

  lemma DecodedUnfolds(enc: string, i: nat, room: nat)
    requires i < |enc|
    ensures var next := NextByte(enc[i..]);
      Decoded(enc[i..], room) ==
        if next.Err? then Err(next.error)
        else if !BodyChar(next.value.0) then Err(Charset)
        else if room == 0 then Err(Length)
        else Resumed([next.value.0], Decoded(enc[i + next.value.1..], room - 1))
  {
    hide NextByte, BodyChar;
    var next := NextByte(enc[i..]);
    if next.Ok? { assert enc[i..][next.value.1..] == enc[i + next.value.1..]; }
  }

  ghost function Resumed(done: string, rest: Result<string, Reason>): Result<string, Reason> {
    if rest.Err? then rest else Ok(done + rest.value)
  }

  lemma ResumedFromNothing(rest: Result<string, Reason>)
    ensures Resumed([], rest) == rest
  {
    if rest.Ok? { assert [] + rest.value == rest.value; }
  }

  lemma ResumedStep(done: string, c: char, rest: Result<string, Reason>)
    ensures Resumed(done, Resumed([c], rest)) == Resumed(done + [c], rest)
  {
    if rest.Ok? { assert done + ([c] + rest.value) == done + [c] + rest.value; }
  }

  // ---- A bijection ----

  predicate LegalBody(body: string) { forall i :: 0 <= i < |body| ==> BodyChar(body[i]) }

  lemma HexRoundTrip(d: nat)
    requires d < 16
    ensures HexValue(HexDigit(d)) == Some(d)
  {
  }

  lemma SpellingReadsBack(c: char, rest: string)
    requires BodyChar(c)
    ensures EncodeChar(c) + rest != [] && NextByte(EncodeChar(c) + rest) == Ok((c, |EncodeChar(c)|))
  {
    if MustEscape(c) {
      HexRoundTrip(c as int / 16);
      HexRoundTrip(c as int % 16);
    }
  }

  lemma {:induction false} DecodeInvertsEncode(body: string, room: nat)
    requires LegalBody(body) && |body| <= room
    ensures Decoded(Encode(body), room) == Ok(body)
  {
    if body != [] {
      var rest := Encode(body[1..]);
      SpellingReadsBack(body[0], rest);
      assert (EncodeChar(body[0]) + rest)[|EncodeChar(body[0])|..] == rest;
      DecodeInvertsEncode(body[1..], room - 1);
      assert [body[0]] + body[1..] == body;
    }
  }

  lemma HexDigitOf(c: char)
    requires HexValue(c).Some?
    ensures HexValue(c).value < 16 && HexDigit(HexValue(c).value) == c
  {
  }

  lemma SpellingIsTheEncoding(enc: string)
    requires enc != [] && NextByte(enc).Ok?
    ensures EncodeChar(NextByte(enc).value.0) == enc[..NextByte(enc).value.1]
  {
    if enc[0] == '%' {
      HexDigitOf(enc[1]);
      HexDigitOf(enc[2]);
      assert enc[..3] == [enc[0], enc[1], enc[2]];
    } else {
      assert enc[..1] == [enc[0]];
    }
  }

  lemma DecodedStep(enc: string, room: nat)
    requires enc != [] && Decoded(enc, room).Ok?
    ensures var next := NextByte(enc);
      && next.Ok? && BodyChar(next.value.0) && room > 0
      && Decoded(enc[next.value.1..], room - 1).Ok?
      && Decoded(enc, room).value == [next.value.0] + Decoded(enc[next.value.1..], room - 1).value
  {
    hide NextByte, BodyChar;
  }

  lemma NothingDecodes(room: nat)
    ensures Decoded([], room).Ok? ==> Decoded([], room).value == []
  {
  }

  lemma {:induction false} EncodeInvertsDecode(enc: string, room: nat)
    requires Decoded(enc, room).Ok?
    ensures var body := Decoded(enc, room).value; Encode(body) == enc && LegalBody(body) && |body| <= room
  {
    hide Decoded, NextByte, BodyChar, EncodeChar;
    if enc == [] {
      NothingDecodes(room);
    } else {
      DecodedStep(enc, room);
      SpellingIsTheEncoding(enc);
      var (c, k) := NextByte(enc).value;
      EncodeInvertsDecode(enc[k..], room - 1);
      var body, rest := Decoded(enc, room).value, Decoded(enc[k..], room - 1).value;
      assert body[0] == c && body[1..] == rest;
      assert enc == enc[..k] + enc[k..];
    }
  }

  // ---- What the encoding is for ----

  lemma EscapesPassTheGuard(c: char)
    requires BodyChar(c)
    ensures SeparatorGuard(EncodeChar(c)) && '"' !in EncodeChar(c)
    ensures EncodeChar(c)[|EncodeChar(c)| - 1] != '$'
    ensures 1 <= |EncodeChar(c)| <= 3
  {
  }

  /** No encoded byte, nor any two side by side, trips the ingress separator policy. */
  lemma {:induction false} EncodingPassesTheGuard(body: string)
    requires LegalBody(body)
    ensures SeparatorGuard(Encode(body)) && '"' !in Encode(body)
    ensures |body| <= |Encode(body)| <= 3 * |body|
  {
    if body == [] {
      EmptyPasses();
    } else {
      EscapesPassTheGuard(body[0]);
      EncodingPassesTheGuard(body[1..]);
      GuardOfSum(EncodeChar(body[0]), Encode(body[1..]));
    }
  }
}
