/** A reader for flat JSON objects, after sections 4 to 7 of RFC 8259 (no insignificant whitespace). */
module JsonText {
  import opened Prelude

  datatype Atom = Text(value: string) | Number(digits: string) | True

  datatype Member = Member(key: string, value: Atom)

  function Hex(c: char): Option<nat> {
    if '0' <= c <= '9' then Some(c as int - '0' as int)
    else if 'a' <= c <= 'f' then Some(c as int - 'a' as int + 10)
    else if 'A' <= c <= 'F' then Some(c as int - 'A' as int + 10)
    else None
  }

  /** The character an escape stands for, and the length of the escape. */
  function Escape(s: string): (r: Option<(char, nat)>)
    ensures r.Some? ==> 2 <= r.value.1 <= |s|
  {
    if |s| < 2 then None
    else match s[1]
      case '"' => Some(('"', 2))
      case '\\' => Some(('\\', 2))
      case '/' => Some(('/', 2))
      case 'b' => Some((8 as char, 2))
      case 'f' => Some((12 as char, 2))
      case 'n' => Some((10 as char, 2))
      case 'r' => Some((13 as char, 2))
      case 't' => Some((9 as char, 2))
      case 'u' =>
        if |s| < 6 then None
        else
          var a, b, c, d := Hex(s[2]), Hex(s[3]), Hex(s[4]), Hex(s[5]);
          if a.None? || b.None? || c.None? || d.None? then None
          else
            var n := 4096 * a.value + 256 * b.value + 16 * c.value + d.value;
            if 0xD800 <= n < 0xE000 || n > 0xFFFF then None else Some((n as char, 6))
      case _ => None
  }

  /** The characters up to the closing quote, and what follows it. */
  function ReadChars(s: string): (r: Option<(string, string)>)
    ensures r.Some? ==> |r.value.1| < |s|
    decreases |s|
  {
    if s == [] then None
    else if s[0] == '"' then Some(("", s[1..]))
    else if s[0] == '\\' then
      var e := Escape(s);
      if e.None? then None
      else
        var rest := ReadChars(s[e.value.1..]);
        if rest.None? then None else Some(([e.value.0] + rest.value.0, rest.value.1))
    else if s[0] < ' ' then None
    else
      var rest := ReadChars(s[1..]);
      if rest.None? then None else Some(([s[0]] + rest.value.0, rest.value.1))
  }

  function ReadString(s: string): (r: Option<(string, string)>)
    ensures r.Some? ==> |r.value.1| < |s|
  {
    if s == [] || s[0] != '"' then None else ReadChars(s[1..])
  }

  predicate Digit(c: char) { '0' <= c <= '9' }

  function TakeDigits(s: string): (r: (string, string))
    ensures r.0 + r.1 == s
  {
    if s == [] || !Digit(s[0]) then ("", s)
    else var rest := TakeDigits(s[1..]); ([s[0]] + rest.0, rest.1)
  }

  function ReadAtom(s: string): (r: Option<(Atom, string)>)
    ensures r.Some? ==> |r.value.1| < |s|
  {
    if s == [] then None
    else if s[0] == '"' then
      var t := ReadString(s);
      if t.None? then None else Some((Text(t.value.0), t.value.1))
    else if "true" <= s then Some((True, s[4..]))
    else
      var (digits, rest) := TakeDigits(s);
      if digits == "" || (|digits| > 1 && digits[0] == '0') then None
      else assert |s| == |digits + rest|; Some((Number(digits), rest))
  }

  function ReadMembers(s: string): Option<(seq<Member>, string)>
    decreases |s|
  {
    var key := ReadString(s);
    if key.None? || key.value.1 == [] || key.value.1[0] != ':' then None
    else
      var atom := ReadAtom(key.value.1[1..]);
      if atom.None? || atom.value.1 == [] then None
      else
        var m, rest := Member(key.value.0, atom.value.0), atom.value.1;
        if rest[0] == '}' then Some(([m], rest[1..]))
        else if rest[0] != ',' then None
        else
          var more := ReadMembers(rest[1..]);
          if more.None? then None else Some(([m] + more.value.0, more.value.1))
  }

  function ReadObject(s: string): Option<seq<Member>> {
    if s == [] || s[0] != '{' then None
    else
      var r := ReadMembers(s[1..]);
      if r.None? || r.value.1 != [] then None else Some(r.value.0)
  }

  // ---- Text that needs no escaping ----

  predicate NeedsNoEscape(s: string) {
    forall i :: 0 <= i < |s| ==> s[i] >= ' ' && s[i] != '"' && s[i] != '\\'
  }

  lemma {:induction false} PlainCharsRead(s: string, rest: string)
    requires NeedsNoEscape(s)
    ensures ReadChars(s + "\"" + rest) == Some((s, rest))
  {
    var all := s + "\"" + rest;
    if s == [] {
      assert all[1..] == rest;
    } else {
      assert all[1..] == s[1..] + "\"" + rest;
      PlainCharsRead(s[1..], rest);
      assert [s[0]] + s[1..] == s;
    }
  }

  lemma PlainStringReads(s: string, rest: string)
    requires NeedsNoEscape(s)
    ensures ReadString("\"" + s + "\"" + rest) == Some((s, rest))
  {
    assert ("\"" + s + "\"" + rest)[1..] == s + "\"" + rest;
    PlainCharsRead(s, rest);
  }

  lemma {:induction false} DigitsTaken(digits: string, rest: string)
    requires forall i :: 0 <= i < |digits| ==> Digit(digits[i])
    requires rest != [] && !Digit(rest[0])
    ensures TakeDigits(digits + rest) == (digits, rest)
  {
    if digits == [] {
      assert digits + rest == rest;
    } else {
      assert (digits + rest)[1..] == digits[1..] + rest;
      DigitsTaken(digits[1..], rest);
      assert [digits[0]] + digits[1..] == digits;
    }
  }

  predicate PlainAtom(a: Atom) {
    match a
    case Text(value) => NeedsNoEscape(value)
    case Number(digits) =>
      digits != "" && (forall i :: 0 <= i < |digits| ==> Digit(digits[i])) && (|digits| > 1 ==> digits[0] != '0')
    case True => true
  }

  function AtomText(a: Atom): string {
    match a
    case Text(value) => "\"" + value + "\""
    case Number(digits) => digits
    case True => "true"
  }

  lemma AtomReads(a: Atom, rest: string)
    requires PlainAtom(a) && rest != [] && !Digit(rest[0])
    ensures ReadAtom(AtomText(a) + rest) == Some((a, rest))
  {
    hide ReadAtom, NeedsNoEscape, Digit;
    match a
    case Text(value) => TextReads(value, rest);
    case Number(digits) => NumberReads(digits, rest);
    case True => TrueReads(rest);
  }

  lemma TextReads(value: string, rest: string)
    requires NeedsNoEscape(value)
    ensures ReadAtom(AtomText(Text(value)) + rest) == Some((Text(value), rest))
  {
    hide ReadString, NeedsNoEscape;
    PlainStringReads(value, rest);
  }

  lemma NumberReads(digits: string, rest: string)
    requires PlainAtom(Number(digits)) && rest != [] && !Digit(rest[0])
    ensures ReadAtom(AtomText(Number(digits)) + rest) == Some((Number(digits), rest))
  {
    hide ReadString;
    DigitsTaken(digits, rest);
    assert (digits + rest)[0] == digits[0];
  }

  lemma TrueReads(rest: string)
    ensures ReadAtom("true" + rest) == Some((True, rest))
  {
    hide ReadString;
    assert ("true" + rest)[4..] == rest;
    assert ("true" + rest)[..4] == "true";
  }

  function MemberText(m: Member): string { "\"" + m.key + "\":" + AtomText(m.value) }

  function ObjectText(ms: seq<Member>): string
    requires ms != []
  {
    MemberText(ms[0]) + (if |ms| == 1 then "}" else "," + ObjectText(ms[1..]))
  }

  /** Members whose text needs no escaping read back exactly as written, and nothing else is read. */
  lemma {:induction false} MembersRead(ms: seq<Member>)
    requires ms != []
    requires forall i :: 0 <= i < |ms| ==> NeedsNoEscape(ms[i].key) && PlainAtom(ms[i].value)
    ensures ReadMembers(ObjectText(ms)) == Some((ms, ""))
  {
    hide NeedsNoEscape, PlainAtom, AtomText, ReadString, ReadAtom;
    var m := ms[0];
    var tail := if |ms| == 1 then "}" else "," + ObjectText(ms[1..]);
    var value := AtomText(m.value) + tail;
    assert ObjectText(ms) == "\"" + m.key + "\"" + (":" + value);
    PlainStringReads(m.key, ":" + value);
    assert (":" + value)[1..] == value;
    AtomReads(m.value, tail);
    if |ms| > 1 {
      assert tail[1..] == ObjectText(ms[1..]);
      MembersRead(ms[1..]);
      assert [m] + ms[1..] == ms;
    } else {
      assert tail[1..] == "" && [m] == ms;
    }
  }
}
