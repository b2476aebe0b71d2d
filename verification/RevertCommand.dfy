/** Packing the revert into one quoted shell command, and what the daemon's separator guard makes of it. */
module RevertCommand {
  import opened Prelude
  import opened FrrText
  import opened FrrRevert
  import opened Ingress

  const MAX_COMMAND_LEN := 900

  /** The runbook's own test of one argument. */
  predicate LegalLine(s: string) {
    forall i :: 0 <= i < |s| ==>
      && !IsControl(s[i])
      && s[i] != ';' && s[i] != '|' && s[i] != '&' && s[i] != '`' && s[i] != '"' && s[i] != '\''
      && !OpensSubstitution(s, i)
  }

  predicate NoRedirect(s: string) { '<' !in s && '>' !in s }

  // ---- Packing ----

  function Quoted(a: string): string { "-c \"" + a + "\"" }

  function Joined(parts: seq<string>): string {
    if parts == [] then ""
    else if |parts| == 1 then Quoted(parts[0])
    else Quoted(parts[0]) + " " + Joined(parts[1..])
  }

  function Packed(args: seq<string>): string {
    "vtysh " + Joined(["configure terminal"] + args)
  }

  method BuildRevertCommand(args: seq<string>) returns (r: Result<string, Drift>)
    ensures r == Err(RefusedByGuards) <==> exists i :: 0 <= i < |args| && !LegalLine(args[i])
    ensures r == Err(TooLong) ==> |Packed(args)| > MAX_COMMAND_LEN
    ensures r.Ok? ==> r.value == Packed(args) && |r.value| <= MAX_COMMAND_LEN
    ensures r.Ok? || r == Err(RefusedByGuards) || r == Err(TooLong)
  {
    var i := 0;
    while i < |args|
      invariant 0 <= i <= |args|
      invariant forall j :: 0 <= j < i ==> LegalLine(args[j])
    {
      if !LegalLine(args[i]) { return Err(RefusedByGuards); }
      i := i + 1;
    }
    var cmd := Packed(args);
    if |cmd| > MAX_COMMAND_LEN { return Err(TooLong); }
    r := Ok(cmd);
  }

  // ---- Unpacking ----

  /** The text between quotes: `inside` says whether the reader is within a pair, `word` is what it
      has read of it. */
  function QuotedWords(s: string, inside: bool, word: string): seq<string> {
    if s == [] then []
    else if s[0] == '"' then
      if inside then [word] + QuotedWords(s[1..], false, "") else QuotedWords(s[1..], true, "")
    else QuotedWords(s[1..], inside, if inside then word + [s[0]] else word)
  }

  lemma {:induction false} OutsideIsSkipped(plain: string, rest: string)
    requires '"' !in plain
    ensures QuotedWords(plain + rest, false, "") == QuotedWords(rest, false, "")
  {
    if plain == [] {
      assert plain + rest == rest;
    } else {
      OutsideIsSkipped(plain[1..], rest);
      assert (plain + rest)[1..] == plain[1..] + rest;
    }
  }

  lemma {:induction false} InsideIsCollected(plain: string, rest: string, word: string)
    requires '"' !in plain
    ensures QuotedWords(plain + "\"" + rest, true, word) == [word + plain] + QuotedWords(rest, false, "")
  {
    var s := plain + "\"" + rest;
    if plain == [] {
      assert s[1..] == rest;
      assert word + plain == word;
    } else {
      InsideIsCollected(plain[1..], rest, word + [plain[0]]);
      assert s[1..] == plain[1..] + "\"" + rest;
      assert word + [plain[0]] + plain[1..] == word + plain;
    }
  }

  lemma OneWord(a: string, rest: string)
    requires '"' !in a
    ensures QuotedWords(Quoted(a) + rest, false, "") == [a] + QuotedWords(rest, false, "")
  {
    hide QuotedWords, Quoted;
    var tail := a + "\"" + rest;
    QuotedParts(a, rest);
    OutsideIsSkipped("-c ", "\"" + tail);
    QuoteOpens(tail);
    InsideIsCollected(a, rest, "");
    assert "" + a == a;
  }

  lemma QuotedParts(a: string, rest: string)
    ensures Quoted(a) + rest == "-c " + ("\"" + (a + "\"" + rest))
  {
    assert "-c \"" == "-c " + "\"";
  }

  lemma QuoteOpens(tail: string)
    ensures QuotedWords("\"" + tail, false, "") == QuotedWords(tail, true, "")
  {
    assert ("\"" + tail)[1..] == tail;
  }

  lemma {:induction false} JoinedUnpacks(parts: seq<string>)
    requires forall i :: 0 <= i < |parts| ==> '"' !in parts[i]
    ensures QuotedWords(Joined(parts), false, "") == parts
  {
    if |parts| == 1 {
      OneWord(parts[0], "");
      assert Quoted(parts[0]) + "" == Quoted(parts[0]);
    } else if |parts| > 1 {
      JoinedUnpacks(parts[1..]);
      OneWord(parts[0], " " + Joined(parts[1..]));
      assert Quoted(parts[0]) + (" " + Joined(parts[1..])) == Joined(parts);
      OutsideIsSkipped(" ", Joined(parts[1..]));
    }
  }

  /** Splitting a packed command on its quotes gives back exactly the command list. */
  lemma PackedUnpacks(args: seq<string>)
    requires forall i :: 0 <= i < |args| ==> LegalLine(args[i])
    ensures QuotedWords(Packed(args), false, "") == ["configure terminal"] + args
  {
    var parts := ["configure terminal"] + args;
    assert forall i :: 0 < i < |parts| ==> parts[i] == args[i - 1];
    JoinedUnpacks(parts);
    OutsideIsSkipped("vtysh ", Joined(parts));
  }

  // ---- The daemon's guard ----

  lemma QuotedGuard(a: string)
    requires LegalLine(a)
    ensures SeparatorGuard(Quoted(a)) <==> NoRedirect(a)
  {
    var s := Quoted(a);
    var o := |"-c \""|;
    assert forall i :: 0 <= i < |a| ==> s[o + i] == a[i];
    assert s[|s| - 1] == '"';
    assert forall i :: 0 <= i < |a| ==> (OpensSubstitution(s, o + i) <==> OpensSubstitution(a, i));
    if NoRedirect(a) {
      forall i | 0 <= i < |s| ensures
        && !IsControl(s[i]) && s[i] != ';' && s[i] != '|' && s[i] != '&' && s[i] != '`' && s[i] != '>' && s[i] != '<'
        && !OpensSubstitution(s, i)
      {
        if o <= i < o + |a| { assert s[o + (i - o)] == a[i - o]; assert !OpensSubstitution(a, i - o); assert !OpensSubstitution(s, o + (i - o)); }
      }
    }
  }

  lemma {:induction false} JoinedGuard(parts: seq<string>)
    requires forall i :: 0 <= i < |parts| ==> LegalLine(parts[i])
    ensures SeparatorGuard(Joined(parts)) <==> forall i :: 0 <= i < |parts| ==> NoRedirect(parts[i])
  {
    hide SeparatorGuard, NoRedirect, LegalLine;
    if parts == [] {
      EmptyPasses();
    } else {
      QuotedGuard(parts[0]);
      if |parts| > 1 {
        var rest := parts[1..];
        JoinedGuard(rest);
        SpacePasses();
        GuardOfSum(" ", Joined(rest));
        GuardOfSum(Quoted(parts[0]), " " + Joined(rest));
        assert Joined(parts) == Quoted(parts[0]) + (" " + Joined(rest));
        assert forall i :: 1 <= i < |parts| ==> parts[i] == rest[i - 1];
        assert forall i :: 0 <= i < |rest| ==> rest[i] == parts[i + 1];
      }
    }
  }

  /** The runbook promises that whatever the daemon's guard would refuse is refused here first. That
      holds exactly when no argument carries an angle bracket, which this test lets through. */
  lemma GuardAcceptsExactlyUnredirected(args: seq<string>)
    requires forall i :: 0 <= i < |args| ==> LegalLine(args[i])
    ensures SeparatorGuard(Packed(args)) <==> forall i :: 0 <= i < |args| ==> NoRedirect(args[i])
  {
    hide SeparatorGuard, LegalLine, NoRedirect, Joined;
    var first := "configure terminal";
    var parts := [first] + args;
    assert parts[0] == first;
    assert forall i :: 0 < i < |parts| ==> parts[i] == args[i - 1];
    assert forall i :: 0 <= i < |args| ==> args[i] == parts[i + 1];
    FirstLineIsLegal();
    JoinedGuard(parts);
    VtyshPasses();
    GuardOfSum("vtysh ", Joined(parts));
  }

  lemma FirstLineIsLegal()
    ensures LegalLine("configure terminal") && NoRedirect("configure terminal")
  {
  }

  lemma VtyshPasses()
    ensures SeparatorGuard("vtysh ")
  {
  }

  /** A description with an angle bracket: packed without complaint, refused at the boundary. */
  lemma RedirectSlipsThrough()
    ensures LegalLine("description a>b") && !SeparatorGuard(Packed(["description a>b"]))
  {
    var args := ["description a>b"];
    assert "description a>b"[13] == '>';
    assert LegalLine(args[0]);
    GuardAcceptsExactlyUnredirected(args);
    assert !NoRedirect(args[0]);
  }

  // ---- The whole proposal ----

  /** From two texts to one command. Read back by its quotes and run on the current configuration,
      the command restores the baseline; there is nothing in it when nothing drifted. */
  method ProposeRevert(baseline: string, current: string, ghost top: string -> bool) returns (r: Result<string, Drift>)
    ensures r.Ok? ==> Parsed(baseline).Ok? && Parsed(current).Ok? && |r.value| <= MAX_COMMAND_LEN
    ensures r.Ok? ==>
      var base, cur, words := Parsed(baseline).value, Parsed(current).value, QuotedWords(r.value, false, "");
      && words != [] && words[0] == "configure terminal"
      && (words[1..] == [] <==> Meaning(base) == Meaning(cur))
      && (CleanChange(base, cur) && Speaks(top, base) && Speaks(top, cur) ==>
           Reaches(Run(top, Shell(Meaning(cur), None), words[1..]), Meaning(base)))
  {
    hide Parsed, LegalLine, Run, Meaning, CleanChange, Speaks, Revert, QuotedWords, Packed;
    var args := RevertArgs(baseline, current);
    if args.Err? { return Err(args.error); }
    r := BuildRevertCommand(args.value);
    if r.Ok? {
      PackedUnpacks(args.value);
      var base, cur := Parsed(baseline).value, Parsed(current).value;
      EverythingReadIsPrintable(baseline);
      EverythingReadIsPrintable(current);
      EmptyExactlyWhenEqual(base, cur);
      var words := ["configure terminal"] + args.value;
      assert words[1..] == args.value;
      if CleanChange(base, cur) && Speaks(top, base) && Speaks(top, cur) {
        RevertRestoresBaseline(top, base, cur);
      }
    }
  }
}
