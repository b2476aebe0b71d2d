/** FRR running-config text: presentation noise stripped, then read into blocks of depth one. */
module FrrText {
  import opened Prelude

  /** A block header with the lines under it; a top-level statement is a header with none. */
  datatype Block = Block(header: string, lines: seq<string>)

  datatype Drift = OutsideAnyBlock | NestedBlock | RefusedByGuards | TooLong

  // ---- Characters ----

  /** The characters Python's str.splitlines breaks at. */
  predicate IsBreak(c: char) {
    var n := c as int;
    0x0A <= n <= 0x0D || 0x1C <= n <= 0x1E || n == 0x85 || n == 0x2028 || n == 0x2029
  }

  /** The characters Python's str.strip removes. */
  predicate IsSpace(c: char) {
    var n := c as int;
    || 0x09 <= n <= 0x0D || 0x1C <= n <= 0x20 || n == 0x85 || n == 0xA0 || n == 0x1680
    || 0x2000 <= n <= 0x200A || n == 0x2028 || n == 0x2029 || n == 0x202F || n == 0x205F || n == 0x3000
  }

  predicate OneLine(s: string) { forall i :: 0 <= i < |s| ==> !IsBreak(s[i]) }

  function TrimRight(s: string): (r: string)
    ensures r <= s
    ensures r != [] ==> !IsSpace(r[|r| - 1])
    ensures forall i :: |r| <= i < |s| ==> IsSpace(s[i])
  {
    if s == [] || !IsSpace(s[|s| - 1]) then s else TrimRight(s[..|s| - 1])
  }

  function TrimLeft(s: string): (r: string)
    ensures |r| <= |s| && r == s[|s| - |r|..]
    ensures r != [] ==> !IsSpace(r[0])
    ensures forall i :: 0 <= i < |s| - |r| ==> IsSpace(s[i])
  {
    if s == [] || !IsSpace(s[0]) then s else TrimLeft(s[1..])
  }

  function Trim(s: string): (r: string)
    ensures r != [] ==> s != []
  {
    TrimLeft(TrimRight(s))
  }

  predicate Trimmed(s: string) { s != [] && !IsSpace(s[0]) && !IsSpace(s[|s| - 1]) }

  lemma TrimmedStays(s: string)
    requires Trimmed(s)
    ensures TrimRight(s) == s && TrimLeft(s) == s && Trim(s) == s
  {
  }

  // ---- Lines ----

  /** The text between breaks, an empty piece after the last one included. */
  function Pieces(text: string): (r: seq<string>)
    ensures |r| > 0
  {
    if text == [] then [""]
    else
      var rest := Pieces(text[1..]);
      if IsBreak(text[0]) then [""] + rest else [[text[0]] + rest[0]] + rest[1..]
  }

  function Lines(lines: seq<string>): string {
    if lines == [] then "" else lines[0] + "\n" + Lines(lines[1..])
  }

  predicate Noise(line: string) {
    line == "Building configuration..." || line == "Current configuration:"
  }

  predicate Kept(line: string) { line != "" && !Noise(line) }

  function Cleaned(pieces: seq<string>): seq<string> {
    if pieces == [] then []
    else
      var front := Cleaned(pieces[..|pieces| - 1]);
      var line := TrimRight(pieces[|pieces| - 1]);
      if Kept(line) then front + [line] else front
  }

  function ConfigLines(text: string): seq<string> { Cleaned(Pieces(text)) }

  function Normalized(text: string): string { Lines(ConfigLines(text)) }

  method NormalizeConfig(text: string) returns (r: string)
    ensures r == Normalized(text)
  {
    var out: seq<string> := [];
    var pieces := Pieces(text);
    var i := 0;
    while i < |pieces|
      invariant 0 <= i <= |pieces|
      invariant out == Cleaned(pieces[..i])
    {
      var line := TrimRight(pieces[i]);
      assert pieces[..i + 1][..i] == pieces[..i];
      if Kept(line) { out := out + [line]; }
      i := i + 1;
    }
    assert pieces[..|pieces|] == pieces;
    r := Lines(out);
  }

  /** What every line of a normalized text looks like. */
  predicate ConfigLine(line: string) {
    OneLine(line) && Kept(line) && !IsSpace(line[|line| - 1])
  }

  lemma {:induction false} PiecesAreLines(text: string)
    ensures forall i :: 0 <= i < |Pieces(text)| ==> OneLine(Pieces(text)[i])
  {
    if text != [] { PiecesAreLines(text[1..]); }
  }

  lemma {:induction false} CleanedAreConfigLines(pieces: seq<string>)
    requires forall i :: 0 <= i < |pieces| ==> OneLine(pieces[i])
    ensures forall i :: 0 <= i < |Cleaned(pieces)| ==> ConfigLine(Cleaned(pieces)[i])
  {
    if pieces != [] {
      CleanedAreConfigLines(pieces[..|pieces| - 1]);
    }
  }

  lemma ConfigLinesOf(text: string)
    ensures forall i :: 0 <= i < |ConfigLines(text)| ==> ConfigLine(ConfigLines(text)[i])
  {
    PiecesAreLines(text);
    CleanedAreConfigLines(Pieces(text));
  }

  lemma {:induction false} PiecesOfLine(line: string, rest: string)
    requires OneLine(line)
    ensures Pieces(line + "\n" + rest) == [line] + Pieces(rest)
  {
    var text := line + "\n" + rest;
    if line == [] {
      assert text[1..] == rest;
    } else {
      assert text[1..] == line[1..] + "\n" + rest;
      PiecesOfLine(line[1..], rest);
      assert [line[0]] + line[1..] == line;
      assert ([line[1..]] + Pieces(rest))[1..] == Pieces(rest);
    }
  }

  lemma {:induction false} PiecesOfLines(lines: seq<string>)
    requires forall i :: 0 <= i < |lines| ==> OneLine(lines[i])
    ensures Pieces(Lines(lines)) == lines + [""]
  {
    if lines != [] {
      PiecesOfLines(lines[1..]);
      PiecesOfLine(lines[0], Lines(lines[1..]));
      assert lines == [lines[0]] + lines[1..];
    }
  }

  lemma {:induction false} CleanedKeepsConfigLines(lines: seq<string>)
    requires forall i :: 0 <= i < |lines| ==> ConfigLine(lines[i])
    ensures Cleaned(lines) == lines && Cleaned(lines + [""]) == lines
  {
    if lines != [] {
      var front := lines[..|lines| - 1];
      CleanedKeepsConfigLines(front);
      assert lines == front + [lines[|lines| - 1]];
    }
    assert (lines + [""])[..|lines|] == lines;
  }

  /** Lines that are already clean survive printing and reading unchanged. */
  lemma PrintedLinesReadBack(lines: seq<string>)
    requires forall i :: 0 <= i < |lines| ==> ConfigLine(lines[i])
    ensures ConfigLines(Lines(lines)) == lines
  {
    PiecesOfLines(lines);
    CleanedKeepsConfigLines(lines);
  }

  lemma NormalizingTwiceIsOnce(text: string)
    ensures Normalized(Normalized(text)) == Normalized(text)
    ensures ConfigLines(Normalized(text)) == ConfigLines(text)
  {
    ConfigLinesOf(text);
    PrintedLinesReadBack(ConfigLines(text));
  }

  // ---- Blocks ----

  function Names(blocks: seq<Block>): set<string> {
    set i | 0 <= i < |blocks| :: blocks[i].header
  }

  ghost predicate Distinct(blocks: seq<Block>) {
    forall i, j :: 0 <= i < j < |blocks| ==> blocks[i].header != blocks[j].header
  }

  function IndexOf(blocks: seq<Block>, header: string): (i: nat)
    ensures i <= |blocks|
    ensures i < |blocks| ==> blocks[i].header == header
    ensures forall j :: 0 <= j < i ==> blocks[j].header != header
  {
    if blocks == [] || blocks[0].header == header then 0 else 1 + IndexOf(blocks[1..], header)
  }

  datatype Reading = Reading(blocks: seq<Block>, current: Option<string>)

  predicate OpensNested(line: string) {
    "address-family" <= line || "exit-address-family" <= line
  }

  function OpenBlock(rd: Reading, header: string): Reading {
    Reading(if IndexOf(rd.blocks, header) < |rd.blocks| then rd.blocks else rd.blocks + [Block(header, [])], Some(header))
  }

  function AddLine(blocks: seq<Block>, header: string, line: string): seq<Block> {
    var i := IndexOf(blocks, header);
    if i < |blocks| then blocks[i := Block(header, blocks[i].lines + [line])] else blocks
  }

  function ReadLine(rd: Reading, raw: string): Result<Reading, Drift> {
    var text := Trim(raw);
    if text == "" then Ok(rd)
    else if text == "!" || text == "end" then Ok(rd.(current := None))
    else if raw[0] != ' ' && raw[0] != '\t' then
      if text == "exit" then Ok(rd.(current := None)) else Ok(OpenBlock(rd, text))
    else if rd.current.None? then Err(OutsideAnyBlock)
    else if OpensNested(text) then Err(NestedBlock)
    else Ok(rd.(blocks := AddLine(rd.blocks, rd.current.value, text)))
  }

  function ReadLines(rd: Reading, lines: seq<string>): Result<Reading, Drift> {
    if lines == [] then Ok(rd)
    else
      var r := ReadLines(rd, lines[..|lines| - 1]);
      if r.Err? then r else ReadLine(r.value, lines[|lines| - 1])
  }

  function Parsed(text: string): Result<seq<Block>, Drift> {
    var r := ReadLines(Reading([], None), ConfigLines(text));
    if r.Ok? then Ok(r.value.blocks) else Err(r.error)
  }

  lemma {:induction false} ErrorsStay(rd: Reading, lines: seq<string>, k: nat)
    requires k <= |lines| && ReadLines(rd, lines[..k]).Err?
    ensures ReadLines(rd, lines) == ReadLines(rd, lines[..k])
  {
    if k == |lines| {
      assert lines[..k] == lines;
    } else {
      var front := lines[..|lines| - 1];
      assert front[..k] == lines[..k];
      ErrorsStay(rd, front, k);
    }
  }

  /** One turn of the reader's loop. */
  method TakeLine(blocks: seq<Block>, current: Option<string>, raw: string) returns (r: Result<Reading, Drift>)
    ensures r == ReadLine(Reading(blocks, current), raw)
  {
    hide Trim, OpensNested;
    var text := Trim(raw);
    if text == "" { return Ok(Reading(blocks, current)); }
    if text == "!" || text == "end" { return Ok(Reading(blocks, None)); }
    if raw[0] != ' ' && raw[0] != '\t' {
      if text == "exit" { return Ok(Reading(blocks, None)); }
      var known := blocks;
      if IndexOf(blocks, text) == |blocks| { known := known + [Block(text, [])]; }
      return Ok(Reading(known, Some(text)));
    }
    if current.None? { return Err(OutsideAnyBlock); }
    if OpensNested(text) { return Err(NestedBlock); }
    return Ok(Reading(AddLine(blocks, current.value, text), current));
  }

  method ParseFrr(text: string) returns (r: Result<seq<Block>, Drift>)
    ensures r == Parsed(text)
  {
    hide ReadLine, Normalized, ConfigLines;
    var normal := NormalizeConfig(text);
    NormalizingTwiceIsOnce(text);
    var lines := ConfigLines(normal);
    var rd := Reading([], None);
    var i := 0;
    while i < |lines|
      invariant 0 <= i <= |lines|
      invariant ReadLines(Reading([], None), lines[..i]) == Ok(rd)
    {
      var step := TakeLine(rd.blocks, rd.current, lines[i]);
      assert lines[..i + 1][..i] == lines[..i];
      if step.Err? {
        ErrorsStay(Reading([], None), lines, i + 1);
        return Err(step.error);
      }
      rd := step.value;
      i := i + 1;
    }
    assert lines[..|lines|] == lines;
    r := Ok(rd.blocks);
  }

  // ---- Printing, and reading back ----

  predicate HeaderText(s: string) {
    Trimmed(s) && OneLine(s) && s != "!" && s != "end" && s != "exit"
  }

  predicate LineText(s: string) {
    Trimmed(s) && OneLine(s) && s != "!" && s != "end" && !OpensNested(s)
  }

  ghost predicate PrintableBlock(b: Block) {
    HeaderText(b.header) && forall i :: 0 <= i < |b.lines| ==> LineText(b.lines[i])
  }

  ghost predicate Printable(blocks: seq<Block>) {
    Distinct(blocks) && forall i :: 0 <= i < |blocks| ==> PrintableBlock(blocks[i])
  }

  ghost predicate NoNoise(blocks: seq<Block>) {
    forall i :: 0 <= i < |blocks| ==> !Noise(blocks[i].header)
  }

  function Indented(lines: seq<string>): seq<string> {
    if lines == [] then [] else Indented(lines[..|lines| - 1]) + [" " + lines[|lines| - 1]]
  }

  function BlockLines(b: Block): seq<string> { [b.header] + Indented(b.lines) + ["!"] }

  function Printed(blocks: seq<Block>): seq<string> {
    if blocks == [] then [] else Printed(blocks[..|blocks| - 1]) + BlockLines(blocks[|blocks| - 1])
  }

  lemma {:induction false} ReadLinesOfSum(rd: Reading, a: seq<string>, b: seq<string>)
    ensures ReadLines(rd, a + b) ==
      if ReadLines(rd, a).Err? then ReadLines(rd, a) else ReadLines(ReadLines(rd, a).value, b)
  {
    hide ReadLine;
    if b == [] {
      assert a + b == a;
    } else {
      var front := b[..|b| - 1];
      ReadLinesOfSum(rd, a, front);
      assert (a + b)[..|a + b| - 1] == a + front;
    }
  }

  lemma HeaderOpens(rd: Reading, header: string)
    requires HeaderText(header) && header !in Names(rd.blocks)
    ensures ReadLine(rd, header) == Ok(Reading(rd.blocks + [Block(header, [])], Some(header)))
  {
    TrimmedStays(header);
    assert forall j :: 0 <= j < |rd.blocks| ==> rd.blocks[j].header in Names(rd.blocks);
  }

  lemma IndentedTrims(line: string)
    requires Trimmed(line)
    ensures Trim(" " + line) == line
  {
    var s := " " + line;
    assert s[|s| - 1] == line[|line| - 1];
    assert TrimRight(s) == s;
    assert s[1..] == line;
    assert TrimLeft(s) == TrimLeft(line);
  }

  lemma LineIsAdded(blocks: seq<Block>, header: string, done: seq<string>, line: string)
    requires LineText(line) && header !in Names(blocks)
    ensures ReadLine(Reading(blocks + [Block(header, done)], Some(header)), " " + line)
      == Ok(Reading(blocks + [Block(header, done + [line])], Some(header)))
  {
    hide IndexOf, Trim, OneLine;
    IndentedTrims(line);
    var all := blocks + [Block(header, done)];
    assert forall j :: 0 <= j < |blocks| ==> all[j].header in Names(blocks);
    assert all[|blocks|].header == header;
    assert IndexOf(all, header) == |blocks|;
    assert all[|blocks| := Block(header, done + [line])] == blocks + [Block(header, done + [line])];
  }

  lemma {:induction false} LinesAreAdded(blocks: seq<Block>, header: string, lines: seq<string>)
    requires header !in Names(blocks) && forall i :: 0 <= i < |lines| ==> LineText(lines[i])
    ensures ReadLines(Reading(blocks + [Block(header, [])], Some(header)), Indented(lines))
      == Ok(Reading(blocks + [Block(header, lines)], Some(header)))
  {
    hide ReadLine, LineText;
    if lines != [] {
      var front, last := lines[..|lines| - 1], lines[|lines| - 1];
      LinesAreAdded(blocks, header, front);
      LineIsAdded(blocks, header, front, last);
      assert front + [last] == lines;
      assert Indented(lines)[..|Indented(lines)| - 1] == Indented(front);
    }
  }

  lemma BlockReadsBack(rd: Reading, b: Block)
    requires PrintableBlock(b) && b.header !in Names(rd.blocks)
    ensures ReadLines(rd, BlockLines(b)) == Ok(Reading(rd.blocks + [b], None))
  {
    hide ReadLine, HeaderText, LineText, Names, OneLine;
    HeaderOpens(rd, b.header);
    assert ReadLines(rd, [b.header]) == ReadLine(rd, b.header) by { assert ([b.header])[..0] == []; }
    LinesAreAdded(rd.blocks, b.header, b.lines);
    ReadLinesOfSum(rd, [b.header], Indented(b.lines));
    var open := Reading(rd.blocks + [b], Some(b.header));
    BangCloses(open);
    ReadLinesOfSum(rd, [b.header] + Indented(b.lines), ["!"]);
  }

  lemma BangCloses(rd: Reading)
    ensures ReadLines(rd, ["!"]) == Ok(rd.(current := None))
  {
    TrimmedStays("!");
    assert ["!"][..0] == [];
    assert ReadLines(rd, []) == Ok(rd);
  }

  lemma LastNameIsNew(blocks: seq<Block>)
    requires Printable(blocks) && blocks != []
    ensures Printable(blocks[..|blocks| - 1]) && PrintableBlock(blocks[|blocks| - 1])
    ensures blocks[|blocks| - 1].header !in Names(blocks[..|blocks| - 1])
  {
  }

  lemma NothingRead(rd: Reading)
    ensures ReadLines(rd, []) == Ok(rd)
  {
  }

  lemma {:induction false} BlocksReadBack(blocks: seq<Block>)
    requires Printable(blocks)
    ensures ReadLines(Reading([], None), Printed(blocks)) == Ok(Reading(blocks, None))
  {
    hide Printable, PrintableBlock, ReadLines, BlockLines, Names;
    NothingRead(Reading([], None));
    if blocks != [] {
      var front, last := blocks[..|blocks| - 1], blocks[|blocks| - 1];
      LastNameIsNew(blocks);
      BlocksReadBack(front);
      ReadLinesOfSum(Reading([], None), Printed(front), BlockLines(last));
      BlockReadsBack(Reading(front, None), last);
      assert front + [last] == blocks;
    }
  }

  lemma {:induction false} IndentedAreConfigLines(lines: seq<string>)
    requires forall i :: 0 <= i < |lines| ==> LineText(lines[i])
    ensures |Indented(lines)| == |lines|
    ensures forall i :: 0 <= i < |lines| ==> ConfigLine(Indented(lines)[i])
  {
    if lines != [] {
      IndentedAreConfigLines(lines[..|lines| - 1]);
      var line := lines[|lines| - 1];
      var s := " " + line;
      assert s[0] == ' ' && s[|s| - 1] == line[|line| - 1];
      assert forall i :: 1 <= i < |s| ==> s[i] == line[i - 1];
      assert ConfigLine(s);
    }
  }

  lemma {:induction false} PrintedAreConfigLines(blocks: seq<Block>)
    requires Printable(blocks) && NoNoise(blocks)
    ensures forall i :: 0 <= i < |Printed(blocks)| ==> ConfigLine(Printed(blocks)[i])
  {
    if blocks != [] {
      var front, last := blocks[..|blocks| - 1], blocks[|blocks| - 1];
      PrintedAreConfigLines(front);
      assert PrintableBlock(last);
      IndentedAreConfigLines(last.lines);
      assert ConfigLine("!");
    }
  }

  /** The reader inverts the depth-one printer on every printable configuration. */
  lemma ParseInvertsPrint(blocks: seq<Block>)
    requires Printable(blocks) && NoNoise(blocks)
    ensures Parsed(Lines(Printed(blocks))) == Ok(blocks)
  {
    PrintedAreConfigLines(blocks);
    PrintedLinesReadBack(Printed(blocks));
    BlocksReadBack(blocks);
  }

  // ---- Everything read is printable ----

  ghost predicate GoodReading(rd: Reading) {
    && Printable(rd.blocks)
    && (rd.current.Some? ==> rd.current.value in Names(rd.blocks))
  }

  lemma TrimOfConfigLine(raw: string)
    requires ConfigLine(raw)
    ensures Trimmed(Trim(raw)) && OneLine(Trim(raw))
    ensures !IsSpace(raw[0]) ==> Trim(raw) == raw
  {
    assert TrimRight(raw) == raw;
    var t := TrimLeft(raw);
    assert t == raw[|raw| - |t|..];
    assert t != [] by { assert !IsSpace(raw[|raw| - 1]); }
    assert t[|t| - 1] == raw[|raw| - 1];
  }

  lemma OpenKeeps(rd: Reading, header: string)
    requires GoodReading(rd) && HeaderText(header)
    ensures GoodReading(OpenBlock(rd, header))
  {
    hide HeaderText, LineText;
    var rd' := OpenBlock(rd, header);
    var i := IndexOf(rd.blocks, header);
    assert rd'.blocks[i].header == header;
    assert forall j :: 0 <= j < |rd.blocks| ==> rd'.blocks[j] == rd.blocks[j];
    assert header in Names(rd'.blocks);
  }

  lemma AddKeeps(rd: Reading, line: string)
    requires GoodReading(rd) && rd.current.Some? && LineText(line)
    ensures GoodReading(rd.(blocks := AddLine(rd.blocks, rd.current.value, line)))
  {
    hide HeaderText, LineText;
    var i := IndexOf(rd.blocks, rd.current.value);
    var blocks' := AddLine(rd.blocks, rd.current.value, line);
    assert |blocks'| == |rd.blocks|;
    assert forall j :: 0 <= j < |blocks'| ==> blocks'[j].header == rd.blocks[j].header;
    assert i < |rd.blocks| ==> PrintableBlock(rd.blocks[i]);
    assert Names(blocks') == Names(rd.blocks);
    forall j | 0 <= j < |blocks'| ensures PrintableBlock(blocks'[j]) {
      assert PrintableBlock(rd.blocks[j]);
    }
  }

  lemma ReadLineKeeps(rd: Reading, raw: string)
    requires GoodReading(rd) && ConfigLine(raw) && ReadLine(rd, raw).Ok?
    ensures GoodReading(ReadLine(rd, raw).value)
  {
    hide OpenBlock, AddLine, Printable, Trim, ConfigLine, Trimmed, OneLine, OpensNested, Names;
    TrimOfConfigLine(raw);
    var text := Trim(raw);
    if text == "!" || text == "end" {
    } else if raw[0] != ' ' && raw[0] != '\t' {
      if text != "exit" { OpenKeeps(rd, text); }
    } else {
      AddKeeps(rd, text);
    }
  }

  lemma {:induction false} ReadLinesKeep(lines: seq<string>)
    requires forall i :: 0 <= i < |lines| ==> ConfigLine(lines[i])
    requires ReadLines(Reading([], None), lines).Ok?
    ensures GoodReading(ReadLines(Reading([], None), lines).value)
  {
    hide ReadLine, ConfigLine;
    if lines != [] {
      ReadLinesKeep(lines[..|lines| - 1]);
      ReadLineKeeps(ReadLines(Reading([], None), lines[..|lines| - 1]).value, lines[|lines| - 1]);
    }
  }

  /** Whatever text is read, its blocks are printable, and unless a header is itself a noise line
      (possible only behind exotic leading space) printing them reads back to the same blocks. */
  lemma EverythingReadIsPrintable(text: string)
    requires Parsed(text).Ok?
    ensures Printable(Parsed(text).value)
    ensures NoNoise(Parsed(text).value) ==> Parsed(Lines(Printed(Parsed(text).value))) == Parsed(text)
  {
    hide ReadLine, ConfigLine;
    ConfigLinesOf(text);
    ReadLinesKeep(ConfigLines(text));
    if NoNoise(Parsed(text).value) { ParseInvertsPrint(Parsed(text).value); }
  }

  /** Normalizing first changes nothing that is read. */
  lemma NormalizingKeepsTheParse(text: string)
    ensures Parsed(Normalized(text)) == Parsed(text)
  {
    NormalizingTwiceIsOnce(text);
  }
}
