/** From two parsed configurations to the command list that takes one back to the other, and a
    model of the device shell that shows the list does what it is for. */
module FrrRevert {
  import opened Prelude
  import opened FrrText

  /** The command that undoes an added line. */
  function Flip(line: string): string {
    if "no " <= line then line[3..] else "no " + line
  }

  lemma FlipTwice(line: string)
    ensures Flip(Flip(line)) == line <==> !("no no " <= line)
  {
    if "no " <= line {
      var rest := line[3..];
      assert "no no " <= line <==> "no " <= rest by {
        assert line == "no " + rest;
        if "no " <= rest { assert rest == "no " + rest[3..]; assert line == "no no " + rest[3..]; }
        if "no no " <= line { assert rest[..3] == line[3..6]; assert line[3..6] == "no "; }
      }
      if "no " <= rest { assert |Flip(rest)| < |line|; }
    } else {
      assert Flip(line)[3..] == line;
    }
  }

  // ---- What a configuration means ----

  function AsSet(lines: seq<string>): set<string> { set i | 0 <= i < |lines| :: lines[i] }

  function LinesUnder(blocks: seq<Block>, header: string): seq<string> {
    var i := IndexOf(blocks, header);
    if i < |blocks| then blocks[i].lines else []
  }

  /** Order and repetition aside: which headers, and which lines under each. */
  function Meaning(blocks: seq<Block>): map<string, set<string>> {
    map h | h in Names(blocks) :: AsSet(LinesUnder(blocks, h))
  }

  lemma NamesAndIndex(blocks: seq<Block>, h: string)
    ensures h in Names(blocks) <==> IndexOf(blocks, h) < |blocks|
  {
  }

  lemma OwnLines(blocks: seq<Block>, i: nat)
    requires Distinct(blocks) && i < |blocks|
    ensures IndexOf(blocks, blocks[i].header) == i
    ensures blocks[i].header in Names(blocks) && LinesUnder(blocks, blocks[i].header) == blocks[i].lines
  {
    var k := IndexOf(blocks, blocks[i].header);
    assert k <= i;
  }

  // ---- The command list ----

  function Without(lines: seq<string>, others: set<string>): (r: seq<string>)
    ensures forall i :: 0 <= i < |r| ==> r[i] in AsSet(lines) && r[i] !in others
    ensures AsSet(r) == AsSet(lines) - others
  {
    if lines == [] then []
    else
      var front, last := lines[..|lines| - 1], lines[|lines| - 1];
      assert lines == front + [last];
      assert AsSet(lines) == AsSet(front) + {last};
      var kept := Without(front, others);
      assert last !in others ==> AsSet(kept + [last]) == AsSet(kept) + {last} by {
        var more := kept + [last];
        assert more[|kept|] == last;
        assert forall i :: 0 <= i < |kept| ==> more[i] == kept[i];
      }
      if last in others then kept else kept + [last]
  }

  function Flipped(lines: seq<string>): (r: seq<string>)
    ensures |r| == |lines| && forall i :: 0 <= i < |r| ==> r[i] == Flip(lines[i])
  {
    if lines == [] then [] else Flipped(lines[..|lines| - 1]) + [Flip(lines[|lines| - 1])]
  }

  /** Commands for one block that is there now. */
  function Undo(base: seq<Block>, b: Block): seq<string> {
    if b.header !in Names(base) then [Flip(b.header)]
    else
      var was := LinesUnder(base, b.header);
      var added, removed := Without(b.lines, AsSet(was)), Without(was, AsSet(b.lines));
      if added == [] && removed == [] then []
      else [b.header] + Flipped(added) + removed + ["exit"]
  }

  /** Commands for one block the baseline has. */
  function Redo(cur: seq<Block>, b: Block): seq<string> {
    if b.header in Names(cur) then []
    else [b.header] + b.lines + (if b.lines == [] then [] else ["exit"])
  }

  function UndoAll(base: seq<Block>, cur: seq<Block>): seq<string> {
    if cur == [] then [] else UndoAll(base, cur[..|cur| - 1]) + Undo(base, cur[|cur| - 1])
  }

  function RedoAll(cur: seq<Block>, base: seq<Block>): seq<string> {
    if base == [] then [] else RedoAll(cur, base[..|base| - 1]) + Redo(cur, base[|base| - 1])
  }

  function Revert(base: seq<Block>, cur: seq<Block>): seq<string> {
    UndoAll(base, cur) + RedoAll(cur, base)
  }

  method RevertArgs(baseline: string, current: string) returns (r: Result<seq<string>, Drift>)
    ensures r.Ok? <==> Parsed(baseline).Ok? && Parsed(current).Ok?
    ensures r.Ok? ==> r.value == Revert(Parsed(baseline).value, Parsed(current).value)
  {
    hide Parsed, Undo, Redo;
    var pb := ParseFrr(baseline);
    if pb.Err? { return Err(pb.error); }
    var pc := ParseFrr(current);
    if pc.Err? { return Err(pc.error); }
    var base, cur := pb.value, pc.value;
    var args: seq<string> := [];
    var i := 0;
    while i < |cur|
      invariant 0 <= i <= |cur|
      invariant args == UndoAll(base, cur[..i])
    {
      assert cur[..i + 1][..i] == cur[..i];
      var more := UndoBlock(base, cur[i]);
      args := args + more;
      i := i + 1;
    }
    assert cur[..|cur|] == cur;
    ghost var undone := args;
    i := 0;
    while i < |base|
      invariant 0 <= i <= |base|
      invariant args == undone + RedoAll(cur, base[..i])
    {
      assert base[..i + 1][..i] == base[..i];
      var more := RedoBlock(cur, base[i]);
      assert args + more == undone + (RedoAll(cur, base[..i]) + more);
      args := args + more;
      i := i + 1;
    }
    assert base[..|base|] == base;
    r := Ok(args);
  }

  method UndoBlock(base: seq<Block>, b: Block) returns (args: seq<string>)
    ensures args == Undo(base, b)
  {
    args := [];
    if b.header !in Names(base) { return [Flip(b.header)]; }
    var was := LinesUnder(base, b.header);
    var added, removed := Without(b.lines, AsSet(was)), Without(was, AsSet(b.lines));
    if added != [] || removed != [] {
      args := args + [b.header];
      args := args + Flipped(added);
      args := args + removed;
      args := args + ["exit"];
    }
  }

  method RedoBlock(cur: seq<Block>, b: Block) returns (args: seq<string>)
    ensures args == Redo(cur, b)
  {
    args := [];
    if b.header !in Names(cur) {
      args := [b.header] + b.lines;
      if b.lines != [] { args := args + ["exit"]; }
    }
  }

  // ---- The device shell ----

  /** Configuration mode: what is configured, and the block being edited. */
  datatype Shell = Shell(config: map<string, set<string>>, at: Option<string>)

  function Toggle(lines: set<string>, c: string): set<string> {
    if Flip(c) in lines then lines - {Flip(c)} else lines + {c}
  }

  /** `top` says which commands belong to the top level; the shell walks up to it on its own. A
      command removes its negation if that is there, else asserts itself or enters its block. */
  function Exec(top: string -> bool, sh: Shell, c: string): Option<Shell> {
    if c == "exit" then Some(sh.(at := None))
    else if top(c) then
      if Flip(c) in sh.config then Some(Shell(sh.config - {Flip(c)}, None))
      else Some(Shell(if c in sh.config then sh.config else sh.config[c := {}], Some(c)))
    else if sh.at.None? || sh.at.value !in sh.config then None
    else Some(sh.(config := sh.config[sh.at.value := Toggle(sh.config[sh.at.value], c)]))
  }

  function Run(top: string -> bool, sh: Shell, args: seq<string>): Option<Shell> {
    if args == [] then Some(sh)
    else
      var r := Run(top, sh, args[..|args| - 1]);
      if r.None? then None else Exec(top, r.value, args[|args| - 1])
  }

  lemma {:induction false} RunOfSum(top: string -> bool, sh: Shell, a: seq<string>, b: seq<string>)
    ensures Run(top, sh, a + b) == if Run(top, sh, a).None? then None else Run(top, Run(top, sh, a).value, b)
  {
    hide Exec;
    if b == [] {
      assert a + b == a;
    } else {
      var front := b[..|b| - 1];
      RunOfSum(top, sh, a, front);
      assert (a + b)[..|a + b| - 1] == a + front;
    }
  }

  lemma RunOne(top: string -> bool, sh: Shell, c: string)
    ensures Run(top, sh, [c]) == Exec(top, sh, c)
  {
    hide Exec;
    assert [c][..0] == [];
    assert Run(top, sh, []) == Some(sh);
  }

  // ---- When the list is empty ----

  /** Nothing is proposed exactly when the two configurations mean the same. */
  lemma EmptyExactlyWhenEqual(base: seq<Block>, cur: seq<Block>)
    requires Distinct(base) && Distinct(cur)
    ensures Revert(base, cur) == [] <==> Meaning(base) == Meaning(cur)
  {
    hide Undo, Redo, LinesUnder, IndexOf;
    UndoAllEmpty(base, cur);
    RedoAllEmpty(cur, base);
    assert Revert(base, cur) == [] <==> UndoAll(base, cur) == [] && RedoAll(cur, base) == [];
    if Revert(base, cur) == [] {
      forall h ensures h in Meaning(base) <==> h in Meaning(cur) {
        if h in Names(base) { var i :| 0 <= i < |base| && base[i].header == h; RedoEmpty(cur, base[i]); }
        if h in Names(cur) { var i :| 0 <= i < |cur| && cur[i].header == h; UndoEmpty(base, cur, i); }
      }
      forall h | h in Meaning(cur) ensures Meaning(base)[h] == Meaning(cur)[h] {
        var i :| 0 <= i < |cur| && cur[i].header == h;
        UndoEmpty(base, cur, i);
      }
    }
    if Meaning(base) == Meaning(cur) {
      assert Meaning(base).Keys == Meaning(cur).Keys;
      forall i | 0 <= i < |cur| ensures Undo(base, cur[i]) == [] {
        UndoEmpty(base, cur, i);
        assert cur[i].header in Meaning(cur);
      }
      forall i | 0 <= i < |base| ensures Redo(cur, base[i]) == [] {
        RedoEmpty(cur, base[i]);
        assert base[i].header in Meaning(base);
      }
    }
  }

  lemma UndoEmpty(base: seq<Block>, cur: seq<Block>, i: nat)
    requires Distinct(cur) && i < |cur|
    ensures cur[i].header in Meaning(cur)
    ensures Undo(base, cur[i]) == [] <==>
      cur[i].header in Meaning(base) && Meaning(base)[cur[i].header] == Meaning(cur)[cur[i].header]
  {
    var b := cur[i];
    OwnLines(cur, i);
    var was := LinesUnder(base, b.header);
    var added, removed := Without(b.lines, AsSet(was)), Without(was, AsSet(b.lines));
    EmptyAsSet(added);
    EmptyAsSet(removed);
    assert added == [] && removed == [] <==> AsSet(b.lines) == AsSet(was);
  }

  lemma RedoEmpty(cur: seq<Block>, b: Block)
    ensures Redo(cur, b) == [] <==> b.header in Names(cur)
  {
  }

  lemma EmptyAsSet(lines: seq<string>)
    ensures lines == [] <==> AsSet(lines) == {}
  {
    if lines != [] { assert lines[0] in AsSet(lines); }
  }

  lemma {:induction false} UndoAllEmpty(base: seq<Block>, cur: seq<Block>)
    ensures UndoAll(base, cur) == [] <==> forall i :: 0 <= i < |cur| ==> Undo(base, cur[i]) == []
  {
    hide Undo;
    if cur != [] {
      var front := cur[..|cur| - 1];
      UndoAllEmpty(base, front);
      assert forall i :: 0 <= i < |front| ==> front[i] == cur[i];
    }
  }

  lemma {:induction false} RedoAllEmpty(cur: seq<Block>, base: seq<Block>)
    ensures RedoAll(cur, base) == [] <==> forall i :: 0 <= i < |base| ==> Redo(cur, base[i]) == []
  {
    hide Redo;
    if base != [] {
      var front := base[..|base| - 1];
      RedoAllEmpty(cur, front);
      assert forall i :: 0 <= i < |front| ==> front[i] == base[i];
    }
  }

  // ---- Running the list ----

  predicate IsTop(top: string -> bool, c: string) { top(c) && c != "exit" }

  predicate IsLine(top: string -> bool, c: string) { !top(c) && c != "exit" }

  /** The device's grammar tells the headers and lines of these blocks, and their negations, apart. */
  ghost predicate Speaks(top: string -> bool, blocks: seq<Block>) {
    forall i :: 0 <= i < |blocks| ==> SpeaksBlock(top, blocks[i])
  }

  ghost predicate SpeaksBlock(top: string -> bool, b: Block) {
    && IsTop(top, b.header) && IsTop(top, Flip(b.header))
    && forall j :: 0 <= j < |b.lines| ==> IsLine(top, b.lines[j]) && IsLine(top, Flip(b.lines[j]))
  }

  ghost predicate NoNegations(lines: set<string>) {
    forall l :: l in lines ==> Flip(l) !in lines
  }

  ghost predicate NoRepeats(lines: seq<string>) {
    forall j, k :: 0 <= j < k < |lines| ==> lines[j] != lines[k]
  }

  predicate DoublyNegated(c: string) { "no no " <= c }

  /** What is required of the edit of one block: added lines differ and are not doubly negated, and no
      restored line stands beside its negation in the baseline. */
  ghost predicate CleanEdit(was: seq<string>, now: seq<string>) {
    var added, removed := Without(now, AsSet(was)), Without(was, AsSet(now));
    && NoRepeats(added)
    && (forall j :: 0 <= j < |added| ==> !DoublyNegated(added[j]))
    && (forall j :: 0 <= j < |removed| ==> Flip(removed[j]) !in AsSet(was))
  }

  /** A block that is there now: an edited one is not beside its own negation, and one that goes is not
      doubly negated. */
  ghost predicate CleanUndo(base: seq<Block>, headers: set<string>, b: Block) {
    if b.header !in Names(base) then !DoublyNegated(b.header)
    else Undo(base, b) == [] || (Flip(b.header) !in headers && CleanEdit(LinesUnder(base, b.header), b.lines))
  }

  /** A block that comes back has no line, and the baseline no header, beside its negation. */
  ghost predicate CleanRedo(base: seq<Block>, cur: seq<Block>, b: Block) {
    b.header in Names(cur) || (Flip(b.header) !in Names(base) && NoNegations(AsSet(b.lines)))
  }

  ghost predicate CleanChange(base: seq<Block>, cur: seq<Block>) {
    && Distinct(base) && Distinct(cur)
    && (forall i :: 0 <= i < |cur| ==> CleanUndo(base, Names(cur), cur[i]))
    && (forall i :: 0 <= i < |base| ==> CleanRedo(base, cur, base[i]))
  }

  lemma FlipRemoves(top: string -> bool, config: map<string, set<string>>, h: string, gone: set<string>, line: string)
    requires h in config && line in config[h] && line !in gone
    requires IsLine(top, Flip(line)) && !DoublyNegated(line)
    ensures Exec(top, Shell(config[h := config[h] - gone], Some(h)), Flip(line))
      == Some(Shell(config[h := config[h] - (gone + {line})], Some(h)))
  {
    hide Flip;
    FlipTwice(line);
    var left := config[h] - gone;
    assert left - {line} == config[h] - (gone + {line});
    assert config[h := left][h := left - {line}] == config[h := left - {line}];
  }

  lemma {:induction false} FlipsRemove(top: string -> bool, config: map<string, set<string>>, h: string, lines: seq<string>)
    requires h in config && AsSet(lines) <= config[h] && NoRepeats(lines)
    requires forall j :: 0 <= j < |lines| ==> IsLine(top, Flip(lines[j])) && !DoublyNegated(lines[j])
    ensures Run(top, Shell(config, Some(h)), Flipped(lines))
      == Some(Shell(config[h := config[h] - AsSet(lines)], Some(h)))
  {
    hide Exec, Flip, IsLine;
    if lines == [] {
      assert config[h] - AsSet(lines) == config[h];
      assert config[h := config[h]] == config;
    } else {
      var front, last := lines[..|lines| - 1], lines[|lines| - 1];
      AsSetOfSum(front, last);
      assert lines == front + [last];
      FlipsRemove(top, config, h, front);
      assert Flipped(lines)[..|lines| - 1] == Flipped(front);
      assert last !in AsSet(front);
      FlipRemoves(top, config, h, AsSet(front), last);
    }
  }

  lemma AsSetOfSum(lines: seq<string>, line: string)
    ensures AsSet(lines + [line]) == AsSet(lines) + {line}
  {
    var all := lines + [line];
    assert all[|lines|] == line;
    assert forall i :: 0 <= i < |lines| ==> all[i] == lines[i];
  }

  lemma {:induction false} LinesAssert(top: string -> bool, config: map<string, set<string>>, h: string, lines: seq<string>)
    requires h in config
    requires forall j :: 0 <= j < |lines| ==> IsLine(top, lines[j]) && Flip(lines[j]) !in config[h] + AsSet(lines)
    ensures Run(top, Shell(config, Some(h)), lines)
      == Some(Shell(config[h := config[h] + AsSet(lines)], Some(h)))
  {
    if lines == [] {
      assert config[h] + AsSet(lines) == config[h];
      assert config[h := config[h]] == config;
    } else {
      var front, last := lines[..|lines| - 1], lines[|lines| - 1];
      assert lines == front + [last];
      AsSetOfSum(front, last);
      LinesAssert(top, config, h, front);
      var so := config[h] + AsSet(front);
      assert Flip(last) !in config[h] + AsSet(lines);
      assert Toggle(so, last) == config[h] + AsSet(lines);
      assert config[h := so][h := config[h] + AsSet(lines)] == config[h := config[h] + AsSet(lines)];
    }
  }

  /** One block's commands set that block to its baseline, and touch nothing else. */
  function Settled(base: seq<Block>, config: map<string, set<string>>, h: string): map<string, set<string>> {
    if h in Names(base) then config[h := AsSet(LinesUnder(base, h))] else config - {h}
  }

  ghost predicate Reaches(r: Option<Shell>, config: map<string, set<string>>) {
    r.Some? && r.value.config == config
  }

  lemma EditsSettle(top: string -> bool, config: map<string, set<string>>, h: string, was: seq<string>, now: seq<string>)
    requires h in config && config[h] == AsSet(now) && CleanEdit(was, now)
    requires forall l :: l in AsSet(now) ==> IsLine(top, Flip(l))
    requires forall l :: l in AsSet(was) ==> IsLine(top, l)
    ensures Run(top, Shell(config, Some(h)), Flipped(Without(now, AsSet(was))) + Without(was, AsSet(now)))
      == Some(Shell(config[h := AsSet(was)], Some(h)))
  {
    hide Run, Flipped, IsLine, Without, AsSet, Flip, DoublyNegated;
    var added, removed := Without(now, AsSet(was)), Without(was, AsSet(now));
    FlipsRemove(top, config, h, added);
    var between := config[h := AsSet(now) - AsSet(added)];
    assert between[h] + AsSet(removed) == AsSet(was);
    LinesAssert(top, between, h, removed);
    assert between[h := AsSet(was)] == config[h := AsSet(was)];
    RunOfSum(top, Shell(config, Some(h)), Flipped(added), removed);
  }

  lemma UndoSettles(top: string -> bool, base: seq<Block>, headers: set<string>, sh: Shell, b: Block)
    requires Speaks(top, base) && SpeaksBlock(top, b) && CleanUndo(base, headers, b) && sh.config.Keys <= headers
    requires b.header in sh.config && sh.config[b.header] == AsSet(b.lines)
    ensures Reaches(Run(top, sh, Undo(base, b)), Settled(base, sh.config, b.header))
  {
    hide Run, Without, Flipped, AsSet, IsLine, Flip, LinesUnder, CleanEdit, Undo, Names;
    if b.header !in Names(base) {
      BlockGoes(top, base, sh, b);
    } else if Undo(base, b) == [] {
      BlockStays(top, base, sh, b);
    } else {
      BlockIsEdited(top, base, sh, b);
    }
  }

  lemma BlockGoes(top: string -> bool, base: seq<Block>, sh: Shell, b: Block)
    requires SpeaksBlock(top, b) && b.header !in Names(base) && !DoublyNegated(b.header) && b.header in sh.config
    ensures Reaches(Run(top, sh, Undo(base, b)), sh.config - {b.header})
  {
    hide Run, IsTop, Flip, Without, Flipped, AsSet, LinesUnder, Names;
    RunOne(top, sh, Flip(b.header));
    FlipTwice(b.header);
    TopRemoves(top, sh, b.header);
  }

  lemma BlockStays(top: string -> bool, base: seq<Block>, sh: Shell, b: Block)
    requires b.header in Names(base) && Undo(base, b) == []
    requires b.header in sh.config && sh.config[b.header] == AsSet(b.lines)
    ensures Reaches(Run(top, sh, Undo(base, b)), sh.config[b.header := AsSet(LinesUnder(base, b.header))])
  {
    hide Run, Without, AsSet, LinesUnder, Names;
    var was := LinesUnder(base, b.header);
    EmptyAsSet(Without(b.lines, AsSet(was)));
    EmptyAsSet(Without(was, AsSet(b.lines)));
    assert AsSet(was) == AsSet(b.lines);
    NothingRuns(top, sh);
    assert sh.config[b.header := AsSet(was)] == sh.config;
  }

  lemma BlockIsEdited(top: string -> bool, base: seq<Block>, sh: Shell, b: Block)
    requires Speaks(top, base) && SpeaksBlock(top, b) && b.header in Names(base) && Undo(base, b) != []
    requires b.header in sh.config && sh.config[b.header] == AsSet(b.lines) && Flip(b.header) !in sh.config
    requires CleanEdit(LinesUnder(base, b.header), b.lines)
    ensures Reaches(Run(top, sh, Undo(base, b)), sh.config[b.header := AsSet(LinesUnder(base, b.header))])
  {
    hide Run, Without, Flipped, AsSet, IsLine, Flip, LinesUnder, CleanEdit, Names, Speaks;
    var was := LinesUnder(base, b.header);
    var added, removed := Without(b.lines, AsSet(was)), Without(was, AsSet(b.lines));
    BaselineLines(top, base, b.header);
    CurrentLines(top, b);
    EditRuns(top, sh, b.header, was, b.lines);
    assert Undo(base, b) == [b.header] + (Flipped(added) + removed) + ["exit"];
  }

  lemma TopRemoves(top: string -> bool, sh: Shell, header: string)
    requires IsTop(top, Flip(header)) && Flip(Flip(header)) == header && header in sh.config
    ensures Exec(top, sh, Flip(header)) == Some(Shell(sh.config - {header}, None))
  {
    hide Flip;
  }

  lemma BaselineLines(top: string -> bool, base: seq<Block>, header: string)
    requires Speaks(top, base) && header in Names(base)
    ensures forall l :: l in AsSet(LinesUnder(base, header)) ==> IsLine(top, l)
  {
    hide Flip, IndexOf;
    NamesAndIndex(base, header);
    assert SpeaksBlock(top, base[IndexOf(base, header)]);
  }

  lemma CurrentLines(top: string -> bool, b: Block)
    requires SpeaksBlock(top, b)
    ensures forall l :: l in AsSet(b.lines) ==> IsLine(top, Flip(l))
  {
    hide Flip;
  }

  lemma NothingRuns(top: string -> bool, sh: Shell)
    ensures Run(top, sh, []) == Some(sh)
  {
  }

  lemma EditRuns(top: string -> bool, sh: Shell, h: string, was: seq<string>, now: seq<string>)
    requires IsTop(top, h) && h in sh.config && Flip(h) !in sh.config
    requires sh.config[h] == AsSet(now) && CleanEdit(was, now)
    requires forall l :: l in AsSet(now) ==> IsLine(top, Flip(l))
    requires forall l :: l in AsSet(was) ==> IsLine(top, l)
    ensures Run(top, sh, [h] + (Flipped(Without(now, AsSet(was))) + Without(was, AsSet(now))) + ["exit"])
      == Some(Shell(sh.config[h := AsSet(was)], None))
  {
    hide Run, Without, Flipped, IsLine, CleanEdit, AsSet;
    var edits := Flipped(Without(now, AsSet(was))) + Without(was, AsSet(now));
    RunOne(top, sh, h);
    EditsSettle(top, sh.config, h, was, now);
    RunOfSum(top, sh, [h], edits);
    var inside := Shell(sh.config[h := AsSet(was)], Some(h));
    RunOne(top, inside, "exit");
    RunOfSum(top, sh, [h] + edits, ["exit"]);
  }

  lemma RedoSettles(top: string -> bool, sh: Shell, b: Block)
    requires SpeaksBlock(top, b) && NoNegations(AsSet(b.lines))
    requires b.header !in sh.config && Flip(b.header) !in sh.config
    ensures Reaches(Run(top, sh, [b.header] + b.lines + (if b.lines == [] then [] else ["exit"])),
                    sh.config[b.header := AsSet(b.lines)])
  {
    hide Run, IsLine;
    var entered := Shell(sh.config[b.header := {}], Some(b.header));
    RunOne(top, sh, b.header);
    assert {} + AsSet(b.lines) == AsSet(b.lines);
    LinesAssert(top, entered.config, b.header, b.lines);
    RunOfSum(top, sh, [b.header], b.lines);
    assert entered.config[b.header := AsSet(b.lines)] == sh.config[b.header := AsSet(b.lines)];
    var inside := Shell(sh.config[b.header := AsSet(b.lines)], Some(b.header));
    RunOne(top, inside, "exit");
    RunOfSum(top, sh, [b.header] + b.lines, ["exit"]);
    assert [b.header] + b.lines + [] == [b.header] + b.lines;
  }

  /** The configuration after the first `i` current blocks are undone. */
  ghost function Undone(base: seq<Block>, cur: seq<Block>, i: nat): map<string, set<string>>
    requires i <= |cur|
  {
    if i == 0 then Meaning(cur) else Settled(base, Undone(base, cur, i - 1), cur[i - 1].header)
  }

  /** Undone blocks are as the baseline has them, or gone; the others are untouched. */
  ghost predicate UndoneIs(base: seq<Block>, cur: seq<Block>, undone: set<string>, config: map<string, set<string>>) {
    && (forall h :: h in config <==> h in Names(cur) && (h in undone ==> h in Names(base)))
    && (forall h :: h in config ==> config[h] == AsSet(LinesUnder(if h in undone then base else cur, h)))
  }

  lemma SettleOne(base: seq<Block>, cur: seq<Block>, undone: set<string>, config: map<string, set<string>>, h: string)
    requires UndoneIs(base, cur, undone, config) && h in Names(cur)
    ensures UndoneIs(base, cur, undone + {h}, Settled(base, config, h))
  {
    hide LinesUnder, AsSet, Names;
  }

  lemma NothingUndone(base: seq<Block>, cur: seq<Block>)
    ensures UndoneIs(base, cur, {}, Meaning(cur))
  {
    hide LinesUnder;
  }

  lemma {:induction false} UndoneMeans(base: seq<Block>, cur: seq<Block>, i: nat)
    requires i <= |cur|
    ensures UndoneIs(base, cur, Names(cur[..i]), Undone(base, cur, i))
  {
    hide UndoneIs, Settled, LinesUnder;
    if i == 0 {
      NothingUndone(base, cur);
      assert Names(cur[..0]) == {};
    } else {
      UndoneMeans(base, cur, i - 1);
      assert cur[..i] == cur[..i - 1] + [cur[i - 1]];
      NamesOfSum(cur[..i - 1], cur[i - 1]);
      assert cur[i - 1].header in Names(cur);
      SettleOne(base, cur, Names(cur[..i - 1]), Undone(base, cur, i - 1), cur[i - 1].header);
    }
  }

  lemma NamesOfSum(blocks: seq<Block>, b: Block)
    ensures Names(blocks + [b]) == Names(blocks) + {b.header}
  {
    var all := blocks + [b];
    assert all[|blocks|] == b;
    assert forall i :: 0 <= i < |blocks| ==> all[i] == blocks[i];
  }

  lemma {:induction false} UndoAllRuns(top: string -> bool, base: seq<Block>, cur: seq<Block>, i: nat)
    requires CleanChange(base, cur) && Speaks(top, base) && Speaks(top, cur) && i <= |cur|
    ensures Reaches(Run(top, Shell(Meaning(cur), None), UndoAll(base, cur[..i])), Undone(base, cur, i))
  {
    hide Run, Undo, Meaning, Speaks, CleanUndo, CleanRedo, Settled;
    var start := Shell(Meaning(cur), None);
    if i == 0 {
      NothingRuns(top, start);
    } else {
      UndoAllRuns(top, base, cur, i - 1);
      assert cur[..i][..i - 1] == cur[..i - 1];
      RunOfSum(top, start, UndoAll(base, cur[..i - 1]), Undo(base, cur[i - 1]));
      var sh := Run(top, start, UndoAll(base, cur[..i - 1])).value;
      NextIsUntouched(top, base, cur, i - 1);
      UndoSettles(top, base, Names(cur), sh, cur[i - 1]);
    }
  }

  lemma NextIsUntouched(top: string -> bool, base: seq<Block>, cur: seq<Block>, i: nat)
    requires Distinct(cur) && Speaks(top, cur) && i < |cur|
    ensures var config := Undone(base, cur, i); var b := cur[i];
      && b.header in config && config[b.header] == AsSet(b.lines) && config.Keys <= Names(cur)
      && SpeaksBlock(top, b)
  {
    UndoneMeans(base, cur, i);
    OwnLines(cur, i);
    assert cur[i].header !in Names(cur[..i]);
  }

  /** The configuration after the first `i` baseline blocks are restored as well. */
  ghost predicate Restored(base: seq<Block>, cur: seq<Block>, i: nat, config: map<string, set<string>>)
    requires i <= |base|
  {
    && (forall h :: h in config <==> h in Names(base) && (h in Names(cur) || h in Names(base[..i])))
    && (forall h :: h in config ==> config[h] == AsSet(LinesUnder(base, h)))
  }

  lemma RestoreNext(base: seq<Block>, cur: seq<Block>, i: nat, config: map<string, set<string>>)
    requires CleanChange(base, cur) && i < |base| && Restored(base, cur, i, config)
    ensures base[i].header in Names(cur) ==> Restored(base, cur, i + 1, config)
    ensures base[i].header !in Names(cur) ==>
      && base[i].header !in config && Flip(base[i].header) !in config && NoNegations(AsSet(base[i].lines))
      && Restored(base, cur, i + 1, config[base[i].header := AsSet(base[i].lines)])
  {
    hide LinesUnder, CleanUndo, NoNegations;
    assert CleanRedo(base, cur, base[i]);
    OwnLines(base, i);
    assert base[..i + 1] == base[..i] + [base[i]];
    NamesOfSum(base[..i], base[i]);
    assert base[i].header !in Names(base[..i]);
  }

  lemma {:induction false} RedoAllRuns(top: string -> bool, base: seq<Block>, cur: seq<Block>, sh: Shell, i: nat)
    requires CleanChange(base, cur) && Speaks(top, base) && i <= |base|
    requires Restored(base, cur, 0, sh.config)
    ensures var r := Run(top, sh, RedoAll(cur, base[..i])); r.Some? && Restored(base, cur, i, r.value.config)
  {
    hide Run, Restored, CleanChange;
    if i == 0 {
      NothingRuns(top, sh);
      assert base[..0] == [];
    } else {
      RedoAllRuns(top, base, cur, sh, i - 1);
      assert base[..i][..i - 1] == base[..i - 1];
      var b := base[i - 1];
      RunOfSum(top, sh, RedoAll(cur, base[..i - 1]), Redo(cur, b));
      var mid := Run(top, sh, RedoAll(cur, base[..i - 1])).value;
      RestoreNext(base, cur, i - 1, mid.config);
      if b.header in Names(cur) {
        NothingRuns(top, mid);
      } else {
        assert SpeaksBlock(top, b);
        RedoSettles(top, mid, b);
      }
    }
  }

  /** Every command is accepted, and the device ends with the baseline, whatever it had. */
  lemma RevertRestoresBaseline(top: string -> bool, base: seq<Block>, cur: seq<Block>)
    requires CleanChange(base, cur) && Speaks(top, base) && Speaks(top, cur)
    ensures Reaches(Run(top, Shell(Meaning(cur), None), Revert(base, cur)), Meaning(base))
  {
    hide Run, Speaks, CleanChange, LinesUnder, Meaning, Restored, UndoneIs, Undone;
    var start := Shell(Meaning(cur), None);
    UndoAllRuns(top, base, cur, |cur|);
    assert cur[..|cur|] == cur;
    var mid := Run(top, start, UndoAll(base, cur)).value;
    UndoneMeans(base, cur, |cur|);
    NothingRestored(base, cur, mid.config);
    RedoAllRuns(top, base, cur, mid, |base|);
    assert base[..|base|] == base;
    RunOfSum(top, start, UndoAll(base, cur), RedoAll(cur, base));
    AllRestored(base, cur, Run(top, start, Revert(base, cur)).value.config);
  }

  lemma NothingRestored(base: seq<Block>, cur: seq<Block>, config: map<string, set<string>>)
    requires UndoneIs(base, cur, Names(cur), config)
    ensures Restored(base, cur, 0, config)
  {
    hide LinesUnder;
    assert base[..0] == [];
  }

  lemma AllRestored(base: seq<Block>, cur: seq<Block>, config: map<string, set<string>>)
    requires Restored(base, cur, |base|, config)
    ensures config == Meaning(base)
  {
    hide LinesUnder;
    assert base[..|base|] == base;
  }

  // ---- No condition on the change can be dropped ----

  predicate RouterTop(c: string) { c == "router" || c == "no router" || c == "no no router" }

  ghost predicate Restores(base: seq<Block>, cur: seq<Block>) {
    Reaches(Run(RouterTop, Shell(Meaning(cur), None), Revert(base, cur)), Meaning(base))
  }

  /** A line twice in the current block: the second negation asserts itself. */
  lemma RepeatedLineFails()
    ensures !Restores([Block("router", [])], [Block("router", ["a", "a"])])
  {
    var base, cur := Block("router", []), Block("router", ["a", "a"]);
    FlipsOfA();
    hide Run, Without, AsSet, Flipped;
    Pairs("a", "a", {});
    EmptyAsSet([]);
    assert AsSet(cur.lines) == {"a"};
    OneBlockEdit(base, cur, ["no a"] + ["no a"]);
    ToggleInRouter({"a"}, "no a");
    ToggleInRouter({}, "no a");
    assert Toggle({"a"}, "no a") == {};
    assert Toggle({}, "no a") == {"no a"};
    RunOfSum(RouterTop, Shell(map["router" := {"a"}], Some("router")), ["no a"], ["no a"]);
    DifferentRouters({"no a"}, {}, "no a");
  }

  /** A baseline line beside its negation: restoring the line removes the negation instead. */
  lemma NegatedPairFails()
    ensures !Restores([Block("router", ["a", "no a"])], [Block("router", ["no a"])])
  {
    var base, cur := Block("router", ["a", "no a"]), Block("router", ["no a"]);
    FlipsOfA();
    hide Run, Without, AsSet, Flipped;
    Pairs("a", "no a", {"no a"});
    Single("no a", {"a", "no a"});
    assert Flipped([]) + ["a"] == ["a"];
    OneBlockEdit(base, cur, ["a"]);
    ToggleInRouter({"no a"}, "a");
    assert Toggle({"no a"}, "a") == {};
    DifferentRouters({"a", "no a"}, {}, "a");
  }

  /** A doubly negated line: stripping one negation does not name the line. */
  lemma DoubleNegationFails()
    ensures !Restores([Block("router", [])], [Block("router", ["no no a"])])
  {
    var base, cur := Block("router", []), Block("router", ["no no a"]);
    FlipsOfA();
    hide Run, Without, AsSet, Flipped;
    Single("no no a", {});
    Single("no no a", {"no no a"});
    EmptyAsSet([]);
    assert Flipped(["no no a"]) + [] == ["no a"];
    OneBlockEdit(base, cur, ["no a"]);
    ToggleInRouter({"no no a"}, "no a");
    DifferentRouters({"no no a", "no a"}, {}, "no a");
    assert Toggle({"no no a"}, "no a") == {"no no a", "no a"};
  }

  lemma Single(a: string, others: set<string>)
    ensures AsSet([a]) == {a} && Without([a], others) == (if a in others then [] else [a]) && Without([], others) == []
  {
    assert [a][..0] == [] && [a][0] == a;
  }

  lemma Pairs(a: string, b: string, others: set<string>)
    ensures AsSet([a, b]) == {a, b} && Without([], {a, b}) == []
    ensures Without([a, b], others) == (if a in others then [] else [a]) + (if b in others then [] else [b])
  {
    Single(a, others);
    assert [a, b][..1] == [a] && [a, b][0] == a && [a, b][1] == b;
  }

  lemma ToggleInRouter(lines: set<string>, c: string)
    requires IsLine(RouterTop, c)
    ensures Run(RouterTop, Shell(map["router" := lines], Some("router")), [c])
      == Some(Shell(map["router" := Toggle(lines, c)], Some("router")))
  {
    hide Toggle;
    var sh := Shell(map["router" := lines], Some("router"));
    RunOne(RouterTop, sh, c);
    assert sh.config["router" := Toggle(lines, c)] == map["router" := Toggle(lines, c)];
  }

  lemma DifferentRouters(x: set<string>, y: set<string>, witnessed: string)
    requires witnessed in x && witnessed !in y
    ensures map["router" := x] != map["router" := y]
  {
    assert map["router" := x]["router"] != map["router" := y]["router"];
  }

  lemma FlipsOfA()
    ensures Flip("a") == "no a" && Flip("no a") == "a" && Flip("no no a") == "no a" && Flip("router") == "no router"
  {
    assert "no no a" == "no " + "no a";
    assert "router"[0] == 'r' && "no "[0] == 'n';
  }

  /** A drifted block alone in both configurations is reverted iff its edits reach the baseline. */
  lemma OneBlockEdit(base: Block, cur: Block, edits: seq<string>)
    requires base.header == "router" == cur.header && edits != []
    requires edits == Flipped(Without(cur.lines, AsSet(base.lines))) + Without(base.lines, AsSet(cur.lines))
    ensures Restores([base], [cur]) <==>
      Reaches(Run(RouterTop, Shell(map["router" := AsSet(cur.lines)], Some("router")), edits), map["router" := AsSet(base.lines)])
  {
    hide Run, AsSet, Without, Flipped;
    SingleBlock(base);
    SingleBlock(cur);
    SingleRevert(base, cur);
    FlipsOfA();
    var start := Shell(Meaning([cur]), None);
    assert Revert([base], [cur]) == [base.header] + edits + ["exit"];
    RunOne(RouterTop, start, "router");
    RunOfSum(RouterTop, start, ["router"], edits);
    RunOfSum(RouterTop, start, ["router"] + edits, ["exit"]);
    var r := Run(RouterTop, start, ["router"] + edits);
    if r.Some? { RunOne(RouterTop, r.value, "exit"); }
  }

  lemma SingleBlock(b: Block)
    ensures Distinct([b]) && Names([b]) == {b.header} && LinesUnder([b], b.header) == b.lines
    ensures Meaning([b]) == map[b.header := AsSet(b.lines)]
  {
    assert [b][0] == b;
  }

  lemma SingleRevert(base: Block, cur: Block)
    ensures Revert([base], [cur]) == Undo([base], cur) + Redo([cur], base)
  {
    hide Undo, Redo;
    assert [cur][..0] == [] && [base][..0] == [];
    assert UndoAll([base], []) == [] && RedoAll([cur], []) == [];
  }

  /** A header beside its negation in the current configuration: naming the block removes the other
      header and never enters it, so the edit that follows is refused. */
  lemma NegatedHeaderFails()
    ensures !Restores([Block("router", [])], [Block("router", ["a"]), Block("no router", [])])
  {
    hide Run, Undo, Redo, Meaning, AsSet;
    var base, cur := [Block("router", [])], [Block("router", ["a"]), Block("no router", [])];
    FirstUndo();
    assert cur[..1] == [cur[0]] && cur[..1][..0] == [];
    assert UndoAll(base, []) == [] && UndoAll(base, cur[..1]) == Undo(base, cur[0]);
    var rest := ["exit"] + Undo(base, cur[1]) + RedoAll(cur, base);
    assert Revert(base, cur) == ["router"] + (["no a"] + rest);
    RefusedStart(Shell(Meaning(cur), None), rest);
  }

  lemma FirstUndo()
    ensures Undo([Block("router", [])], Block("router", ["a"])) == ["router", "no a", "exit"]
    ensures "no router" in Meaning([Block("router", ["a"]), Block("no router", [])])
  {
    hide Run, IndexOf;
    var base, b := Block("router", []), Block("router", ["a"]);
    FlipsOfA();
    SingleBlock(base);
    EmptyAsSet([]);
    Single("a", {});
    Single("a", {"a"});
    assert Flipped(["a"]) == ["no a"];
    assert ["router"] + ["no a"] + [] + ["exit"] == ["router", "no a", "exit"];
    var cur := [b, Block("no router", [])];
    assert cur[1].header in Names(cur);
  }

  lemma RefusedStart(start: Shell, rest: seq<string>)
    requires "no router" in start.config && start.at.None?
    ensures Run(RouterTop, start, ["router"] + (["no a"] + rest)).None?
  {
    hide Run;
    FlipsOfA();
    RunOne(RouterTop, start, "router");
    var left := Shell(start.config - {"no router"}, None);
    RunOne(RouterTop, left, "no a");
    RunOfSum(RouterTop, left, ["no a"], rest);
    RunOfSum(RouterTop, start, ["router"], ["no a"] + rest);
  }

  /** A baseline header beside its negation: restoring the second removes the first. */
  lemma NegatedBaselineHeaderFails()
    ensures !Restores([Block("router", []), Block("no router", [])], [])
  {
    hide Run, Redo;
    var base := [Block("router", []), Block("no router", [])];
    FlipsOfA();
    assert base[..1] == [base[0]] && base[..1][..0] == [];
    RedoLost([], base[0]);
    RedoLost([], base[1]);
    assert RedoAll([], []) == [] && RedoAll([], base[..1]) == ["router"];
    assert Revert(base, []) == ["router"] + ["no router"];
    NothingMeans();
    RunOne(RouterTop, Shell(map[], None), "router");
    RunOne(RouterTop, Shell(map["router" := {}], Some("router")), "no router");
    RunOfSum(RouterTop, Shell(map[], None), ["router"], ["no router"]);
    assert base[0].header in Meaning(base);
  }

  /** A lost block with a line beside its negation: the second removes the first. */
  lemma LostPairFails()
    ensures !Restores([Block("router", ["a", "no a"])], [])
  {
    hide Run, Redo, AsSet;
    var b := Block("router", ["a", "no a"]);
    FlipsOfA();
    RedoLost([], b);
    assert [b][..0] == [] && RedoAll([], []) == [];
    assert Revert([b], []) == ["router"] + (["a"] + (["no a"] + ["exit"]));
    NothingMeans();
    SingleBlock(b);
    Pairs("a", "no a", {});
    var start, inside := Shell(map[], None), Shell(map["router" := {}], Some("router"));
    RunOne(RouterTop, start, "router");
    RunOfSum(RouterTop, start, ["router"], ["a"] + (["no a"] + ["exit"]));
    ToggleInRouter({}, "a");
    assert Toggle({}, "a") == {"a"};
    RunOfSum(RouterTop, inside, ["a"], ["no a"] + ["exit"]);
    ToggleInRouter({"a"}, "no a");
    assert Toggle({"a"}, "no a") == {};
    RunOfSum(RouterTop, Shell(map["router" := {"a"}], Some("router")), ["no a"], ["exit"]);
    RunOne(RouterTop, inside, "exit");
    DifferentRouters({"a", "no a"}, {}, "a");
  }

  /** A doubly negated header: stripping one negation enters another block. */
  lemma DoublyNegatedHeaderFails()
    ensures !Restores([], [Block("no no router", [])])
  {
    hide Run, AsSet, Undo;
    var b := Block("no no router", []);
    FlipsOfA();
    FlipsOfRouter();
    SingleBlock(b);
    NothingMeans();
    assert [b][..0] == [] && UndoAll([], []) == [] && RedoAll([b], []) == [];
    UndoNew([], b);
    assert Revert([], [b]) == ["no router"];
    var start := Shell(Meaning([b]), None);
    assert "router" !in start.config;
    RunOne(RouterTop, start, "no router");
    var end := Run(RouterTop, start, ["no router"]).value;
    assert "no router" in end.config;
  }

  lemma FlipsOfRouter()
    ensures Flip("no router") == "router" && Flip("no no router") == "no router"
  {
    assert "no router" == "no " + "router" && "no no router" == "no " + "no router";
  }

  lemma NothingMeans()
    ensures Meaning([]) == map[]
  {
  }

  lemma RedoLost(cur: seq<Block>, b: Block)
    requires b.header !in Names(cur)
    ensures Redo(cur, b) == [b.header] + b.lines + (if b.lines == [] then [] else ["exit"])
  {
  }

  lemma UndoNew(base: seq<Block>, b: Block)
    requires b.header !in Names(base)
    ensures Undo(base, b) == [Flip(b.header)]
  {
  }
}
