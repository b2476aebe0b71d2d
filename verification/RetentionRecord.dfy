/** The signed record of deleted files: what a well-formed one is, how removals are split into records,
    and why a split record always fits the daemon's artifact field. */
module RetentionRecord {
  import opened Prelude
  import opened Json
  import opened Numerals
  import opened Template

  const ARTIFACT_LIMIT := 8192
  const MARGIN := 600
  const SCHEMA := "camera_retention/1"
  const FIELDS: set<string> := {
    "schema", "camera_id", "tier", "policy_days", "deleted_at_utc_ns", "removed", "removed_count",
    "removed_bytes", "producer_key_id", "producer_sig"}
  const ITEM_FIELDS: set<string> := {"sha256", "kind", "byte_len"}

  datatype Item = Item(sha: string, kind: string, len: nat)

  /** A record before it is printed; `sig` is the signature text. */
  datatype Record = Record(
    camera: string, tier: string, policy: int, deletedAt: int, removed: seq<Item>, keyId: string, sig: string)

  function Bytes(items: seq<Item>): nat {
    if items == [] then 0 else Bytes(items[..|items| - 1]) + items[|items| - 1].len
  }

  // ---- Kinds ----

  predicate EndsWith(s: string, suffix: string) { |suffix| <= |s| && s[|s| - |suffix|..] == suffix }

  function RetentionKind(name: string): (kind: string)
    ensures KindName(kind)
  {
    if EndsWith(name, ".validation.txt") then "validator_output"
    else if EndsWith(name, ".handoff.json") then "handoff"
    else if EndsWith(name, ".leaf.der") then "leaf_der"
    else if EndsWith(name, ".body") then "record_body"
    else if EndsWith(name, ".done") then "marker"
    else if EndsWith(name, ".mp4") then "segment"
    else "other"
  }

  /** No suffix ends another, so each kind means exactly its own suffix and "other" means none. */
  lemma KindsFollowSuffixes(name: string)
    ensures RetentionKind(name) == "validator_output" <==> EndsWith(name, ".validation.txt")
    ensures RetentionKind(name) == "handoff" <==> EndsWith(name, ".handoff.json")
    ensures RetentionKind(name) == "leaf_der" <==> EndsWith(name, ".leaf.der")
    ensures RetentionKind(name) == "record_body" <==> EndsWith(name, ".body")
    ensures RetentionKind(name) == "marker" <==> EndsWith(name, ".done")
    ensures RetentionKind(name) == "segment" <==> EndsWith(name, ".mp4")
  {
    LastCharacter(name, ".validation.txt");
    LastCharacter(name, ".handoff.json");
    LastCharacter(name, ".leaf.der");
    LastCharacter(name, ".body");
    LastCharacter(name, ".done");
    LastCharacter(name, ".mp4");
    hide EndsWith;
    assert "validator_output"[0] == 'v' && "handoff"[0] == 'h' && "leaf_der"[0] == 'l';
    assert "record_body"[0] == 'r' && "marker"[0] == 'm' && "segment"[0] == 's' && "other"[0] == 'o';
  }

  lemma LastCharacter(name: string, suffix: string)
    requires suffix != []
    ensures EndsWith(name, suffix) ==> name != [] && name[|name| - 1] == suffix[|suffix| - 1]
  {
    if EndsWith(name, suffix) {
      assert name[|name| - |suffix|..][|suffix| - 1] == name[|name| - 1];
    }
  }

  predicate KindName(kind: string) {
    || kind == "validator_output" || kind == "handoff" || kind == "leaf_der" || kind == "record_body"
    || kind == "marker" || kind == "segment" || kind == "other"
  }

  predicate Tier(tier: string) { tier == "capture-host" || tier == "spool" }

  predicate HexDigest(s: string) {
    |s| == 64 && forall i :: 0 <= i < |s| ==> '0' <= s[i] <= '9' || 'a' <= s[i] <= 'f'
  }

  // ---- The validator ----

  /** Python's `==` between a decoded value and an integer: true is 1 and 2.0 is 2. */
  predicate NumberIs(v: Value, n: int) {
    match v
    case Int(m) => m == n
    case Bool(b) => n == if b then 1 else 0
    case Fraction(q) => q == n as real
    case _ => false
  }

  predicate ItemOk(v: Value) {
    && v.Obj? && v.fields.Keys == ITEM_FIELDS
    && v.fields["sha256"].Str? && HexDigest(v.fields["sha256"].text)
    && v.fields["kind"].Str? && KindName(v.fields["kind"].text)
    && v.fields["byte_len"].Int? && v.fields["byte_len"].number >= 0
  }

  function TotalOf(items: seq<Value>): int
    requires forall i :: 0 <= i < |items| ==> ItemOk(items[i])
  {
    if items == [] then 0
    else
      assert ItemOk(items[|items| - 1]);
      TotalOf(items[..|items| - 1]) + items[|items| - 1].fields["byte_len"].number
  }

  predicate PositiveInt(v: Value) { v.Int? && v.number > 0 }

  /** What the relay accepts as a camera_retention/1 body. */
  predicate WellFormed(v: Value) {
    && v.Obj? && v.fields.Keys == FIELDS
    && v.fields["schema"] == Str(SCHEMA)
    && v.fields["tier"].Str? && Tier(v.fields["tier"].text)
    && PositiveInt(v.fields["policy_days"]) && PositiveInt(v.fields["deleted_at_utc_ns"])
    && v.fields["camera_id"].Str? && v.fields["camera_id"].text != ""
    && v.fields["removed"].Arr? && v.fields["removed"].items != []
    && var items := v.fields["removed"].items;
       && (forall i :: 0 <= i < |items| ==> ItemOk(items[i]))
       && NumberIs(v.fields["removed_count"], |items|)
       && NumberIs(v.fields["removed_bytes"], TotalOf(items))
  }

  lemma LengthIsNumber(v: Value)
    requires ItemOk(v)
    ensures v.Obj? && "byte_len" in v.fields && v.fields["byte_len"].Int?
  {
  }

  datatype Defect =
    | NotAnObject | WrongSchema | WrongFields | BadTier | BadPolicy | BadTimestamp | EmptyCamera | NothingRemoved
    | BadItem(index: nat) | WrongCount | WrongBytes

  method RetentionDefect(v: Value) returns (defect: Option<Defect>)
    ensures defect.None? <==> WellFormed(v)
  {
    hide ItemOk, Tier, NumberIs;
    if !v.Obj? { return Some(NotAnObject); }
    var body := v.fields;
    if "schema" !in body || body["schema"] != Str(SCHEMA) { return Some(WrongSchema); }
    if body.Keys != FIELDS { return Some(WrongFields); }
    if !(body["tier"].Str? && Tier(body["tier"].text)) { return Some(BadTier); }
    if !PositiveInt(body["policy_days"]) { return Some(BadPolicy); }
    if !PositiveInt(body["deleted_at_utc_ns"]) { return Some(BadTimestamp); }
    if !(body["camera_id"].Str? && body["camera_id"].text != "") { return Some(EmptyCamera); }
    if !(body["removed"].Arr? && body["removed"].items != []) { return Some(NothingRemoved); }
    var items := body["removed"].items;
    var total, i := 0, 0;
    while i < |items|
      invariant 0 <= i <= |items|
      invariant forall j :: 0 <= j < i ==> ItemOk(items[j])
      invariant total == TotalOf(items[..i])
    {
      if !ItemOk(items[i]) { return Some(BadItem(i)); }
      assert items[..i + 1][..i] == items[..i];
      LengthIsNumber(items[i]);
      total := total + items[i].fields["byte_len"].number;
      i := i + 1;
    }
    assert items[..|items|] == items;
    if !NumberIs(body["removed_count"], |items|) { return Some(WrongCount); }
    if !NumberIs(body["removed_bytes"], total) { return Some(WrongBytes); }
    return None;
  }

  // ---- The builder ----

  function ItemValue(item: Item): Value {
    Obj(map["sha256" := Str(item.sha), "kind" := Str(item.kind), "byte_len" := Int(item.len)])
  }

  function ItemValues(items: seq<Item>): (r: seq<Value>)
    ensures |r| == |items| && forall i :: 0 <= i < |r| ==> r[i] == ItemValue(items[i])
  {
    if items == [] then [] else ItemValues(items[..|items| - 1]) + [ItemValue(items[|items| - 1])]
  }

  /** The signed body, as the relay decodes it. */
  function BodyValue(r: Record): Value {
    Obj(map[
      "schema" := Str(SCHEMA), "camera_id" := Str(r.camera), "tier" := Str(r.tier), "policy_days" := Int(r.policy),
      "deleted_at_utc_ns" := Int(r.deletedAt), "removed" := Arr(ItemValues(r.removed)),
      "removed_count" := Int(|r.removed|), "removed_bytes" := Int(Bytes(r.removed)),
      "producer_key_id" := Str(r.keyId), "producer_sig" := Str(r.sig)])
  }

  predicate GoodItem(item: Item) { HexDigest(item.sha) && KindName(item.kind) }

  lemma ItemValueOk(item: Item)
    ensures ItemOk(ItemValue(item)) <==> GoodItem(item)
  {
    assert ItemValue(item).fields.Keys == ITEM_FIELDS;
  }

  lemma {:induction false} TotalIsBytes(items: seq<Item>)
    requires forall i :: 0 <= i < |items| ==> GoodItem(items[i])
    ensures forall i :: 0 <= i < |items| ==> ItemOk(ItemValues(items)[i])
    ensures TotalOf(ItemValues(items)) == Bytes(items)
  {
    forall i | 0 <= i < |items| ensures ItemOk(ItemValues(items)[i]) { ItemValueOk(items[i]); }
    if items != [] {
      var front := items[..|items| - 1];
      TotalIsBytes(front);
      assert ItemValues(items)[..|items| - 1] == ItemValues(front);
    }
  }

  lemma BodyFields(r: Record)
    ensures BodyValue(r).Obj? && BodyValue(r).fields.Keys == FIELDS
    ensures var f := BodyValue(r).fields;
      && f["schema"] == Str(SCHEMA) && f["camera_id"] == Str(r.camera) && f["tier"] == Str(r.tier)
      && f["policy_days"] == Int(r.policy) && f["deleted_at_utc_ns"] == Int(r.deletedAt)
      && f["removed"] == Arr(ItemValues(r.removed))
      && f["removed_count"] == Int(|r.removed|) && f["removed_bytes"] == Int(Bytes(r.removed))
  {
    hide ItemValues, Bytes;
    assert BodyValue(r).fields.Keys == FIELDS;
  }

  /** A built and signed body is accepted exactly when its caller gave a known tier, a positive policy
      and time, a named camera and at least one classified, digested file. */
  lemma BuiltBodyIsWellFormed(r: Record)
    ensures WellFormed(BodyValue(r)) <==>
      && Tier(r.tier) && r.policy > 0 && r.deletedAt > 0 && r.camera != "" && r.removed != []
      && forall i :: 0 <= i < |r.removed| ==> GoodItem(r.removed[i])
  {
    hide Tier, ItemOk, GoodItem, TotalOf, Bytes, BodyValue, ItemValues;
    var v := BodyValue(r);
    BodyFields(r);
    assert ItemValues(r.removed) == [] <==> r.removed == [];
    forall i | 0 <= i < |r.removed| ensures ItemOk(ItemValues(r.removed)[i]) <==> GoodItem(r.removed[i]) {
      ItemValueOk(r.removed[i]);
    }
    if forall i :: 0 <= i < |r.removed| ==> GoodItem(r.removed[i]) {
      TotalIsBytes(r.removed);
    }
  }

  // ---- Printing ----

  const ITEM_FORM: seq<string> := ["{\"byte_len\":", ",\"kind\":\"", "\",\"sha256\":\"", "\"}"]

  const BODY_FORM: seq<string> := [
    "{\"camera_id\":\"", "\",\"deleted_at_utc_ns\":", ",\"policy_days\":", ",\"producer_key_id\":\"",
    "\",\"producer_sig\":\"", "\",\"removed\":[", "],\"removed_bytes\":", ",\"removed_count\":",
    ",\"schema\":\"camera_retention/1\",\"tier\":\"", "\"}"]

  function ItemText(item: Item): string { Weave(ITEM_FORM, [Digits(item.len), item.kind, item.sha]) }

  function ItemsText(items: seq<Item>): string {
    if items == [] then ""
    else if |items| == 1 then ItemText(items[0])
    else ItemsText(items[..|items| - 1]) + "," + ItemText(items[|items| - 1])
  }

  /** One character inside a JSON string, printed in ASCII. */
  function Escaped(c: char): string {
    var n := c as int;
    if c == '"' || c == '\\' then ['\\', c]
    else if n == 10 then "\\n" else if n == 13 then "\\r" else if n == 9 then "\\t"
    else if n == 12 then "\\f" else if n == 8 then "\\b"
    else if 0x20 <= n <= 0x7E then [c]
    else if n < 0x10000 then CodeUnit(n)
    else CodeUnit(0xD800 + (n - 0x10000) / 0x400) + CodeUnit(0xDC00 + (n - 0x10000) % 0x400)
  }

  function CodeUnit(n: nat): (r: string)
    requires n < 0x10000
    ensures |r| == 6
  {
    ['\\', 'u', Nibble(n / 4096), Nibble(n / 256 % 16), Nibble(n / 16 % 16), Nibble(n % 16)]
  }

  function Nibble(d: nat): char
    requires d < 16
  {
    if d < 10 then (d + '0' as int) as char else (d - 10 + 'a' as int) as char
  }

  function EscapedText(s: string): string {
    if s == [] then [] else Escaped(s[0]) + EscapedText(s[1..])
  }

  function BodyMembers(r: Record): seq<string> {
    [EscapedText(r.camera), Decimal(r.deletedAt), Decimal(r.policy), r.keyId, r.sig, ItemsText(r.removed),
     Digits(Bytes(r.removed)), Digits(|r.removed|), r.tier]
  }

  /** The canonical bytes: sorted keys, no whitespace, ASCII. */
  function BodyText(r: Record): string { Weave(BODY_FORM, BodyMembers(r)) }

  // ---- Chunks ----

  /** What the splitter charges a list of items: each one's text and a separator. */
  function Payload(items: seq<Item>): nat {
    if items == [] then 0 else Payload(items[..|items| - 1]) + |ItemText(items[|items| - 1])| + 1
  }

  datatype Entry = Entry(path: string, item: Item)

  function Items(entries: seq<Entry>): (r: seq<Item>)
    ensures |r| == |entries| && forall i :: 0 <= i < |r| ==> r[i] == entries[i].item
  {
    if entries == [] then [] else Items(entries[..|entries| - 1]) + [entries[|entries| - 1].item]
  }

  function Flat(chunks: seq<seq<Entry>>): seq<Entry> {
    if chunks == [] then [] else Flat(chunks[..|chunks| - 1]) + chunks[|chunks| - 1]
  }

  ghost predicate ChunkFits(chunk: seq<Entry>) {
    chunk != [] && (|chunk| == 1 || Payload(Items(chunk)) <= ARTIFACT_LIMIT - MARGIN)
  }

  /** A chunk was closed because the next entry would have overrun it. */
  ghost predicate Greedy(chunk: seq<Entry>, next: Entry) {
    Payload(Items(chunk + [next])) > ARTIFACT_LIMIT - MARGIN
  }

  lemma ItemsGrow(chunk: seq<Entry>, e: Entry)
    ensures Items(chunk + [e]) == Items(chunk) + [e.item]
    ensures Payload(Items(chunk + [e])) == Payload(Items(chunk)) + |ItemText(e.item)| + 1
  {
    hide ItemText;
    assert (chunk + [e])[..|chunk|] == chunk;
    assert Items(chunk + [e])[..|chunk|] == Items(chunk);
  }

  ghost predicate ClosedFull(chunks: seq<seq<Entry>>, i: nat)
    requires i + 1 < |chunks|
  {
    chunks[i + 1] != [] && Greedy(chunks[i], chunks[i + 1][0])
  }

  ghost predicate Chunked(chunks: seq<seq<Entry>>) {
    && (forall i :: 0 <= i < |chunks| ==> ChunkFits(chunks[i]))
    && (forall i: nat :: i + 1 < |chunks| ==> ClosedFull(chunks, i))
  }

  lemma FlatGrows(chunks: seq<seq<Entry>>, cur: seq<Entry>)
    ensures Flat(chunks + [cur]) == Flat(chunks) + cur
  {
    assert (chunks + [cur])[..|chunks|] == chunks;
  }

  lemma ChunkedGrows(chunks: seq<seq<Entry>>, cur: seq<Entry>)
    requires Chunked(chunks) && ChunkFits(cur) && cur != [] && (chunks != [] ==> Greedy(chunks[|chunks| - 1], cur[0]))
    ensures Chunked(chunks + [cur])
  {
    hide ChunkFits, Greedy;
    var more := chunks + [cur];
    forall i: nat | i + 1 < |more| ensures ClosedFull(more, i) {
      if i + 1 < |chunks| {
        assert ClosedFull(chunks, i);
        assert more[i] == chunks[i] && more[i + 1] == chunks[i + 1];
      } else {
        assert more[i] == chunks[|chunks| - 1] && more[i + 1] == cur;
      }
    }
    assert forall i :: 0 <= i < |chunks| ==> more[i] == chunks[i];
  }

  /** Splits in order, losing and repeating nothing; every chunk is non-empty, within the limit, and as
      long as the limit allows. */
  method RetentionChunks(files: seq<Entry>) returns (chunks: seq<seq<Entry>>)
    ensures Flat(chunks) == files && Chunked(chunks)
  {
    hide ItemText, Chunked, Flat, Payload, Items, ChunkFits, Greedy;
    chunks := [];
    NoChunks();
    var cur: seq<Entry> := [];
    var curLen := 0;
    var i := 0;
    while i < |files|
      invariant 0 <= i <= |files|
      invariant Flat(chunks) + cur == files[..i]
      invariant curLen == Payload(Items(cur))
      invariant cur == [] <==> i == 0
      invariant cur != [] ==> ChunkFits(cur)
      invariant Chunked(chunks)
      invariant chunks != [] ==> cur != [] && Greedy(chunks[|chunks| - 1], cur[0])
    {
      var e := files[i];
      var itemLen := |ItemText(e.item)| + 1;
      assert files[..i + 1] == files[..i] + [e];
      if cur != [] && curLen + itemLen > ARTIFACT_LIMIT - MARGIN {
        ClosesFull(cur, e);
        ChunkedGrows(chunks, cur);
        FlatGrows(chunks, cur);
        chunks := chunks + [cur];
        cur, curLen := [], 0;
      }
      FitsGrown(cur, e);
      ItemsGrow(cur, e);
      assert Flat(chunks) + (cur + [e]) == Flat(chunks) + cur + [e];
      assert (cur + [e])[0] == if cur == [] then e else cur[0];
      cur := cur + [e];
      curLen := curLen + itemLen;
      i := i + 1;
    }
    if cur != [] {
      ChunkedGrows(chunks, cur);
      FlatGrows(chunks, cur);
      chunks := chunks + [cur];
    }
    assert files[..|files|] == files;
  }

  lemma NoChunks()
    ensures Flat([]) == [] && Chunked([]) && Items([]) == [] && Payload([]) == 0
  {
  }

  lemma ClosesFull(cur: seq<Entry>, e: Entry)
    requires Payload(Items(cur)) + |ItemText(e.item)| + 1 > ARTIFACT_LIMIT - MARGIN
    ensures Greedy(cur, e)
  {
    hide ItemText, Payload;
    ItemsGrow(cur, e);
  }

  lemma FitsGrown(cur: seq<Entry>, e: Entry)
    requires cur == [] || Payload(Items(cur)) + |ItemText(e.item)| + 1 <= ARTIFACT_LIMIT - MARGIN
    ensures ChunkFits(cur + [e])
  {
    hide ItemText, Payload;
    ItemsGrow(cur, e);
  }

  // ---- Size ----

  lemma TotalOfFour(a: string, b: string, c: string, d: string)
    ensures TotalLength([a, b, c]) == |a| + |b| + |c|
    ensures TotalLength([a, b, c, d]) == |a| + |b| + |c| + |d|
  {
    assert [a, b, c, d][1..] == [b, c, d] && [b, c, d][1..] == [c, d] && [c, d][1..] == [d] && [d][1..] == [];
    assert [a, b, c][1..] == [b, c] && [b, c][1..] == [c] && [c][1..] == [];
    assert TotalLength([d]) == |d| && TotalLength([c]) == |c|;
    assert TotalLength([c, d]) == |c| + |d| && TotalLength([b, c]) == |b| + |c|;
    assert TotalLength([b, c, d]) == |b| + |c| + |d|;
  }

  lemma {:induction false} TotalOfSum(a: seq<string>, b: seq<string>)
    ensures TotalLength(a + b) == TotalLength(a) + TotalLength(b)
  {
    if a == [] {
      assert a + b == b;
    } else {
      TotalOfSum(a[1..], b);
      assert (a + b)[1..] == a[1..] + b;
    }
  }

  lemma ItemLength(item: Item)
    ensures |ItemText(item)| == 35 + |Digits(item.len)| + |item.kind| + |item.sha|
  {
    hide Weave, TotalLength, Digits;
    WeaveLength(ITEM_FORM, [Digits(item.len), item.kind, item.sha]);
    TotalOfFour(Digits(item.len), item.kind, item.sha, "");
    TotalOfFour(ITEM_FORM[0], ITEM_FORM[1], ITEM_FORM[2], ITEM_FORM[3]);
    assert ITEM_FORM == [ITEM_FORM[0], ITEM_FORM[1], ITEM_FORM[2], ITEM_FORM[3]];
  }

  lemma {:induction false} ItemsTextLength(items: seq<Item>)
    requires items != []
    ensures |ItemsText(items)| == Payload(items) - 1
  {
    hide ItemText;
    if |items| == 1 {
      assert items[..0] == [];
      assert Payload(items[..0]) == 0;
    } else {
      ItemsTextLength(items[..|items| - 1]);
    }
  }

  lemma FormLength()
    ensures TotalLength(BODY_FORM) == 178
  {
    hide TotalLength;
    var f := BODY_FORM;
    TotalOfFour(f[0], f[1], f[2], f[3]);
    TotalOfFour(f[4], f[5], f[6], f[7]);
    TotalOfFour(f[8], f[9], "", "");
    var a, b, c := [f[0], f[1], f[2], f[3]], [f[4], f[5], f[6], f[7]], [f[8], f[9], "", ""];
    TotalOfSum(a, b);
    TotalOfSum(a + b, c);
    TotalOfFour("", "", "", "");
    TotalOfSum(f, ["", "", ""]);
    assert a + b + c == f + ["", ""];
    TotalOfSum(f, ["", ""]);
    TwoBlanks();
  }

  lemma TwoBlanks()
    ensures TotalLength(["", ""]) == 0
  {
    assert ["", ""][1..] == [""] && [""][1..] == [];
    assert TotalLength([""]) == 0;
  }

  /** The exact length of a signed body: nothing in it is estimated. */
  lemma BodyLength(r: Record)
    requires r.removed != []
    ensures |BodyText(r)| == 177 + |EscapedText(r.camera)| + |Decimal(r.deletedAt)| + |Decimal(r.policy)| + |r.keyId| + |r.sig|
      + Payload(r.removed) + |Digits(Bytes(r.removed))| + |Digits(|r.removed|)| + |r.tier|
  {
    hide Weave, TotalLength, Digits, Decimal, EscapedText, ItemsText, Payload, Bytes;
    var m := BodyMembers(r);
    WeaveLength(BODY_FORM, m);
    FormLength();
    ItemsTextLength(r.removed);
    TotalOfFour(m[0], m[1], m[2], m[3]);
    TotalOfFour(m[4], m[5], m[6], m[7]);
    TotalOfFour(m[8], "", "", "");
    var a, b, c := [m[0], m[1], m[2], m[3]], [m[4], m[5], m[6], m[7]], [m[8], "", ""];
    TotalOfSum(a, b);
    TotalOfSum(a + b, c);
    assert a + b + c == m + ["", ""];
    TotalOfSum(m, ["", ""]);
    TwoBlanks();
  }

  const WORD := 0x1_0000_0000_0000_0000

  /** An item prints in at least 105 characters, so few fit one record. */
  lemma {:induction false} PayloadCounts(items: seq<Item>)
    requires forall i :: 0 <= i < |items| ==> GoodItem(items[i])
    ensures 106 * |items| <= Payload(items)
  {
    hide ItemText;
    if items != [] {
      var last := items[|items| - 1];
      PayloadCounts(items[..|items| - 1]);
      GoodItemLength(last);
    }
  }

  lemma GoodItemLength(item: Item)
    requires GoodItem(item)
    ensures |ItemText(item)| >= 105
    ensures item.len < WORD ==> |ItemText(item)| <= 135
  {
    hide Digits, ItemText;
    ItemLength(item);
    DigitsAreDigits(item.len);
    if item.len < WORD { WordFits(item.len); }
  }

  /** A record of one of the splitter's chunks, as the daemon signs it, with no item past 64 bits. */
  ghost predicate Splittable(r: Record) {
    && r.removed != [] && (|r.removed| == 1 || Payload(r.removed) <= ARTIFACT_LIMIT - MARGIN)
    && (forall i :: 0 <= i < |r.removed| ==> GoodItem(r.removed[i]) && r.removed[i].len < WORD)
    && Tier(r.tier) && |r.keyId| == 32 && |r.sig| == 128
    && 0 <= r.deletedAt < WORD && 0 <= r.policy < WORD
  }

  lemma {:induction false} BytesBounded(items: seq<Item>)
    requires forall i :: 0 <= i < |items| ==> items[i].len < WORD
    ensures Bytes(items) <= |items| * WORD
  {
    if items != [] { BytesBounded(items[..|items| - 1]); }
  }

  lemma SplittableIsShort(r: Record)
    requires Splittable(r)
    ensures Payload(r.removed) <= ARTIFACT_LIMIT - MARGIN && |r.removed| <= 71
  {
    hide Bytes, ItemText;
    PayloadCounts(r.removed);
    if |r.removed| == 1 {
      assert r.removed[..0] == [];
      assert Payload(r.removed[..0]) == 0;
      GoodItemLength(r.removed[0]);
    }
  }

  /** The length of a splittable record, up to its camera id and byte total. */
  lemma SplittableLength(r: Record)
    requires Splittable(r)
    ensures |BodyText(r)| <= 7983 + |EscapedText(r.camera)| + |Digits(Bytes(r.removed))|
  {
    hide Digits, EscapedText, BodyText, Payload, Bytes;
    SplittableIsShort(r);
    BodyLength(r);
    WordFits(r.deletedAt);
    WordFits(r.policy);
    assert PowerOfTen(2) == 100;
    DigitsFit(|r.removed|, 2);
  }

  /** Whatever the removals, a camera id that prints in 186 characters keeps the record within the
      field; the byte total may then exceed 64 bits, as a sum of 64-bit lengths can. */
  lemma ShortCameraFits(r: Record)
    requires Splittable(r) && |EscapedText(r.camera)| <= 186
    ensures |BodyText(r)| < ARTIFACT_LIMIT
  {
    hide Digits, EscapedText, BodyText, Payload, Bytes;
    SplittableIsShort(r);
    SplittableLength(r);
    BytesBounded(r.removed);
    TwentyDigits();
    assert PowerOfTen(22) == 100 * PowerOfTen(20);
    DigitsFit(Bytes(r.removed), 22);
  }

  /** Printable ASCII at most doubles, so 64 such characters are always short enough. */
  lemma {:induction false} PrintableEscapes(s: string)
    requires forall i :: 0 <= i < |s| ==> ' ' <= s[i] <= '~'
    ensures |EscapedText(s)| <= 2 * |s|
  {
    if s != [] { PrintableEscapes(s[1..]); }
  }

  // ---- The exact limit ----

  lemma {:induction false} PayloadOfSum(a: seq<Item>, b: seq<Item>)
    ensures Payload(a + b) == Payload(a) + Payload(b) && Bytes(a + b) == Bytes(a) + Bytes(b)
  {
    hide ItemText;
    if b == [] {
      assert a + b == a;
    } else {
      PayloadOfSum(a, b[..|b| - 1]);
      assert (a + b)[..|a + b| - 1] == a + b[..|b| - 1];
    }
  }

  lemma {:induction false} RepeatedPayload(item: Item, n: nat)
    ensures Payload(seq(n, i => item)) == n * (|ItemText(item)| + 1)
    ensures Bytes(seq(n, i => item)) == n * item.len
  {
    hide ItemText;
    if n > 0 {
      RepeatedPayload(item, n - 1);
      assert seq(n, i => item)[..n - 1] == seq(n - 1, i => item);
      assert n * (|ItemText(item)| + 1) == (n - 1) * (|ItemText(item)| + 1) + |ItemText(item)| + 1;
      assert n * item.len == (n - 1) * item.len + item.len;
    }
  }

  const ZEROES := seq(64, i => '0')

  /** Seventy-one removals that charge the splitter exactly its limit. */
  function FullLoad(): seq<Item> {
    [Item(ZEROES, "other", 10_000_000_000_000_000_000)] + seq(23, i => Item(ZEROES, "segment", 0))
    + [Item(ZEROES, "marker", 0)] + seq(46, i => Item(ZEROES, "other", 0))
  }

  lemma TwentyDigitNumber()
    ensures |Digits(10_000_000_000_000_000_000)| == 20 && |Digits(0)| == 1 && |Digits(71)| == 2
  {
    PowersPrintLong(19);
    assert PowerOfTen(5) == 100_000;
    assert PowerOfTen(10) == 10_000_000_000;
    assert PowerOfTen(15) == 1_000_000_000_000_000;
    assert PowerOfTen(19) == 10_000_000_000_000_000_000;
    assert Digits(71) == Digits(7) + [Digit(1)];
  }

  lemma FullLoadWeighs()
    ensures Payload(FullLoad()) == ARTIFACT_LIMIT - MARGIN && Bytes(FullLoad()) == 10_000_000_000_000_000_000
    ensures |FullLoad()| == 71
    ensures forall i :: 0 <= i < 71 ==> GoodItem(FullLoad()[i]) && FullLoad()[i].len < WORD
  {
    hide Payload, Bytes, ItemText, Digits;
    var a, b := Item(ZEROES, "other", 10_000_000_000_000_000_000), Item(ZEROES, "segment", 0);
    var c, d := Item(ZEROES, "marker", 0), Item(ZEROES, "other", 0);
    TwentyDigitNumber();
    ItemLength(a);
    ItemLength(b);
    ItemLength(c);
    ItemLength(d);
    RepeatedPayload(a, 1);
    RepeatedPayload(b, 23);
    RepeatedPayload(c, 1);
    RepeatedPayload(d, 46);
    assert seq(1, i => a) == [a] && seq(1, i => c) == [c];
    var bs, ds := seq(23, i => b), seq(46, i => d);
    PayloadOfSum([a], bs);
    PayloadOfSum([a] + bs, [c]);
    PayloadOfSum([a] + bs + [c], ds);
    assert FullLoad() == [a] + bs + [c] + ds;
  }

  function FullRecord(camera: string): Record {
    Record(camera, "capture-host", 10_000_000_000_000_000_000, 10_000_000_000_000_000_000, FullLoad(),
           seq(32, i => '0'), seq(128, i => '0'))
  }

  lemma FullRecordLength(camera: string)
    ensures Splittable(FullRecord(camera)) && Bytes(FullRecord(camera).removed) < WORD
    ensures |BodyText(FullRecord(camera))| == 8003 + |EscapedText(camera)|
  {
    hide BodyText, Payload, Bytes, EscapedText, Digits, FullLoad;
    var r := FullRecord(camera);
    FullLoadWeighs();
    TwentyDigitNumber();
    BodyLength(r);
  }

  /** Every record under this camera id that the splitter can produce, byte total in 64 bits, fits. */
  ghost predicate AlwaysFits(camera: string) {
    forall r: Record :: r.camera == camera && Splittable(r) && Bytes(r.removed) < WORD ==> |BodyText(r)| < ARTIFACT_LIMIT
  }

  /** A camera id never meets the size refusal exactly when it prints in at most 188 characters. */
  lemma CameraFitsExactly(camera: string)
    ensures AlwaysFits(camera) <==> |EscapedText(camera)| <= 188
  {
    hide BodyText, EscapedText, Splittable, Bytes, Digits;
    FullRecordLength(camera);
    if |EscapedText(camera)| <= 188 {
      forall r: Record | r.camera == camera && Splittable(r) && Bytes(r.removed) < WORD ensures |BodyText(r)| < ARTIFACT_LIMIT {
        SplittableLength(r);
        WordFits(Bytes(r.removed));
      }
    } else {
      assert FullRecord(camera).camera == camera;
    }
  }

  lemma {:induction false} ControlsEscapeSixfold(n: nat)
    ensures |EscapedText(seq(n, i => 1 as char))| == 6 * n
  {
    if n > 0 {
      ControlsEscapeSixfold(n - 1);
      var s := seq(n, i => 1 as char);
      assert s[1..] == seq(n - 1, i => 1 as char);
      assert |Escaped(s[0])| == 6;
    }
  }

  /** Sixty-four printable ASCII characters always fit. */
  lemma PrintableAlwaysFits(camera: string)
    requires |camera| <= 64 && forall i :: 0 <= i < |camera| ==> ' ' <= camera[i] <= '~'
    ensures AlwaysFits(camera)
  {
    hide AlwaysFits, EscapedText;
    PrintableEscapes(camera);
    CameraFitsExactly(camera);
  }

  const CONTROLS: string := seq(64, i => 1 as char)

  /** Sixty-four control characters are ASCII too, print sixfold, and a well-formed record of theirs
      overruns the field. */
  lemma ControlCameraOverruns()
    ensures !AlwaysFits(CONTROLS) && WellFormed(BodyValue(FullRecord(CONTROLS)))
    ensures |BodyText(FullRecord(CONTROLS))| >= ARTIFACT_LIMIT
  {
    hide AlwaysFits, EscapedText, WellFormed, FullLoad, BodyText, BodyValue, GoodItem;
    ControlsEscapeSixfold(64);
    CameraFitsExactly(CONTROLS);
    FullRecordLength(CONTROLS);
    FullLoadWeighs();
    BuiltBodyIsWellFormed(FullRecord(CONTROLS));
  }
}
