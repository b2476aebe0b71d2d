/** The duration of a segment from its movie header, after sections 4.2 and 8.2.2 of ISO/IEC 14496-12:
    a box scanner that never reads past the end, and the box writer it inverts. */
module Mp4 {
  import opened Prelude

  type Byte = x: int | 0 <= x < 256

  type Data = seq<Byte>

  const MOOV: Data := [0x6D, 0x6F, 0x6F, 0x76]
  const MVHD: Data := [0x6D, 0x76, 0x68, 0x64]

  datatype Fault = Truncated | NoMoov | NoMvhd | ZeroTimescale

  // ---- Big-endian numbers ----

  function U32(n: nat): (r: Data)
    requires n < 0x1_0000_0000
    ensures |r| == 4
  {
    var q := n / 256;
    var p := q / 256;
    [p / 256, p % 256, q % 256, n % 256]
  }

  function U64(n: nat): (r: Data)
    requires n < 0x1_0000_0000_0000_0000
    ensures |r| == 8
  {
    U32(n / 0x1_0000_0000) + U32(n % 0x1_0000_0000)
  }

  function Value32(b: Data): (n: nat)
    requires |b| == 4
    ensures n < 0x1_0000_0000
  {
    var w: int, x: int, y: int, z: int := b[0], b[1], b[2], b[3];
    ((w * 256 + x) * 256 + y) * 256 + z
  }

  /** A 4-byte field, unless the data ends first. */
  function Read32(data: Data, off: nat): Option<nat> {
    if off + 4 <= |data| then Some(Value32(data[off..off + 4])) else None
  }

  function Read64(data: Data, off: nat): Option<nat> {
    if off + 8 <= |data| then Some(Value32(data[off..off + 4]) * 0x1_0000_0000 + Value32(data[off + 4..off + 8])) else None
  }

  /** A slice that stops at the end of the data. */
  function Slice(data: Data, from: nat, to: nat): Data {
    if from >= |data| || to <= from then [] else data[from..if to <= |data| then to else |data|]
  }

  // ---- The scanner ----

  datatype Span = Span(from: nat, to: nat)

  /** One box header at `off`: its type, header length and total size. */
  datatype Header = Header(typ: Data, hdr: nat, size: nat)

  /** `None` inside `Ok` is a header the scanner gives up on. */
  function ReadHeader(data: Data, off: nat, end: nat): (r: Result<Option<Header>, Fault>)
    requires off + 8 <= end
    ensures r.Ok? && r.value.Some? ==> r.value.value.size >= r.value.value.hdr >= 8
  {
    var size := Read32(data, off);
    if size.None? then Err(Truncated)
    else
      var typ := Slice(data, off + 4, off + 8);
      if size.value == 1 then
        if off + 16 > end then Ok(None)
        else
          var large := Read64(data, off + 8);
          if large.None? then Err(Truncated)
          else if large.value < 16 then Ok(None) else Ok(Some(Header(typ, 16, large.value)))
      else
        var total := if size.value == 0 then end - off else size.value;
        if total < 8 then Ok(None) else Ok(Some(Header(typ, 8, total)))
  }

  /** The first box named `name` at this level. */
  function Found(data: Data, off: nat, end: nat, name: Data): Result<Option<Span>, Fault>
    decreases end - off
  {
    if off + 8 > end then Ok(None)
    else
      var h := ReadHeader(data, off, end);
      if h.Err? then Err(h.error)
      else if h.value.None? then Ok(None)
      else if h.value.value.typ == name then Ok(Some(Span(off + h.value.value.hdr, off + h.value.value.size)))
      else Found(data, off + h.value.value.size, end, name)
  }

  method TakeHeader(data: Data, off: nat, end: nat) returns (r: Result<Option<Header>, Fault>)
    requires off + 8 <= end
    ensures r == ReadHeader(data, off, end)
  {
    hide Read32, Read64, Slice;
    var size := Read32(data, off);
    if size.None? { return Err(Truncated); }
    var typ := Slice(data, off + 4, off + 8);
    var hdr, total := 8, size.value;
    if total == 1 {
      if off + 16 > end { return Ok(None); }
      var large := Read64(data, off + 8);
      if large.None? { return Err(Truncated); }
      hdr, total := 16, large.value;
    } else if total == 0 {
      total := end - off;
    }
    if total < hdr { return Ok(None); }
    return Ok(Some(Header(typ, hdr, total)));
  }

  method FindBox(data: Data, start: nat, end: nat, name: Data) returns (r: Result<Option<Span>, Fault>)
    ensures r == Found(data, start, end, name)
  {
    hide ReadHeader;
    var off := start;
    while off + 8 <= end
      invariant start <= off
      invariant Found(data, start, end, name) == Found(data, off, end, name)
      decreases end - off
    {
      var h := TakeHeader(data, off, end);
      if h.Err? { return Err(h.error); }
      if h.value.None? { return Ok(None); }
      var box := h.value.value;
      if box.typ == name { return Ok(Some(Span(off + box.hdr, off + box.size))); }
      off := off + box.size;
    }
    r := Ok(None);
  }

  /** Every input gets an answer, and a file laid out as boxes gets its header's duration. */
  method Duration(data: Data) returns (r: Result<real, Fault>)
    ensures r == DurationOf(data)
    ensures forall f :: Filmed(f) && FileOf(f) == data ==> r == HeaderSays(f.header)
  {
    hide Found, Filmed, FileOf;
    forall f | Filmed(f) && FileOf(f) == data ensures DurationOf(data) == HeaderSays(f.header) {
      DurationInvertsTheWriter(f);
    }
    var moov := FindBox(data, 0, |data|, MOOV);
    if moov.Err? { return Err(moov.error); }
    if moov.value.None? { return Err(NoMoov); }
    var mvhd := FindBox(data, moov.value.value.from, moov.value.value.to, MVHD);
    if mvhd.Err? { return Err(mvhd.error); }
    if mvhd.value.None? { return Err(NoMvhd); }
    var off := mvhd.value.value.from;
    if off >= |data| { return Err(Truncated); }
    var timescale, duration;
    if data[off] == 1 {
      timescale, duration := Read32(data, off + 20), Read64(data, off + 24);
    } else {
      timescale, duration := Read32(data, off + 12), Read32(data, off + 16);
    }
    if timescale.None? || duration.None? { return Err(Truncated); }
    if timescale.value == 0 { return Err(ZeroTimescale); }
    r := Ok(duration.value as real / timescale.value as real);
  }

  function DurationOf(data: Data): Result<real, Fault> {
    var moov := Found(data, 0, |data|, MOOV);
    if moov.Err? then Err(moov.error)
    else if moov.value.None? then Err(NoMoov)
    else
      var mvhd := Found(data, moov.value.value.from, moov.value.value.to, MVHD);
      if mvhd.Err? then Err(mvhd.error)
      else if mvhd.value.None? then Err(NoMvhd)
      else HeaderDuration(data, mvhd.value.value.from)
  }

  function HeaderDuration(data: Data, off: nat): Result<real, Fault> {
    if off >= |data| then Err(Truncated)
    else
      var timescale := Read32(data, if data[off] == 1 then off + 20 else off + 12);
      var duration := if data[off] == 1 then Read64(data, off + 24) else Read32(data, off + 16);
      if timescale.None? || duration.None? then Err(Truncated)
      else if timescale.value == 0 then Err(ZeroTimescale)
      else Ok(duration.value as real / timescale.value as real)
  }

  // ---- The writer ----

  /** How a box spells its size: 32 bits, 64 bits, or "to the end of what encloses it". */
  datatype Width = Short | Long | ToEnd

  datatype Box = Box(typ: Data, payload: Data, width: Width)

  predicate Writable(b: Box) {
    && |b.typ| == 4
    && (b.width == Short ==> 8 + |b.payload| < 0x1_0000_0000)
    && (b.width == Long ==> 16 + |b.payload| < 0x1_0000_0000_0000_0000)
  }

  function HeaderSize(b: Box): nat { if b.width == Long then 16 else 8 }

  function Written(b: Box): (r: Data)
    requires Writable(b)
    ensures |r| == HeaderSize(b) + |b.payload|
  {
    match b.width
    case Short => U32(8 + |b.payload|) + b.typ + b.payload
    case Long => U32(1) + b.typ + U64(16 + |b.payload|) + b.payload
    case ToEnd => U32(0) + b.typ + b.payload
  }

  ghost predicate HasAt(data: Data, off: nat, bytes: Data) {
    off + |bytes| <= |data| && data[off..off + |bytes|] == bytes
  }

  lemma Value32Inverts(n: nat)
    requires n < 0x1_0000_0000
    ensures Value32(U32(n)) == n
  {
  }

  lemma Read32Inverts(data: Data, off: nat, n: nat)
    requires n < 0x1_0000_0000 && HasAt(data, off, U32(n))
    ensures Read32(data, off) == Some(n)
  {
    Value32Inverts(n);
  }

  lemma Read64Inverts(data: Data, off: nat, n: nat)
    requires n < 0x1_0000_0000_0000_0000 && HasAt(data, off, U64(n))
    ensures Read64(data, off) == Some(n)
  {
    hide Value32, U32;
    var hi, lo := n / 0x1_0000_0000, n % 0x1_0000_0000;
    assert data[off..off + 4] == data[off..off + 8][..4];
    assert data[off + 4..off + 8] == data[off..off + 8][4..];
    Value32Inverts(hi);
    Value32Inverts(lo);
  }

  lemma SplitAt(data: Data, off: nat, a: Data, b: Data)
    requires HasAt(data, off, a + b)
    ensures HasAt(data, off, a) && HasAt(data, off + |a|, b)
  {
    var whole := data[off..off + |a + b|];
    assert whole[..|a|] == a && whole[|a|..] == b;
    assert data[off..off + |a|] == whole[..|a|];
    SliceOfSlice(data, off, off + |a + b|, |a|);
  }

  lemma SliceOfSlice(data: Data, from: nat, to: nat, k: nat)
    requires from + k <= to <= |data|
    ensures data[from..to][k..] == data[from + k..to]
  {
  }

  lemma PartAt(data: Data, off: nat, a: Data, b: Data, c: Data)
    requires HasAt(data, off, a + b + c)
    ensures HasAt(data, off, a) && HasAt(data, off + |a|, b) && HasAt(data, off + |a| + |b|, c)
  {
    hide HasAt;
    SplitAt(data, off, a + b, c);
    SplitAt(data, off, a, b);
  }

  /** The scanner reads the header of a written box, wherever it stands. */
  lemma HeaderReadsBack(data: Data, off: nat, end: nat, b: Box)
    requires Writable(b) && HasAt(data, off, Written(b)) && off + |Written(b)| <= end <= |data|
    requires b.width == ToEnd ==> off + |Written(b)| == end
    ensures ReadHeader(data, off, end) == Ok(Some(Header(b.typ, HeaderSize(b), |Written(b)|)))
    ensures HasAt(data, off + HeaderSize(b), b.payload)
  {
    hide U32, U64, Value32, Read32, Read64, ReadHeader;
    match b.width {
      case Short => ShortReadsBack(data, off, end, b);
      case Long => LongReadsBack(data, off, end, b);
      case ToEnd => ToEndReadsBack(data, off, end, b);
    }
  }

  lemma ShortReadsBack(data: Data, off: nat, end: nat, b: Box)
    requires b.width == Short && Writable(b) && HasAt(data, off, Written(b)) && off + |Written(b)| <= end <= |data|
    ensures ReadHeader(data, off, end) == Ok(Some(Header(b.typ, 8, |Written(b)|))) && HasAt(data, off + 8, b.payload)
  {
    hide U32, U64, Value32, Read32, Read64;
    PartAt(data, off, U32(8 + |b.payload|), b.typ, b.payload);
    Read32Inverts(data, off, 8 + |b.payload|);
    assert Slice(data, off + 4, off + 8) == b.typ;
  }

  lemma LongReadsBack(data: Data, off: nat, end: nat, b: Box)
    requires b.width == Long && Writable(b) && HasAt(data, off, Written(b)) && off + |Written(b)| <= end <= |data|
    ensures ReadHeader(data, off, end) == Ok(Some(Header(b.typ, 16, |Written(b)|))) && HasAt(data, off + 16, b.payload)
  {
    hide U32, U64, Value32, Read32, Read64;
    var tail := U64(16 + |b.payload|) + b.payload;
    assert Written(b) == U32(1) + b.typ + tail;
    PartAt(data, off, U32(1), b.typ, tail);
    Read32Inverts(data, off, 1);
    assert tail == U64(16 + |b.payload|) + b.payload + [];
    PartAt(data, off + 8, U64(16 + |b.payload|), b.payload, []);
    Read64Inverts(data, off + 8, 16 + |b.payload|);
    assert Slice(data, off + 4, off + 8) == b.typ;
  }

  lemma ToEndReadsBack(data: Data, off: nat, end: nat, b: Box)
    requires b.width == ToEnd && Writable(b) && HasAt(data, off, Written(b)) && off + |Written(b)| == end <= |data|
    ensures ReadHeader(data, off, end) == Ok(Some(Header(b.typ, 8, |Written(b)|))) && HasAt(data, off + 8, b.payload)
  {
    hide U32, U64, Value32, Read32, Read64;
    PartAt(data, off, U32(0), b.typ, b.payload);
    Read32Inverts(data, off, 0);
    assert Slice(data, off + 4, off + 8) == b.typ;
  }

  function AllWritten(boxes: seq<Box>): Data
    requires forall i :: 0 <= i < |boxes| ==> Writable(boxes[i])
  {
    if boxes == [] then [] else Written(boxes[0]) + AllWritten(boxes[1..])
  }

  /** Boxes that may stand before the one looked for: another type, a size of their own. */
  ghost predicate Skippable(boxes: seq<Box>, name: Data) {
    forall i :: 0 <= i < |boxes| ==> Writable(boxes[i]) && boxes[i].typ != name && boxes[i].width != ToEnd
  }

  lemma {:induction false} ScanSkips(data: Data, off: nat, end: nat, boxes: seq<Box>, name: Data)
    requires Skippable(boxes, name) && HasAt(data, off, AllWritten(boxes)) && off + |AllWritten(boxes)| <= end <= |data|
    ensures Found(data, off, end, name) == Found(data, off + |AllWritten(boxes)|, end, name)
    decreases |boxes|
  {
    hide Written, ReadHeader;
    if boxes != [] {
      var b, rest := boxes[0], AllWritten(boxes[1..]);
      assert AllWritten(boxes) == Written(b) + rest + [];
      PartAt(data, off, Written(b), rest, []);
      HeaderReadsBack(data, off, end, b);
      ScanSkips(data, off + |Written(b)|, end, boxes[1..], name);
    }
  }

  /** Past any run of other boxes, the scanner finds the payload of the one it was asked for. */
  lemma ScanFinds(data: Data, start: nat, end: nat, before: seq<Box>, b: Box)
    requires Skippable(before, b.typ) && Writable(b)
    requires HasAt(data, start, AllWritten(before) + Written(b))
    requires start + |AllWritten(before)| + |Written(b)| <= end <= |data|
    requires b.width == ToEnd ==> start + |AllWritten(before)| + |Written(b)| == end
    ensures var off := start + |AllWritten(before)| + HeaderSize(b);
      && Found(data, start, end, b.typ) == Ok(Some(Span(off, off + |b.payload|)))
      && HasAt(data, off, b.payload)
  {
    hide Written, ReadHeader, AllWritten, Writable;
    var pre := AllWritten(before);
    assert pre + Written(b) == pre + Written(b) + [];
    PartAt(data, start, pre, Written(b), []);
    ScanSkips(data, start, end, before, b.typ);
    HeaderReadsBack(data, start + |pre|, end, b);
  }

  // ---- The movie header ----

  /** A movie header; version 1 widens the two times and the duration to 64 bits. */
  datatype Mvhd = Mvhd(
    wide: bool, flags: Data, created: nat, modified: nat, timescale: nat, duration: nat, tail: Data)

  predicate WritableMvhd(m: Mvhd) {
    && |m.flags| == 3 && m.timescale < 0x1_0000_0000
    && var bound := if m.wide then 0x1_0000_0000_0000_0000 else 0x1_0000_0000;
       m.created < bound && m.modified < bound && m.duration < bound
  }

  /** The duration a movie header declares. */
  function HeaderSays(m: Mvhd): Result<real, Fault> {
    if m.timescale == 0 then Err(ZeroTimescale) else Ok(m.duration as real / m.timescale as real)
  }

  function MvhdPayload(m: Mvhd): Data
    requires WritableMvhd(m)
  {
    if m.wide then
      ([1] + m.flags + U64(m.created) + U64(m.modified)) + U32(m.timescale) + (U64(m.duration) + m.tail)
    else
      ([0] + m.flags + U32(m.created) + U32(m.modified)) + U32(m.timescale) + (U32(m.duration) + m.tail)
  }

  lemma HeaderParts(data: Data, off: nat, lead: Data, timescale: nat, length: Data, tail: Data)
    requires lead != [] && timescale < 0x1_0000_0000
    requires HasAt(data, off, lead + U32(timescale) + (length + tail))
    ensures off < |data| && data[off] == lead[0]
    ensures Read32(data, off + |lead|) == Some(timescale) && HasAt(data, off + |lead| + 4, length)
  {
    hide U32, Read32;
    PartAt(data, off, lead, U32(timescale), length + tail);
    assert length + tail == length + tail + [];
    PartAt(data, off + |lead| + 4, length, tail, []);
    Read32Inverts(data, off + |lead|, timescale);
    assert data[off] == data[off..off + |lead|][0];
  }

  lemma HeaderDurationInverts(data: Data, off: nat, m: Mvhd)
    requires WritableMvhd(m) && HasAt(data, off, MvhdPayload(m))
    ensures HeaderDuration(data, off) == HeaderSays(m)
  {
    hide U32, U64, Value32, Read32, Read64;
    if m.wide {
      HeaderParts(data, off, [1] + m.flags + U64(m.created) + U64(m.modified), m.timescale, U64(m.duration), m.tail);
      Read64Inverts(data, off + 24, m.duration);
    } else {
      HeaderParts(data, off, [0] + m.flags + U32(m.created) + U32(m.modified), m.timescale, U32(m.duration), m.tail);
      Read32Inverts(data, off + 16, m.duration);
    }
  }

  /** A file: any boxes, a movie box holding any boxes and a movie header, then anything at all. */
  datatype Film = Film(
    before: seq<Box>, moovWidth: Width, inner: seq<Box>, mvhdWidth: Width, header: Mvhd, innerTail: Data, tail: Data)

  ghost predicate Filmed(f: Film) {
    && Skippable(f.before, MOOV) && Skippable(f.inner, MVHD) && WritableMvhd(f.header)
    && (f.mvhdWidth == ToEnd ==> f.innerTail == [])
    && (f.moovWidth == ToEnd ==> f.tail == [])
    && Writable(HeaderBox(f)) && Writable(MovieBox(f))
  }

  ghost function HeaderBox(f: Film): Box
    requires WritableMvhd(f.header)
  {
    Box(MVHD, MvhdPayload(f.header), f.mvhdWidth)
  }

  ghost function MovieBox(f: Film): Box
    requires Skippable(f.inner, MVHD) && WritableMvhd(f.header) && Writable(HeaderBox(f))
  {
    Box(MOOV, AllWritten(f.inner) + Written(HeaderBox(f)) + f.innerTail, f.moovWidth)
  }

  ghost function FileOf(f: Film): Data
    requires Filmed(f)
  {
    AllWritten(f.before) + Written(MovieBox(f)) + f.tail
  }

  /** For every such file, whatever stands around the header and however the sizes are spelled, the
      parsed duration is the header's duration over its timescale. */
  lemma DurationInvertsTheWriter(f: Film)
    requires Filmed(f)
    ensures DurationOf(FileOf(f)) == HeaderSays(f.header)
  {
    hide Found, Written, MvhdPayload, HeaderDuration, WritableMvhd, Writable, AllWritten;
    var data, moov := FileOf(f), MovieBox(f);
    var head := AllWritten(f.before) + Written(moov);
    assert data[0..|head|] == head;
    ScanFinds(data, 0, |data|, f.before, moov);
    HeaderIsFound(f, data, |AllWritten(f.before)| + HeaderSize(moov));
  }

  lemma HeaderIsFound(f: Film, data: Data, from: nat)
    requires Filmed(f) && HasAt(data, from, MovieBox(f).payload)
    ensures var mvhd := Found(data, from, from + |MovieBox(f).payload|, MVHD);
      && mvhd.Ok? && mvhd.value.Some?
      && HeaderDuration(data, mvhd.value.value.from) == HeaderSays(f.header)
  {
    hide Found, Written, MvhdPayload, HeaderDuration, WritableMvhd, Writable, AllWritten;
    var mvhd := HeaderBox(f);
    var lead := AllWritten(f.inner) + Written(mvhd);
    SplitAt(data, from, lead, f.innerTail);
    ScanFinds(data, from, from + |MovieBox(f).payload|, f.inner, mvhd);
    HeaderDurationInverts(data, from + |AllWritten(f.inner)| + HeaderSize(mvhd), f.header);
  }
}
