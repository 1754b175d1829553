/** server/internal/audio/opus_recorder.go: the recorder that turns accepted packets into one
    Ogg/Opus file. File writes are assumed to succeed. */
module OpusRecorder {
  import opened Bytes
  import opened Seqs
  import opened Wrappers
  import opened OggCrc
  import opened OggPage

  const WARMUP_SKIP := 2
  const CHANNEL_CAPACITY := 256

  /** What is fixed when the recorder is created. */
  datatype Config = Config(serial: U32, preskip: int, channels: int, rate: nat)

  ghost predicate ValidConfig(c: Config) {
    0 <= c.preskip < 65536
  }

  // ---- The file as pages -----------------------------------------------------------------------

  const OPUS_HEAD: seq<byte> := [79, 112, 117, 115, 72, 101, 97, 100]  // "OpusHead"
  const OPUS_TAGS: seq<byte> := [79, 112, 117, 115, 84, 97, 103, 115]  // "OpusTags"
  const VENDOR: seq<byte> := [101, 115, 112, 109, 105, 99]  // "espmic"

  function HeadPacket(c: Config): seq<byte>
    requires ValidConfig(c)
  {
    OPUS_HEAD + [1, c.channels % 256] + PutLe16(c.preskip) + PutLe32(Wrap32(c.rate)) + PutLe16(0) + [0]
  }

  function TagsPacket(): seq<byte> {
    OPUS_TAGS + PutLe32(|VENDOR|) + VENDOR + PutLe32(0)
  }

  /** The granule position of the i-th written packet: pre-skip, then 20 ms a packet. */
  function Granule(c: Config, i: nat): int {
    c.preskip + i * (c.rate / 50)
  }

  /** The granule position the closing page repeats; zero when nothing was written. */
  function LastGranule(c: Config, written: nat): int {
    if written == 0 then 0 else Granule(c, written - 1)
  }

  /** One intended page: its header type, granule position and packet. */
  datatype Item = Item(headerType: byte, granule: int, packet: Option<seq<byte>>)

  function DataItem(c: Config, i: nat, packet: seq<byte>): Item {
    Item(0, Granule(c, i), Some(packet))
  }

  function HeadItem(c: Config): Item
    requires ValidConfig(c)
  {
    Item(BOS, 0, Some(HeadPacket(c)))
  }

  function TagsItem(): Item {
    Item(0, 0, Some(TagsPacket()))
  }

  /** The pages up to the last written packet. */
  function Items(c: Config, written: seq<seq<byte>>): seq<Item>
    requires ValidConfig(c)
  {
    if written == [] then [HeadItem(c), TagsItem()]
    else
      var n := |written| - 1;
      Items(c, written[..n]) + [DataItem(c, n, written[n])]
  }

  function EosItem(c: Config, written: nat): Item {
    Item(EOS, LastGranule(c, written), None)
  }

  /** The bytes of the n-th page of the file. */
  function PageBytes(c: Config, n: nat, item: Item): seq<byte> {
    match item.packet
    case Some(data) => PacketPage(item.headerType, Wrap64(item.granule), c.serial, Wrap32(n), data)
    case None => EosPage(Wrap64(item.granule), c.serial, Wrap32(n))
  }

  function FileBytes(c: Config, items: seq<Item>): seq<byte>
    decreases |items|
  {
    if items == [] then []
    else FileBytes(c, items[..|items| - 1]) + PageBytes(c, |items| - 1, items[|items| - 1])
  }

  /** What a reader should see on the n-th page. */
  function PageOf(c: Config, n: nat, item: Item): Page {
    match item.packet
    case Some(data) => Page(item.headerType, Wrap64(item.granule), c.serial, Wrap32(n), Lacing(|data|), data)
    case None => Page(item.headerType, Wrap64(item.granule), c.serial, Wrap32(n), [], [])
  }

  function PagesOf(c: Config, items: seq<Item>): seq<Page> {
    seq(|items|, n requires 0 <= n < |items| => PageOf(c, n, items[n]))
  }

  ghost predicate Fits(item: Item) {
    match item.packet
    case Some(data) => |data| < 65025
    case None => item.headerType == EOS
  }

  lemma PageBytesReadBack(c: Config, n: nat, item: Item, rest: seq<byte>)
    requires Fits(item)
    ensures ReadPage(PageBytes(c, n, item) + rest) == Some((PageOf(c, n, item), rest))
  {
    hide ReadPage;
    hide PacketPage;
    hide Front;
    hide Lacing;
    hide Seal;
    hide Wrap64;
    hide Wrap32;
    match item.packet
    case Some(data) =>
      ShortPageReadsBack(item.headerType, Wrap64(item.granule), c.serial, Wrap32(n), data, rest);
    case None =>
      SealedReadsBack(EOS, Wrap64(item.granule), c.serial, Wrap32(n), [], [], rest);
      var none: seq<byte> := [];
      assert [0] + none + none == [0];
  }

  /** Reading any file of such pages gives exactly those pages, numbered in order, with nothing
      left over. */
  lemma {:induction false} FileReadsBack(c: Config, items: seq<Item>, rest: seq<byte>)
    requires forall i :: 0 <= i < |items| ==> Fits(items[i])
    ensures var (pages, ok) := ReadPages(rest);
            ReadPages(FileBytes(c, items) + rest) == (PagesOf(c, items) + pages, ok)
    decreases |items|
  {
    hide ReadPage;
    hide PageBytes;
    hide PageOf;
    var (pages, ok) := ReadPages(rest);
    if items == [] {
      assert FileBytes(c, items) + rest == rest && PagesOf(c, items) + pages == pages;
    } else {
      var n := |items| - 1;
      var last := PageBytes(c, n, items[n]);
      PageBytesReadBack(c, n, items[n], rest);
      ConcatAssoc(FileBytes(c, items[..n]), last, rest);
      FileReadsBack(c, items[..n], last + rest);
      assert last + rest != [];
      ConcatAssoc(PagesOf(c, items[..n]), [PageOf(c, n, items[n])], pages);
      assert PagesOf(c, items) == PagesOf(c, items[..n]) + [PageOf(c, n, items[n])];
    }
  }

  // ---- The finished file --------------------------------------------------------------------------

  function DropWarmup(accepted: seq<seq<byte>>): seq<seq<byte>> {
    if |accepted| <= WARMUP_SKIP then [] else accepted[WARMUP_SKIP..]
  }

  function FinishedItems(c: Config, accepted: seq<seq<byte>>): seq<Item>
    requires ValidConfig(c)
  {
    var written := DropWarmup(accepted);
    Items(c, written) + [EosItem(c, |written|)]
  }

  lemma FirstItems(c: Config)
    requires ValidConfig(c)
    ensures Items(c, []) == [HeadItem(c), TagsItem()] && DropWarmup([]) == [] && LastGranule(c, 0) == 0
  {
  }

  lemma {:induction false} ItemsAre(c: Config, written: seq<seq<byte>>)
    requires ValidConfig(c)
    ensures |Items(c, written)| == |written| + 2
    ensures Items(c, written)[0] == HeadItem(c) && Items(c, written)[1] == TagsItem()
    ensures forall i :: 0 <= i < |written| ==> Items(c, written)[i + 2] == DataItem(c, i, written[i])
    decreases |written|
  {
    if written != [] {
      ItemsAre(c, written[..|written| - 1]);
    }
  }

  /** The packets a reader extracts from one page. */
  function PacketsOn(p: Page): (seq<seq<byte>>, seq<byte>)
    requires |p.data| == Sum(p.segs)
  {
    Packets(p.segs, p.data, [])
  }

  /** The n-th page is in its place: numbered n modulo 2^32, in this stream, its body as long as
      its table says. */
  ghost predicate InPlace(c: Config, n: nat, p: Page) {
    p.seqno == n % 0x1_0000_0000 && p.serial == c.serial && |p.data| == Sum(p.segs)
  }

  /** p has this header type and granule position, and exactly these packets end on it. */
  ghost predicate Carries(p: Page, headerType: int, granule: int, packets: seq<seq<byte>>) {
    && |p.data| == Sum(p.segs) && p.headerType == headerType && p.granule == granule % 0x1_0000_0000_0000_0000
    && PacketsOn(p) == (packets, [])
  }

  // ---- The header packets, after section 5 of RFC 7845 ---------------------------------------------

  datatype OpusHead = OpusHead(version: byte, channels: byte, preskip: int, rate: int, gain: int, family: byte)

  function Le16(lo: byte, hi: byte): int {
    lo + 256 * hi
  }

  function Le32(b0: byte, b1: byte, b2: byte, b3: byte): int {
    b0 + 0x100 * b1 + 0x1_0000 * b2 + 0x100_0000 * b3
  }

  /** Mapping family 0 has no channel table. */
  function ReadHead(b: seq<byte>): Option<OpusHead> {
    if |b| < 19 || b[..8] != [0x4f, 0x70, 0x75, 0x73, 0x48, 0x65, 0x61, 0x64] || b[8] >= 16 then None
    else if b[18] == 0 && |b| != 19 then None
    else Some(OpusHead(b[8], b[9], Le16(b[10], b[11]), Le32(b[12], b[13], b[14], b[15]), Le16(b[16], b[17]), b[18]))
  }

  /** A length of four bytes and as many bytes after it. */
  function ReadString(b: seq<byte>): Option<(seq<byte>, seq<byte>)> {
    if |b| < 4 then None
    else
      var n := Le32(b[0], b[1], b[2], b[3]);
      if |b| < 4 + n then None else Some((b[4..4 + n], b[4 + n..]))
  }

  function ReadComments(n: nat, b: seq<byte>): Option<seq<seq<byte>>> {
    if n == 0 then Some([])
    else
      match ReadString(b)
      case None => None
      case Some((s, rest)) =>
        match ReadComments(n - 1, rest)
        case None => None
        case Some(more) => Some([s] + more)
  }

  datatype OpusTags = OpusTags(vendor: seq<byte>, comments: seq<seq<byte>>)

  function ReadTags(b: seq<byte>): Option<OpusTags> {
    if |b| < 8 || b[..8] != [0x4f, 0x70, 0x75, 0x73, 0x54, 0x61, 0x67, 0x73] then None
    else
      match ReadString(b[8..])
      case None => None
      case Some((vendor, rest)) =>
        if |rest| < 4 then None
        else
          match ReadComments(Le32(rest[0], rest[1], rest[2], rest[3]), rest[4..])
          case None => None
          case Some(comments) => Some(OpusTags(vendor, comments))
  }

  lemma Le16Reads(v: int)
    requires 0 <= v < 65536
    ensures Le16(PutLe16(v)[0], PutLe16(v)[1]) == v
  {
  }

  lemma Le32Reads(v: U32)
    ensures var b := PutLe32(v); Le32(b[0], b[1], b[2], b[3]) == v
  {
    var b := PutBe32(v);
    Be32RoundTrip(v);
    BigEndian([0, 0], b);
  }

  lemma HeadReadsBack(c: Config)
    requires ValidConfig(c)
    ensures ReadHead(HeadPacket(c)) == Some(OpusHead(1, c.channels % 256, c.preskip, c.rate % 0x1_0000_0000, 0, 0))
  {
    hide PutLe32;
    hide PutLe16;
    hide Le16;
    hide Le32;
    Le16Reads(c.preskip);
    Le16Reads(0);
    Le32Reads(Wrap32(c.rate));
    var b, rate := HeadPacket(c), PutLe32(Wrap32(c.rate));
    assert b[..8] == OPUS_HEAD;
    assert b[12] == rate[0] && b[13] == rate[1] && b[14] == rate[2] && b[15] == rate[3];
  }

  lemma TagsReadBack()
    ensures ReadTags(TagsPacket()) == Some(OpusTags([0x65, 0x73, 0x70, 0x6d, 0x69, 0x63], []))
  {
    hide PutLe32;
    hide Le32;
    Le32Reads(6);
    Le32Reads(0);
    var b, n, none := TagsPacket(), PutLe32(6), PutLe32(0);
    assert b[..8] == OPUS_TAGS && b[8..] == n + VENDOR + none;
    assert (n + VENDOR + none)[4..10] == VENDOR && (n + VENDOR + none)[10..] == none;
  }

  /** The first page: OpusHead, version 1, with the recorder's channels, pre-skip and rate, no output gain,
      mapping family 0. */
  ghost predicate HasHead(c: Config, p: Page) {
    exists packet :: Carries(p, 2, 0, [packet])
      && ReadHead(packet) == Some(OpusHead(1, c.channels % 256, c.preskip, c.rate % 0x1_0000_0000, 0, 0))
  }

  /** The second page: OpusTags with the vendor "espmic" and no comments. */
  ghost predicate HasTags(p: Page) {
    exists packet :: Carries(p, 0, 0, [packet])
      && ReadTags(packet) == Some(OpusTags([0x65, 0x73, 0x70, 0x6d, 0x69, 0x63], []))
  }

  /** What a reader of the finished file is promised. */
  ghost predicate IsRecording(c: Config, written: seq<seq<byte>>, pages: seq<Page>) {
    var n := |written|;
    && |pages| == n + 3
    && (forall k :: 0 <= k < |pages| ==> InPlace(c, k, pages[k]))
    && HasHead(c, pages[0]) && HasTags(pages[1])
    && (forall i :: 0 <= i < n ==> Carries(pages[i + 2], 0, c.preskip + i * (c.rate / 50), [written[i]]))
    && Carries(pages[n + 2], 4, if n == 0 then 0 else c.preskip + (n - 1) * (c.rate / 50), [])
  }

  /** The file round trip. When the accepted packets after the first two are shorter than 65025 bytes,
      as everything is that server/internal/rtp/receiver.go reads into its 2048-byte buffer, reading
      the finished file by RFC 3533 gives, with every checksum right and nothing left over: the
      OpusHead page, the OpusTags page, one page for each accepted packet after the first two,
      byte for byte, with granule positions preskip + i * (rate / 50), and one closing page;
      the pages are numbered 0, 1, 2, ... modulo 2^32. */
  lemma RecordingReadsBack(c: Config, accepted: seq<seq<byte>>)
    requires ValidConfig(c) && forall i :: 2 <= i < |accepted| ==> |accepted[i]| < 65025
    ensures var (pages, ok) := ReadPages(FileBytes(c, FinishedItems(c, accepted)));
            ok && IsRecording(c, if |accepted| <= 2 then [] else accepted[2..], pages)
  {
    var written := DropWarmup(accepted);
    var items := FinishedItems(c, accepted);
    assert items == Items(c, written) + [EosItem(c, |written|)];
    assert forall i :: 0 <= i < |written| ==> written[i] == accepted[i + 2];
    hide Items;
    hide DropWarmup;
    hide Fits;
    hide FinishedItems;
    hide PagesOf;
    hide ReadPages;
    hide FileBytes;
    hide IsRecording;
    FinishedItemsFit(c, written);
    WholeFileReadsBack(c, items);
    PagesAreTheRecording(c, written);
  }

  lemma WholeFileReadsBack(c: Config, items: seq<Item>)
    requires forall i :: 0 <= i < |items| ==> Fits(items[i])
    ensures ReadPages(FileBytes(c, items)) == (PagesOf(c, items), true)
  {
    hide PagesOf;
    hide FileBytes;
    FileReadsBack(c, items, []);
    assert FileBytes(c, items) + [] == FileBytes(c, items) && PagesOf(c, items) + [] == PagesOf(c, items);
  }

  lemma FinishedItemsFit(c: Config, written: seq<seq<byte>>)
    requires ValidConfig(c) && forall i :: 0 <= i < |written| ==> |written[i]| < 65025
    ensures var items := Items(c, written) + [EosItem(c, |written|)];
            forall n :: 0 <= n < |items| ==> Fits(items[n])
  {
    hide Items;
    hide HeadPacket;
    hide TagsPacket;
    ItemsAre(c, written);
    HeadersFit(c);
    var items := Items(c, written) + [EosItem(c, |written|)];
    forall n | 0 <= n < |items| ensures Fits(items[n]) {
      if 2 <= n < |written| + 2 {
        assert items[n] == DataItem(c, n - 2, written[n - 2]);
      }
    }
  }

  lemma PagesAreTheRecording(c: Config, written: seq<seq<byte>>)
    requires ValidConfig(c) && forall i :: 0 <= i < |written| ==> |written[i]| < 65025
    ensures IsRecording(c, written, PagesOf(c, Items(c, written) + [EosItem(c, |written|)]))
  {
    hide Items;
    hide HeadPacket;
    hide TagsPacket;
    hide ReadHead;
    hide ReadTags;
    hide Carries;
    hide InPlace;
    hide PageOf;
    FinishedItemsFit(c, written);
    ItemsAre(c, written);
    var items := Items(c, written) + [EosItem(c, |written|)];
    var pages := PagesOf(c, items);
    forall n | 0 <= n < |items|
      ensures InPlace(c, n, pages[n]) && Carries(pages[n], items[n].headerType, items[n].granule, PacketsOf(items[n]))
    {
      PageOfItem(c, n, items[n]);
    }
    HeadReadsBack(c);
    TagsReadBack();
    assert PacketsOf(items[0]) == [HeadPacket(c)] && PacketsOf(items[1]) == [TagsPacket()];
    forall i | 0 <= i < |written| ensures Carries(pages[i + 2], 0, c.preskip + i * (c.rate / 50), [written[i]]) {
      assert items[i + 2] == DataItem(c, i, written[i]);
    }
  }

  function PacketsOf(item: Item): seq<seq<byte>> {
    if item.packet.Some? then [item.packet.value] else []
  }

  lemma HeadersFit(c: Config)
    requires ValidConfig(c)
    ensures |HeadPacket(c)| == 19 && |TagsPacket()| == 22
  {
    hide PutLe32;
    hide PutLe16;
  }

  lemma PageOfItem(c: Config, n: nat, item: Item)
    requires Fits(item)
    ensures InPlace(c, n, PageOf(c, n, item))
    ensures Carries(PageOf(c, n, item), item.headerType, item.granule, PacketsOf(item))
  {
    if item.packet.Some? {
      LacingDelimits(item.packet.value, []);
      assert [] + item.packet.value == item.packet.value;
    }
  }

  lemma ItemsSnoc(c: Config, before: seq<seq<byte>>, pkt: seq<byte>)
    requires ValidConfig(c)
    ensures Items(c, before + [pkt]) == Items(c, before) + [DataItem(c, |before|, pkt)]
  {
    hide HeadPacket;
    hide TagsPacket;
    assert (before + [pkt])[..|before|] == before;
  }

  // ---- The recorder --------------------------------------------------------------------------------

  class OpusRecorder {
    const serial: U32
    const preskip: int
    const channels: int
    const rate: nat
    var seqno: U32
    var prevGP: int
    var seen: nat
    var written: nat
    var file: seq<byte>
    var bytes: nat
    var closed: bool
    var ch: seq<seq<byte>>  // the channel to the writer goroutine

    ghost var accepted: seq<seq<byte>>  // everything put on the channel so far
    ghost var taken: seq<seq<byte>>     // what the writer has taken off it
    ghost var items: seq<Item>          // the pages written so far

    ghost function Cfg(): Config {
      Config(serial, preskip, channels, rate)
    }

    /** Writing so far: the file is its pages, the counters count them. */
    ghost predicate Writing()
      reads this
    {
      && ValidConfig(Cfg())
      && file == FileBytes(Cfg(), items) && bytes == |file| && seqno == Wrap32(|items|)
    }

    /** Everything taken off the channel and not skipped is in the file, in order. */
    ghost predicate Valid()
      reads this
    {
      && Writing() && |ch| <= CHANNEL_CAPACITY
      && accepted == taken + ch && seen == |taken| && written == |DropWarmup(taken)|
      && prevGP == LastGranule(Cfg(), written)
      && items == Items(Cfg(), DropWarmup(taken)) + (if closed then [EosItem(Cfg(), written)] else [])
      && (closed ==> ch == [])
    }

    constructor (serial: U32, rate: nat, channels: int, preskip: int)
      requires 0 <= preskip < 65536
      ensures Valid() && !closed && accepted == [] && Cfg() == Config(serial, preskip, channels, rate)
    {
      this.serial, this.rate, this.channels, this.preskip := serial, rate, channels, preskip;
      seqno, prevGP, seen, written, file, bytes, closed, ch := 0, 0, 0, 0, [], 0, false, [];
      accepted, taken, items := [], [], [];
      new;
      hide PageBytes;
      WriteHeaders();
    }

    method WriteHeaders()
      requires Writing() && items == [] && accepted == taken == ch == []
               && seen == written == 0 && prevGP == 0 && !closed
      modifies this`file, this`bytes, this`seqno, this`items
      ensures Valid()
    {
      hide FileBytes;
      hide Items;
      hide Wrap32;
      hide HeadItem;
      hide TagsItem;
      hide DropWarmup;
      hide LastGranule;
      FirstItems(Cfg());
      WriteOpusHead();
      WriteOpusTags();
      assert items + [] == items;
    }

    /** Append a finished page. */
    method Append(page: seq<byte>, ghost item: Item)
      requires Writing() && page == PageBytes(Cfg(), |items|, item)
      modifies this`file, this`bytes, this`seqno, this`items
      ensures Writing() && items == old(items) + [item]
    {
      hide PageBytes;
      ghost var n := |items|;
      assert (items + [item])[..n] == items;
      Wrap32Add(n, 1);
      file := file + page;
      seqno := Wrap32(seqno + 1);
      bytes := bytes + |page|;
      items := items + [item];
    }

    /** The segment table and the checksum, as writePage and buildBOSPage build them. */
    method BuildPage(headerType: byte, granule: int, data: seq<byte>) returns (page: seq<byte>)
      ensures page == PacketPage(headerType, Wrap64(granule), serial, seqno, data)
    {
      hide Lacing;
      var nseg := |data| / 255 + 1;
      var segTable := BuildTable(|data|);
      var front := Front(headerType, Wrap64(granule), serial, seqno);
      var back := [nseg % 256] + segTable + data;
      var crc := ComputeCrc(WithCrc(front, 0, back));
      page := WithCrc(front, crc, back);
    }

    static method BuildTable(size: nat) returns (segTable: seq<byte>)
      ensures segTable == Lacing(size)
    {
      var nseg := size / 255 + 1;
      segTable := [];
      var filled := 0;
      LacingLength(size);
      assert segTable + Lacing(size - filled) == Lacing(size);
      for i := 0 to nseg
        invariant filled <= size && |segTable| == i
        invariant i < nseg ==> segTable + Lacing(size - filled) == Lacing(size)
        invariant i == nseg ==> segTable == Lacing(size)
      {
        LacingLength(size - filled);
        var remaining := size - filled;
        ghost var before := segTable;
        if remaining >= 255 {
          segTable := segTable + [255];
          filled := filled + 255;
          ConcatAssoc(before, [255], Lacing(remaining - 255));
          LacingLength(remaining - 255);
        } else {
          segTable := segTable + [remaining];
          filled := filled + remaining;
        }
        assert |Lacing(size)| == nseg;
      }
    }

    method WriteOpusHead()
      requires Writing()
      modifies this`file, this`bytes, this`seqno, this`items
      ensures Writing() && items == old(items) + [HeadItem(Cfg())]
    {
      var head := OPUS_HEAD + [1, channels % 256] + PutLe16(preskip) + PutLe32(Wrap32(rate)) + PutLe16(0) + [0];
      var page := BuildPage(BOS, 0, head);
      Append(page, HeadItem(Cfg()));
    }

    method WriteOpusTags()
      requires Writing()
      modifies this`file, this`bytes, this`seqno, this`items
      ensures Writing() && items == old(items) + [TagsItem()]
    {
      var tags := OPUS_TAGS + PutLe32(|VENDOR|) + VENDOR + PutLe32(0);
      var page := BuildPage(0, 0, tags);
      Append(page, TagsItem());
    }

    /** Non-blocking: dropped when closed or when the channel is full. */
    method WritePacket(payload: seq<byte>)
      requires Valid()
      modifies this`ch, this`accepted
      ensures Valid()
      ensures accepted == (if closed || |old(ch)| == CHANNEL_CAPACITY then old(accepted) else old(accepted) + [payload])
    {
      hide FileBytes;
      hide Items;
      hide LastGranule;
      hide DropWarmup;
      if closed {
        return;
      }
      if |ch| < CHANNEL_CAPACITY {
        ch := ch + [payload];
        accepted := accepted + [payload];
      }
    }

    /** The writer goroutine takes one packet off the channel. */
    method WriterStep()
      requires Valid() && ch != []
      modifies this
      ensures Valid() && accepted == old(accepted) && closed == old(closed) && seen == old(seen) + 1
    {
      hide FileBytes;
      hide PageBytes;
      var pkt := ch[0];
      ConcatAssoc(taken, [pkt], ch[1..]);
      assert ch == [pkt] + ch[1..];
      ch := ch[1..];
      WritePageForPacket(pkt);
    }

    method WritePageForPacket(pkt: seq<byte>)
      requires Writing() && seen == |taken| && written == |DropWarmup(taken)| && prevGP == LastGranule(Cfg(), written)
      requires items == Items(Cfg(), DropWarmup(taken))
      modifies this`seen, this`taken, this`written, this`prevGP, this`file, this`bytes, this`seqno, this`items
      ensures Writing() && taken == old(taken) + [pkt] && seen == |taken|
      ensures written == |DropWarmup(taken)| && prevGP == LastGranule(Cfg(), written)
      ensures items == Items(Cfg(), DropWarmup(taken))
    {
      hide FileBytes;
      hide PageBytes;
      hide PacketPage;
      hide Wrap32;
      hide Wrap64;
      hide Items;
      hide DataItem;
      hide Granule;
      ghost var done := taken;
      taken := taken + [pkt];
      seen := seen + 1;
      if seen <= WARMUP_SKIP {
        return;
      }
      ghost var before := DropWarmup(done);
      WarmupSnoc(done, pkt);
      ItemsSnoc(Cfg(), before, pkt);
      hide DropWarmup;
      GranuleStep(Cfg(), written);
      written := written + 1;
      var gp;
      if written == 1 {
        gp := preskip;
      } else {
        gp := prevGP + rate / 50;
      }
      prevGP := gp;
      var page := BuildPage(0, gp, pkt);
      PageBytesOfData(Cfg(), |items|, written - 1, pkt);
      Append(page, DataItem(Cfg(), written - 1, pkt));
    }

    static lemma WarmupSnoc(done: seq<seq<byte>>, pkt: seq<byte>)
      requires |done| >= WARMUP_SKIP
      ensures DropWarmup(done + [pkt]) == DropWarmup(done) + [pkt]
    {
    }

    static lemma GranuleStep(c: Config, written: nat)
      ensures Granule(c, 0) == c.preskip
      ensures written > 0 ==> Granule(c, written) == LastGranule(c, written) + c.rate / 50
    {
      assert written > 0 ==> written * (c.rate / 50) == (written - 1) * (c.rate / 50) + c.rate / 50;
    }

    static lemma PageBytesOfData(c: Config, n: nat, i: nat, pkt: seq<byte>)
      ensures PageBytes(c, n, DataItem(c, i, pkt)) == PacketPage(0, Wrap64(Granule(c, i)), c.serial, Wrap32(n), pkt)
    {
    }

    /** Close, drain the channel, write the closing page. After it the file is exactly the
        finished file of everything accepted. */
    method Finalize() returns (ok: bool, size: nat)
      requires Valid()
      modifies this
      ensures ok <==> !old(closed)
      ensures !ok ==> size == 0 && file == old(file) && closed
      ensures ok ==> Valid() && closed && accepted == old(accepted) && size == |file|
                     && file == FileBytes(Cfg(), FinishedItems(Cfg(), accepted))
    {
      hide FileBytes;
      hide PageBytes;
      if closed {
        return false, 0;
      }
      while ch != []
        invariant Valid() && accepted == old(accepted) && !closed
        decreases |accepted| - seen
      {
        WriterStep();
      }
      assert taken + [] == taken;
      closed := true;
      WriteEosPage(prevGP);
      return true, bytes;
    }

    method WriteEosPage(granule: int)
      requires Writing()
      modifies this`file, this`bytes, this`seqno, this`items
      ensures Writing() && items == old(items) + [Item(EOS, granule, None)]
    {
      var front := Front(EOS, Wrap64(granule), serial, seqno);
      var crc := ComputeCrc(WithCrc(front, 0, [0]));
      var page := WithCrc(front, crc, [0]);
      Append(page, Item(EOS, granule, None));
    }
  }
}
