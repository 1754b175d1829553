/** Ogg pages: what the recorder writes, and a reader that follows section 6 of RFC 3533. */
module OggPage {
  import opened Bytes
  import opened Seqs
  import opened Wrappers
  import opened OggCrc

  // ---- Little-endian fields ------------------------------------------------------------------

  type U64 = x: int | 0 <= x < 0x1_0000_0000_0000_0000

  function Wrap64(n: int): U64 {
    n % 0x1_0000_0000_0000_0000
  }

  function PutLe16(v: int): (s: seq<byte>)
    requires 0 <= v < 65536
    ensures |s| == 2
  {
    [v % 256, v / 256]
  }

  function PutLe32(v: U32): (s: seq<byte>)
    ensures |s| == 4
  {
    var b := PutBe32(v);
    [b[3], b[2], b[1], b[0]]
  }

  function GetLe32(s: seq<byte>): U32
    requires |s| == 4
  {
    GetBe32([s[3], s[2], s[1], s[0]])
  }

  function PutLe64(v: U64): (s: seq<byte>)
    ensures |s| == 8
  {
    PutLe32(v % 0x1_0000_0000) + PutLe32(v / 0x1_0000_0000)
  }

  function GetLe64(s: seq<byte>): U64
    requires |s| == 8
  {
    GetLe32(s[..4]) + 0x1_0000_0000 * (GetLe32(s[4..]) as int)
  }

  lemma Le32RoundTrip(v: U32)
    ensures GetLe32(PutLe32(v)) == v
  {
    Be32RoundTrip(v);
    var b := PutBe32(v);
    assert b == [b[0], b[1], b[2], b[3]];
  }

  lemma Le64RoundTrip(v: U64)
    ensures GetLe64(PutLe64(v)) == v
  {
    Le32RoundTrip(v % 0x1_0000_0000);
    Le32RoundTrip(v / 0x1_0000_0000);
    assert PutLe64(v)[..4] == PutLe32(v % 0x1_0000_0000) && PutLe64(v)[4..] == PutLe32(v / 0x1_0000_0000);
    hide PutLe32;
    hide GetLe32;
  }

  /** The first byte is the least significant. */
  lemma LittleEndian(s: seq<byte>)
    requires |s| == 8
    ensures GetLe32(s[..4]) as int
            == (s[0] as int) + 0x100 * (s[1] as int) + 0x1_0000 * (s[2] as int) + 0x100_0000 * (s[3] as int)
    ensures GetLe64(s) as int
            == (GetLe32(s[..4]) as int) + 0x1_0000_0000 * (s[4] as int) + 0x100_0000_0000 * (s[5] as int)
               + 0x1_0000_0000_0000 * (s[6] as int) + 0x100_0000_0000_0000 * (s[7] as int)
  {
    BigEndian([0, 0], [s[3], s[2], s[1], s[0]]);
    BigEndian([0, 0], [s[7], s[6], s[5], s[4]]);
  }

  // ---- Writing ---------------------------------------------------------------------------------

  const BOS: byte := 0x02
  const EOS: byte := 0x04
  const HEAD_LEN := 27

  /** A page as its fields; segs is the segment table as counted by the header. */
  datatype Page = Page(headerType: byte, granule: U64, serial: U32, seqno: U32, segs: seq<byte>, data: seq<byte>)

  const CAPTURE: seq<byte> := [79, 103, 103, 83]  // "OggS"

  /** The header up to the checksum, and the rest after it; count is the byte that says how
      many lacing values follow. */
  function Front(headerType: byte, granule: U64, serial: U32, seqno: U32): (s: seq<byte>)
    ensures |s| == 22
  {
    CAPTURE + [0, headerType] + PutLe64(granule) + PutLe32(serial) + PutLe32(seqno)
  }

  function WithCrc(front: seq<byte>, crc: U32, back: seq<byte>): seq<byte> {
    front + PutLe32(crc) + back
  }

  /** The finished page: the checksum is taken with its own field zero. */
  function Seal(front: seq<byte>, back: seq<byte>): seq<byte> {
    WithCrc(front, OggCrc.OggCrc(WithCrc(front, 0, back)), back)
  }

  function LacingCount(len: nat): nat {
    len / 255 + 1
  }

  /** 255 for each full segment, then the remainder, which may be zero. */
  function Lacing(len: nat): (s: seq<byte>)
    decreases len
  {
    if len >= 255 then [255] + Lacing(len - 255) else [len]
  }

  lemma {:induction false} LacingLength(len: nat)
    ensures |Lacing(len)| == LacingCount(len)
    decreases len
  {
    if len >= 255 { LacingLength(len - 255); }
  }

  /** A page holding one packet, as writePage builds it: the count is cut to one byte. */
  function PacketPage(headerType: byte, granule: U64, serial: U32, seqno: U32, data: seq<byte>): seq<byte> {
    Seal(Front(headerType, granule, serial, seqno), [LacingCount(|data|) % 256] + Lacing(|data|) + data)
  }

  /** The closing page holds nothing. */
  function EosPage(granule: U64, serial: U32, seqno: U32): seq<byte> {
    Seal(Front(EOS, granule, serial, seqno), [0])
  }

  // ---- Reading ---------------------------------------------------------------------------------

  function Sum(segs: seq<byte>): nat {
    if segs == [] then 0 else (segs[0] as int) + Sum(segs[1..])
  }

  /** Capture pattern, version, table and body all present, and the checksum right. */
  predicate IsPage(b: seq<byte>) {
    && |b| >= HEAD_LEN && b[..4] == [0x4f, 0x67, 0x67, 0x53] && b[4] == 0
    && |b| >= HEAD_LEN + b[26] && |b| >= HEAD_LEN + b[26] + Sum(b[HEAD_LEN..HEAD_LEN + b[26]])
    && ChecksumHolds(b[..HEAD_LEN + b[26] + Sum(b[HEAD_LEN..HEAD_LEN + b[26]])])
  }

  predicate ChecksumHolds(page: seq<byte>)
    requires |page| >= HEAD_LEN
  {
    OggCrc.OggCrc(WithCrc(page[..22], 0, page[26..])) == GetLe32(page[22..26])
  }

  function ReadPage(b: seq<byte>): (r: Option<(Page, seq<byte>)>)
    ensures r.Some? ==> |r.value.1| < |b|
  {
    if !IsPage(b) then None
    else
      var body := HEAD_LEN + b[26];
      var segs := b[HEAD_LEN..body];
      var end := body + Sum(segs);
      Some((Page(b[5], GetLe64(b[6..14]), GetLe32(b[14..18]), GetLe32(b[18..22]), segs, b[body..end]), b[end..]))
  }

  /** All pages from the front; ok when nothing is left over. */
  function ReadPages(b: seq<byte>): (seq<Page>, bool)
    decreases |b|
  {
    if b == [] then ([], true)
    else
      match ReadPage(b)
      case None => ([], false)
      case Some((page, rest)) =>
        var (pages, ok) := ReadPages(rest);
        ([page] + pages, ok)
  }

  /** The packets that end on a page, and the bytes of one that continues: a packet ends with
      the first lacing value below 255. */
  function Packets(segs: seq<byte>, data: seq<byte>, open: seq<byte>): (seq<seq<byte>>, seq<byte>)
    requires |data| == Sum(segs)
    decreases segs
  {
    if segs == [] then ([], open)
    else
      var n := segs[0];
      var part := open + data[..n];
      if n == 255 then Packets(segs[1..], data[n..], part)
      else
        var (packets, last) := Packets(segs[1..], data[n..], []);
        ([part] + packets, last)
  }

  // ---- Round trip --------------------------------------------------------------------------------

  lemma {:induction false} LacingSum(len: nat)
    ensures Sum(Lacing(len)) == len
    decreases len
  {
    if len >= 255 {
      LacingSum(len - 255);
      assert Lacing(len)[1..] == Lacing(len - 255);
    } else {
      assert Lacing(len)[1..] == [];
    }
  }

  /** The lacing of one packet delimits exactly that packet. */
  lemma {:induction false} LacingDelimits(data: seq<byte>, open: seq<byte>)
    ensures Sum(Lacing(|data|)) == |data|
    ensures Packets(Lacing(|data|), data, open) == ([open + data], [])
    decreases |data|
  {
    LacingSum(|data|);
    var none: seq<byte> := [];
    if |data| >= 255 {
      var segs := Lacing(|data| - 255);
      assert Lacing(|data|)[1..] == segs;
      LacingDelimits(data[255..], open + data[..255]);
      assert (open + data[..255]) + data[255..] == open + data;
    } else {
      assert Lacing(|data|)[1..] == [];
      assert data[..|data|] == data && data[|data|..] == [];
      assert [open + data] + [] == [open + data];
    }
  }

  lemma {:induction false} SumBound(segs: seq<byte>)
    ensures Sum(segs) <= 255 * |segs|
    decreases segs
  {
    if segs != [] { SumBound(segs[1..]); }
  }

  lemma FieldsOfFront(headerType: byte, granule: U64, serial: U32, seqno: U32)
    ensures var f := Front(headerType, granule, serial, seqno);
            && f[..4] == CAPTURE && f[4] == 0 && f[5] == headerType && GetLe64(f[6..14]) == granule
            && GetLe32(f[14..18]) == serial && GetLe32(f[18..22]) == seqno
  {
    hide PutLe64;
    hide PutLe32;
    hide GetLe64;
    hide GetLe32;
    var f := Front(headerType, granule, serial, seqno);
    assert f[6..14] == PutLe64(granule) && f[14..18] == PutLe32(serial) && f[18..22] == PutLe32(seqno);
    Le64RoundTrip(granule);
    Le32RoundTrip(serial);
    Le32RoundTrip(seqno);
  }

  lemma SealedHolds(front: seq<byte>, back: seq<byte>)
    requires |front| == 22 && |back| >= 1
    ensures var page := Seal(front, back);
            && |page| == 26 + |back| && page[..22] == front && page[26..] == back && ChecksumHolds(page)
  {
    hide OggCrc.OggCrc;
    hide PutLe32;
    hide GetLe32;
    var page := Seal(front, back);
    var crc := OggCrc.OggCrc(WithCrc(front, 0, back));
    assert page[..22] == front && page[22..26] == PutLe32(crc) && page[26..] == back;
    Le32RoundTrip(crc);
  }

  lemma PartsOfPage(front: seq<byte>, crc: seq<byte>, segs: seq<byte>, data: seq<byte>, rest: seq<byte>)
    requires |front| == 22 && |crc| == 4 && |segs| < 256
    ensures var page := front + crc + ([|segs|] + segs + data); var b := page + rest; var body := HEAD_LEN + |segs|;
            && |b| == body + |data| + |rest| && b[4] == front[4] && b[5] == front[5] && b[26] == |segs|
            && b[..4] == front[..4] && b[6..14] == front[6..14]
            && b[14..18] == front[14..18] && b[18..22] == front[18..22]
            && b[HEAD_LEN..body] == segs && b[body..body + |data|] == data
            && b[..body + |data|] == page && b[body + |data|..] == rest
  {
  }

  /** A sealed page whose table is counted right reads back, whatever follows. */
  lemma SealedReadsBack(
    headerType: byte, granule: U64, serial: U32, seqno: U32, segs: seq<byte>,
    data: seq<byte>, rest: seq<byte>)
    requires |segs| < 256 && Sum(segs) == |data|
    ensures var front := Front(headerType, granule, serial, seqno);
            ReadPage(Seal(front, [|segs|] + segs + data) + rest)
            == Some((Page(headerType, granule, serial, seqno, segs, data), rest))
  {
    hide ChecksumHolds;
    hide Front;
    hide PutLe32;
    hide GetLe32;
    hide GetLe64;
    hide OggCrc.OggCrc;
    hide Sum;
    hide ReadPage;
    var front, back := Front(headerType, granule, serial, seqno), [|segs|] + segs + data;
    FieldsOfFront(headerType, granule, serial, seqno);
    SealedHolds(front, back);
    PartsOfPage(front, PutLe32(OggCrc.OggCrc(WithCrc(front, 0, back))), segs, data, rest);
    ReadOfParts(Seal(front, back) + rest, segs, data, rest);
  }

  lemma ReadOfParts(b: seq<byte>, segs: seq<byte>, data: seq<byte>, rest: seq<byte>)
    requires Sum(segs) == |data| && |b| == HEAD_LEN + |segs| + |data| + |rest|
    requires b[..4] == CAPTURE && b[4] == 0 && b[26] == |segs|
    requires b[HEAD_LEN..HEAD_LEN + |segs|] == segs && b[HEAD_LEN + |segs|..HEAD_LEN + |segs| + |data|] == data
    requires b[HEAD_LEN + |segs| + |data|..] == rest && ChecksumHolds(b[..HEAD_LEN + |segs| + |data|])
    ensures ReadPage(b) ==
              Some((Page(b[5], GetLe64(b[6..14]), GetLe32(b[14..18]), GetLe32(b[18..22]), segs, data), rest))
  {
    hide ChecksumHolds;
    hide GetLe32;
    hide GetLe64;
  }

  lemma CountFits(len: nat)
    ensures LacingCount(len) < 256 <==> len < 65025
    ensures LacingCount(len) < 256 ==> LacingCount(len) % 256 == LacingCount(len)
    ensures len == 65025 ==> LacingCount(len) % 256 == 0
  {
  }

  lemma ShortPageReadsBack(headerType: byte, granule: U64, serial: U32, seqno: U32, data: seq<byte>, rest: seq<byte>)
    requires |data| < 65025
    ensures ReadPage(PacketPage(headerType, granule, serial, seqno, data) + rest)
            == Some((Page(headerType, granule, serial, seqno, Lacing(|data|), data), rest))
  {
    LacingSum(|data|);
    LacingLength(|data|);
    CountFits(|data|);
    hide Lacing;
    hide LacingCount;
    hide Sum;
    hide Seal;
    hide Front;
    hide ReadPage;
    SealedReadsBack(headerType, granule, serial, seqno, Lacing(|data|), data, rest);
  }

  lemma LongPageDoesNot(headerType: byte, granule: U64, serial: U32, seqno: U32, data: seq<byte>, rest: seq<byte>)
    requires |data| >= 65025
    ensures var r := ReadPage(PacketPage(headerType, granule, serial, seqno, data) + rest);
            r.Some? ==> r.value.0.data != data
  {
    CountFits(|data|);
    hide Lacing;
    hide LacingCount;
    hide Seal;
    hide Front;
    hide ChecksumHolds;
    var front := Front(headerType, granule, serial, seqno);
    var back := [LacingCount(|data|) % 256] + Lacing(|data|) + data;
    SealedHolds(front, back);
    var b := Seal(front, back) + rest;
    assert b[26] == Seal(front, back)[26..][0] == back[0];
    hide ReadPage;
    ReadIsBounded(b);
  }

  lemma ReadIsBounded(b: seq<byte>)
    ensures ReadPage(b).Some? ==> |b| > 26 && |ReadPage(b).value.0.data| <= 255 * (b[26] as int)
  {
    hide ChecksumHolds;
    if IsPage(b) {
      SumBound(b[HEAD_LEN..HEAD_LEN + b[26]]);
    }
  }

  /** writePage reads back exactly when the packet is shorter than 65025 bytes; from there on
      the lacing count no longer fits its byte and whatever is read is not the packet. */
  lemma PacketPageReadsBackIff(
    headerType: byte, granule: U64, serial: U32, seqno: U32, data: seq<byte>, rest: seq<byte>)
    ensures var r := ReadPage(PacketPage(headerType, granule, serial, seqno, data) + rest);
            if |data| < 65025
            then r == Some((Page(headerType, granule, serial, seqno, Lacing(|data|), data), rest))
            else r.Some? ==> r.value.0.data != data
  {
    hide PacketPage;
    hide ReadPage;
    hide Lacing;
    if |data| < 65025 {
      ShortPageReadsBack(headerType, granule, serial, seqno, data, rest);
    } else {
      LongPageDoesNot(headerType, granule, serial, seqno, data, rest);
    }
  }

  // ---- Error detection ---------------------------------------------------------------------------

  /** Any corruption of a sealed page confined to four consecutive bytes of the part the
      checksum covers, or to the checksum itself, is detected. */
  lemma CorruptionDetected(front: seq<byte>, back: seq<byte>, front': seq<byte>, back': seq<byte>, crc': U32)
    requires |front| == |front'| == 22 && |back| == |back'| && |back| >= 1
    requires ChecksumHolds(Seal(front, back))
    requires front' == front && back' == back ==> crc' != OggCrc.OggCrc(WithCrc(front, 0, back))
    requires front' != front || back' != back ==>
               crc' == OggCrc.OggCrc(WithCrc(front, 0, back))
               && BurstApart(WithCrc(front, 0, back), WithCrc(front', 0, back'))
    ensures !ChecksumHolds(WithCrc(front', crc', back'))
  {
    hide OggCrc.OggCrc;
    hide PutLe32;
    hide GetLe32;
    var page := WithCrc(front', crc', back');
    assert page[..22] == front' && page[22..26] == PutLe32(crc') && page[26..] == back';
    Le32RoundTrip(crc');
    if front' != front || back' != back {
      BurstsDiffer(WithCrc(front, 0, back), WithCrc(front', 0, back'));
    }
  }

  /** a and b differ, and only within four consecutive bytes. */
  ghost predicate BurstApart(a: seq<byte>, b: seq<byte>) {
    exists p, w, w', q :: Splits(a, p, w, q) && Splits(b, p, w', q) && w != w'
  }

  ghost predicate Splits(a: seq<byte>, p: seq<byte>, w: seq<byte>, q: seq<byte>) {
    |w| == 4 && a == p + w + q
  }

  lemma BurstsDiffer(a: seq<byte>, b: seq<byte>)
    requires BurstApart(a, b)
    ensures OggCrc.OggCrc(a) != OggCrc.OggCrc(b)
  {
    var p, w, w', q :| Splits(a, p, w, q) && Splits(b, p, w', q) && w != w';
    BurstChangesCrc(p, w, w', q);
  }

  /** Altering any one byte of a sealed page, wherever it is, makes its checksum fail. */
  lemma ByteFlipDetected(front: seq<byte>, back: seq<byte>, i: nat, v: byte)
    requires |front| == 22 && |back| >= 1 && i < 26 + |back|
    ensures |Seal(front, back)| == 26 + |back|
    ensures v != Seal(front, back)[i] ==> !ChecksumHolds(Seal(front, back)[i := v])
  {
    hide OggCrc.OggCrc;
    hide PutLe32;
    hide GetLe32;
    SealedHolds(front, back);
    var page := Seal(front, back);
    var zero := WithCrc(front, 0, back);
    var crc := OggCrc.OggCrc(zero);
    var bad := page[i := v];
    if v != page[i] {
      if 22 <= i < 26 {
        assert bad[..22] == front && bad[26..] == back;
        var f, g := bad[22..26], page[22..26];
        assert f[i - 22] != g[i - 22];
        LeInjective(f, g);
      } else {
        var zero' := WithCrc(bad[..22], 0, bad[26..]);
        assert zero' == zero[i := v] && zero[i] == page[i];
        assert bad[22..26] == page[22..26];
        ByteChangeChangesCrc(zero, i, v);
      }
    }
  }

  lemma LeInjective(f: seq<byte>, g: seq<byte>)
    requires |f| == |g| == 4 && f != g
    ensures GetLe32(f) != GetLe32(g)
  {
    var rf, rg := [f[3], f[2], f[1], f[0]], [g[3], g[2], g[1], g[0]];
    assert f == [rf[3], rf[2], rf[1], rf[0]] && g == [rg[3], rg[2], rg[1], rg[0]];
    Be32Injective(rf);
    Be32Injective(rg);
    hide GetBe32;
    hide PutBe32;
  }
}
