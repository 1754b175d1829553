/** client/components/rtp/rtp_packet.c: the RTP packetizer, and a reader for what it writes. */
module RtpPacket {
  import opened Bytes
  import opened SerialNumber
  import opened JitterSpec

  const RTP_HEADER_SIZE := 12
  const RTP_VERSION := 2
  const DEFAULT_PAYLOAD_TYPE := 111
  const TIMESTAMP_INCREMENT := 960

  type PayloadType = x: int | 0 <= x < 128

  /** The packetizer between packets: what the next one will carry. */
  datatype Rtp = Rtp(payloadType: PayloadType, sequence: U16, timestamp: U32, ssrc: U32)

  function Header(s: Rtp, marker: bool): (h: seq<byte>)
    ensures |h| == RTP_HEADER_SIZE
  {
    [RTP_VERSION * 64, (if marker then 128 else 0) + s.payloadType]
    + PutBe16(s.sequence) + PutBe32(s.timestamp) + PutBe32(s.ssrc)
  }

  function Wire(s: Rtp, marker: bool, payload: seq<byte>): seq<byte> {
    Header(s, marker) + payload
  }

  function Advance(s: Rtp): Rtp {
    s.(sequence := SeqNext(s.sequence), timestamp := Wrap32(s.timestamp + TIMESTAMP_INCREMENT))
  }

  /** The state before the n-th packet after s. */
  function Nth(s: Rtp, n: nat): Rtp {
    s.(sequence := Wrap(s.sequence + n), timestamp := Wrap32(s.timestamp + n * TIMESTAMP_INCREMENT))
  }

  lemma AdvanceNth(s: Rtp, n: nat)
    ensures Advance(Nth(s, n)) == Nth(s, n + 1) && Nth(s, 0) == s
  {
    WrapAdd(s.sequence + n, 1);
    Wrap32Add(s.timestamp + n * TIMESTAMP_INCREMENT, TIMESTAMP_INCREMENT);
  }

  // ---- Reading -----------------------------------------------------------------------------

  datatype ParseError = Malformed | WrongVersion | WrongPayloadType | EmptyPayload

  datatype ParseResult = Parsed(p: Packet) | Rejected(error: ParseError)

  /** The fixed header of section 5.1 of RFC 3550 without padding, extension or contributing
      sources, and then the checks of server/internal/rtp/packet.go. */
  function ParseFor(raw: seq<byte>, expectedPT: int): ParseResult {
    if |raw| < RTP_HEADER_SIZE || raw[0] % 64 != 0 then Rejected(Malformed)
    else if raw[0] / 64 != RTP_VERSION then Rejected(WrongVersion)
    else if raw[1] % 128 != expectedPT then Rejected(WrongPayloadType)
    else if |raw| == RTP_HEADER_SIZE then Rejected(EmptyPayload)
    else Parsed(Packet(raw[0] / 64, raw[1] % 128, GetBe16(raw[2..4]),
                       GetBe32(raw[4..8]), GetBe32(raw[8..12]), raw[12..]))
  }

  /** What the packetizer writes, the server reads back unchanged; only an empty payload is
      refused. */
  lemma WireRoundTrip(s: Rtp, marker: bool, payload: seq<byte>)
    ensures ParseFor(Wire(s, marker, payload), s.payloadType) ==
            if payload == [] then Rejected(EmptyPayload)
            else Parsed(Packet(RTP_VERSION, s.payloadType, s.sequence, s.timestamp, s.ssrc, payload))
  {
    var raw := Wire(s, marker, payload);
    assert raw[2..4] == PutBe16(s.sequence);
    assert raw[4..8] == PutBe32(s.timestamp);
    assert raw[8..12] == PutBe32(s.ssrc);
    assert raw[12..] == payload;
    Be32RoundTrip(s.timestamp);
    Be32RoundTrip(s.ssrc);
  }

  /** Every field in its place, as section 5.1 of RFC 3550 puts it. */
  lemma WireLayout(s: Rtp, marker: bool, payload: seq<byte>)
    ensures var b := Wire(s, marker, payload);
            && |b| == 12 + |payload| && b[0] == 0x80 && (b[1] >= 128 <==> marker) && b[1] % 128 == s.payloadType
            && GetBe16(b[2..4]) == s.sequence && GetBe32(b[4..8]) == s.timestamp && GetBe32(b[8..12]) == s.ssrc
            && b[12..] == payload
  {
    var b := Wire(s, marker, payload);
    assert b[2..4] == PutBe16(s.sequence) && b[4..8] == PutBe32(s.timestamp) && b[8..12] == PutBe32(s.ssrc);
    Be32RoundTrip(s.timestamp);
    Be32RoundTrip(s.ssrc);
  }

  /** The packetizer could have written this. */
  ghost predicate IsWire(raw: seq<byte>, s: Rtp, marker: bool, payload: seq<byte>) {
    raw == Wire(s, marker, payload)
  }

  /** The reader accepts exactly the datagrams that a packetizer with this payload type could have written
      for a non-empty payload; what else arrives it refuses for the first of four reasons. */
  lemma AcceptsExactlyWire(raw: seq<byte>, pt: PayloadType)
    ensures ParseFor(raw, pt).Parsed? <==>
            exists s: Rtp, marker, payload :: payload != [] && s.payloadType == pt && IsWire(raw, s, marker, payload)
    ensures var r, whole := ParseFor(raw, pt), |raw| >= 12 && raw[0] % 64 == 0;
            && (r == Rejected(Malformed) <==> !whole)
            && (r == Rejected(WrongVersion) <==> whole && raw[0] != 128)
            && (r == Rejected(WrongPayloadType) <==> whole && raw[0] == 128 && raw[1] % 128 != pt)
            && (r == Rejected(EmptyPayload) <==> whole && raw[0] == 128 && |raw| == 12 && raw[1] % 128 == pt)
  {
    if ParseFor(raw, pt).Parsed? {
      var p := ParseFor(raw, pt).p;
      var s := Rtp(pt, p.seqNum, p.timestamp, p.ssrc);
      BigEndian(raw[2..4], raw[4..8]);
      BigEndian(raw[2..4], raw[8..12]);
      hide PutBe32;
      hide GetBe32;
      var h := Header(s, raw[1] >= 128);
      assert h == raw[..12] by {
        assert h[..2] == raw[..2] && h[2..4] == raw[2..4] && h[4..8] == raw[4..8] && h[8..12] == raw[8..12];
        assert h == h[..2] + h[2..4] + h[4..8] + h[8..12];
      }
      assert IsWire(raw, s, raw[1] >= 128, p.payload);
    }
    if s: Rtp, marker, payload :| payload != [] && s.payloadType == pt && IsWire(raw, s, marker, payload) {
      WireRoundTrip(s, marker, payload);
    }
  }

  // ---- The packetizer ------------------------------------------------------------------------

  class Packetizer {
    var payloadType: PayloadType
    var sequence: U16
    var timestamp: U32
    var ssrc: U32

    ghost function Abs(): Rtp
      reads this
    {
      Rtp(payloadType, sequence, timestamp, ssrc)
    }

    /** a, b and c are the three values mixed from the seed. */
    constructor (payloadType: byte, a: U32, b: U32, c: U32)
      ensures Abs() == Rtp(if payloadType > 127 then DEFAULT_PAYLOAD_TYPE else payloadType, a % 65536, b, c)
    {
      this.payloadType := if payloadType > 127 then DEFAULT_PAYLOAD_TYPE else payloadType;
      sequence, timestamp, ssrc := a % 65536, b, c;
    }

    /** -2 when the packet would overrun; the state advances only on success. */
    method Serialize(opus: seq<byte>, marker: bool, out: array<byte>) returns (r: int)
      modifies this, out
      ensures out.Length < RTP_HEADER_SIZE + |opus| ==> r == -2 && Abs() == old(Abs()) && out[..] == old(out[..])
      ensures out.Length >= RTP_HEADER_SIZE + |opus| ==>
                && r == RTP_HEADER_SIZE + |opus| && Abs() == Advance(old(Abs()))
                && out[..r] == Wire(old(Abs()), marker, opus) && out[r..] == old(out[r..])
    {
      if out.Length < RTP_HEADER_SIZE + |opus| {
        return -2;
      }
      hide Wrap32;
      hide PutBe32;
      var seqBytes, tsBytes, ssrcBytes := PutBe16(sequence), PutBe32(timestamp), PutBe32(ssrc);
      out[0] := RTP_VERSION * 64;
      out[1] := (if marker then 128 else 0) + payloadType;
      out[2], out[3] := seqBytes[0], seqBytes[1];
      forall i | 0 <= i < 4 {
        out[4 + i] := tsBytes[i];
      }
      forall i | 0 <= i < 4 {
        out[8 + i] := ssrcBytes[i];
      }
      for i := 0 to |opus|
        invariant out[..RTP_HEADER_SIZE + i] == Header(old(Abs()), marker) + opus[..i]
        invariant out[RTP_HEADER_SIZE + |opus|..] == old(out[RTP_HEADER_SIZE + |opus|..])
        invariant Abs() == old(Abs())
      {
        out[RTP_HEADER_SIZE + i] := opus[i];
      }
      sequence := (sequence + 1) % 65536;
      timestamp := Wrap32(timestamp + TIMESTAMP_INCREMENT);
      r := RTP_HEADER_SIZE + |opus|;
      assert opus[..|opus|] == opus;
    }
  }
}
