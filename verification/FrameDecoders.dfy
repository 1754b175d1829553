/** The two frame decoders and the two encoders: client/components/control_protocol/control_frame.c
    works in a fixed buffer, server/internal/control/frame.go in a growing one. */
module FrameDecoders {
  import opened Bytes
  import opened FrameSpec

  const CP_OK := 0
  const CP_ERR_OVERSIZE := -2
  const CP_ERR_NOSPACE := -3

  // ---- Firmware --------------------------------------------------------------------------

  method CpFrameEncode(json: seq<byte>, out: array<byte>) returns (r: int)
    requires |json| < 0x1_0000_0000
    modifies out
    ensures |json| > MAX_PAYLOAD ==> r == CP_ERR_OVERSIZE
    ensures |json| <= MAX_PAYLOAD && out.Length < PREFIX + |json| ==> r == CP_ERR_NOSPACE
    ensures r < 0 ==> out[..] == old(out[..])
    ensures r >= 0 ==> |json| <= MAX_PAYLOAD && r == PREFIX + |json| <= out.Length
                       && out[..r] == Encode(json) && out[r..] == old(out[r..])
  {
    if |json| > MAX_PAYLOAD {
      return CP_ERR_OVERSIZE;
    }
    if out.Length < PREFIX + |json| {
      return CP_ERR_NOSPACE;
    }
    var head := PutBe32(|json|);
    forall i | 0 <= i < PREFIX {
      out[i] := head[i];
    }
    forall i | 0 <= i < |json| {
      out[PREFIX + i] := json[i];
    }
    r := PREFIX + |json|;
    assert out[..r] == head + json;
  }

  class CpDecoder {
    const buf: array<byte>
    var used: nat
    var failed: bool

    /** Between pushes the buffer holds less than one frame, so there is always room. */
    ghost predicate Valid()
      reads this, buf
    {
      && buf.Length == PREFIX + MAX_PAYLOAD && used <= buf.Length
      && (!failed ==> Next(buf[..used]).NeedMore? && used < buf.Length)
    }

    ghost function Abs(): Decoder
      requires Valid()
      reads this, buf
    {
      if failed then Failed else Receiving(buf[..used])
    }

    constructor ()
      ensures Valid() && fresh(buf) && Abs() == Receiving([])
    {
      buf := new byte[PREFIX + MAX_PAYLOAD];
      used, failed := 0, false;
    }

    method Reset()
      requires Valid()
      modifies this
      ensures Valid() && Abs() == Receiving([])
    {
      used, failed := 0, false;
    }

    /** memcpy into the free end of the buffer. */
    method Fill(data: seq<byte>, off: nat, take: nat)
      requires used + take <= buf.Length && off + take <= |data|
      modifies this`used, buf
      ensures used == old(used) + take && buf[..used] == old(buf[..used]) + data[off..off + take]
    {
      forall i | 0 <= i < take {
        buf[used + i] := data[off + i];
      }
      used := used + take;
    }

    /** memmove of the bytes after the first `total` to the front. */
    method Drop(total: nat)
      requires total <= used <= buf.Length
      modifies this`used, buf
      ensures used == old(used) - total && buf[..used] == old(buf[..used])[total..]
    {
      var remaining := used - total;
      forall i | 0 <= i < remaining {
        buf[i] := buf[total + i];
      }
      used := remaining;
    }

    /** The inner loop: deliver every complete frame in the buffer and move the rest to its
        front, or latch on an oversize length. */
    method Extract() returns (frames: seq<seq<byte>>)
      requires buf.Length == PREFIX + MAX_PAYLOAD && used <= buf.Length && !failed
      modifies this, buf
      ensures Valid()
      ensures Parse(old(buf[..used])) == Parsed(frames, buf[..used], failed)
    {
      frames := [];
      ghost var all := buf[..used];
      ExtractStart(all);
      while true
        invariant used <= buf.Length && !failed
        invariant Extracting(all, frames, buf[..used])
        decreases used
      {
        ghost var b := buf[..used];
        if used < PREFIX {
          break;
        }
        assert buf[..PREFIX] == b[..PREFIX];
        var plen := GetBe32(buf[..PREFIX]);
        if plen > MAX_PAYLOAD {
          failed := true;
          break;
        }
        var total := PREFIX + plen;
        if used < total {
          break;
        }
        assert buf[PREFIX..total] == b[PREFIX..total];
        ExtractFrame(all, frames, b);
        frames := frames + [buf[PREFIX..total]];
        Drop(total);
      }
      ExtractDone(all, frames, buf[..used]);
    }

    /** One step of the pure decoder. */
    method Push(data: seq<byte>) returns (rc: int, frames: seq<seq<byte>>)
      requires Valid()
      modifies this, buf
      ensures Valid() && (Abs(), frames) == FrameSpec.Push(old(Abs()), data)
      ensures rc == if failed then CP_ERR_OVERSIZE else CP_OK
    {
      hide Parse;
      hide GetBe32;
      frames := [];
      if failed {
        return CP_ERR_OVERSIZE, [];
      }
      ghost var pending := buf[..used];
      var off := 0;
      PushStart(pending, data);
      while off < |data|
        invariant off <= |data| && Valid() && !failed
        invariant Pushing(pending, data, off, frames, buf[..used])
      {
        var space, take := buf.Length - used, |data| - off;
        if take > space {
          take := space;
        }
        PushStep(pending, data, off, take, frames, buf[..used]);
        Fill(data, off, take);
        off := off + take;
        var more := Extract();
        frames := frames + more;
        if failed {
          return CP_ERR_OVERSIZE, frames;
        }
      }
      PushDone(pending, data, frames, buf[..used]);
      rc := CP_OK;
    }
  }

  // ---- Server ----------------------------------------------------------------------------

  datatype FrameStatus = FrameComplete | FrameNeedMore | FrameError

  class FrameReader {
    var buf: seq<byte>

    /** Between pushes the buffer holds no complete frame. */
    ghost predicate Valid()
      reads this
    {
      !Next(buf).Frame?
    }

    /** There is no latch: the oversize length stays in front and fails every later push. */
    ghost function Abs(): Decoder
      reads this
    {
      if Next(buf).Oversize? then Failed else Receiving(buf)
    }

    constructor ()
      ensures Valid() && Abs() == Receiving([])
    {
      buf := [];
    }

    method NextFrame() returns (payload: seq<byte>, status: FrameStatus)
      modifies this
      ensures match Next(old(buf))
              case NeedMore => status == FrameNeedMore && buf == old(buf)
              case Oversize => status == FrameError && buf == old(buf)
              case Frame(n) => status == FrameComplete
                               && payload == old(buf)[PREFIX..PREFIX + n] && buf == old(buf)[PREFIX + n..]
    {
      if |buf| < 4 {
        return [], FrameNeedMore;
      }
      var n := GetBe32(buf[..4]);
      if n > MAX_PAYLOAD {
        return [], FrameError;
      }
      var need := 4 + n;
      if |buf| < need {
        return [], FrameNeedMore;
      }
      payload, status := buf[4..need], FrameComplete;
      buf := buf[need..];
    }

    method Push(data: seq<byte>) returns (frames: seq<seq<byte>>, needMore: bool, err: bool)
      requires Valid()
      modifies this
      ensures Valid() && (Abs(), frames) == FrameSpec.Push(old(Abs()), data)
      ensures err <==> Abs().Failed?
      ensures needMore <==> Abs().Receiving? && Abs().pending != []
    {
      frames := [];
      if Next(buf).Oversize? {
        NextIsStable(buf, data);
      }
      buf := buf + data;
      ghost var all := buf;
      ExtractStart(all);
      while true
        invariant Extracting(all, frames, buf)
        decreases |buf|
      {
        ghost var b := buf;
        var payload, status := NextFrame();
        if Next(b).Frame? {
          ExtractFrame(all, frames, b);
        } else {
          ExtractDone(all, frames, b);
        }
        if status == FrameError {
          return frames, false, true;
        }
        if status != FrameComplete {
          break;
        }
        frames := frames + [payload];
      }
      return frames, |buf| > 0, false;
    }
  }

  /** A byte sink whose writes may fail part way. */
  class Sink {
    var written: seq<byte>

    method Write(p: seq<byte>) returns (ok: bool)
      modifies this
      ensures ok ==> written == old(written) + p
      ensures !ok ==> exists n :: 0 <= n <= |p| && written == old(written) + p[..n]
    {
      var n: nat :| n <= |p|;
      written := written + p[..n];
      ok := n == |p|;
    }
  }

  datatype WriteResult = Written | TooLarge | WriteFailed

  method WriteFrame(w: Sink, payload: seq<byte>) returns (r: WriteResult)
    modifies w
    ensures r == TooLarge <==> |payload| > MAX_PAYLOAD
    ensures r == TooLarge ==> w.written == old(w.written)
    ensures r == Written ==> w.written == old(w.written) + Encode(payload)
    ensures r == WriteFailed ==>
              exists n :: 0 <= n <= |Encode(payload)| && w.written == old(w.written) + Encode(payload)[..n]
  {
    if |payload| > MAX_PAYLOAD {
      return TooLarge;
    }
    var hdr := PutBe32(|payload|);
    var ok := w.Write(hdr);
    if !ok {
      ghost var n :| 0 <= n <= |hdr| && w.written == old(w.written) + hdr[..n];
      assert hdr[..n] == Encode(payload)[..n];
      return WriteFailed;
    }
    ok := w.Write(payload);
    if !ok {
      ghost var n :| 0 <= n <= |payload| && w.written == old(w.written) + hdr + payload[..n];
      assert hdr + payload[..n] == Encode(payload)[..|hdr| + n];
      return WriteFailed;
    }
    assert hdr + payload == Encode(payload);
    return Written;
  }
}
