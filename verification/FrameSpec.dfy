/** The control protocol's wire format: a four-byte big-endian length, at most 16384, followed
    by that many payload bytes. Both decoders of the repository are proved against it. */
module FrameSpec {
  import opened Bytes
  import opened Seqs

  const PREFIX := 4
  const MAX_PAYLOAD := 16384

  function Encode(payload: seq<byte>): seq<byte>
    requires |payload| <= MAX_PAYLOAD
  {
    PutBe32(|payload|) + payload
  }

  ghost predicate Sendable(payloads: seq<seq<byte>>) {
    forall i :: 0 <= i < |payloads| ==> |payloads[i]| <= 16384
  }

  function EncodeAll(payloads: seq<seq<byte>>): seq<byte>
    requires Sendable(payloads)
  {
    if payloads == [] then [] else Encode(payloads[0]) + EncodeAll(payloads[1..])
  }

  /** What the front of a byte string holds. */
  datatype Front = NeedMore | Oversize | Frame(len: nat)

  function Next(b: seq<byte>): (f: Front)
    ensures f.Frame? ==> f.len <= MAX_PAYLOAD && PREFIX + f.len <= |b|
  {
    if |b| < PREFIX then NeedMore
    else
      var n := GetBe32(b[..PREFIX]);
      if n > MAX_PAYLOAD then Oversize
      else if |b| < PREFIX + n then NeedMore
      else Frame(n)
  }

  datatype Parsed = Parsed(frames: seq<seq<byte>>, rest: seq<byte>, failed: bool)

  /** Every frame from the front, up to the first incomplete or oversize one. */
  function Parse(b: seq<byte>): Parsed
    decreases |b|
  {
    match Next(b)
    case NeedMore => Parsed([], b, false)
    case Oversize => Parsed([], b, true)
    case Frame(n) =>
      var p := Parse(b[PREFIX + n..]);
      p.(frames := [b[PREFIX..PREFIX + n]] + p.frames)
  }

  /** The front does not change when more bytes follow, unless it was incomplete. */
  lemma NextIsStable(b: seq<byte>, more: seq<byte>)
    requires !Next(b).NeedMore?
    ensures Next(b + more) == Next(b)
  {
    assert (b + more)[..PREFIX] == b[..PREFIX];
  }

  lemma NextOfEncode(payload: seq<byte>, more: seq<byte>)
    requires |payload| <= MAX_PAYLOAD
    ensures Next(Encode(payload) + more) == Frame(|payload|)
    ensures (Encode(payload) + more)[PREFIX..PREFIX + |payload|] == payload
    ensures (Encode(payload) + more)[PREFIX + |payload|..] == more
  {
    Be32RoundTrip(|payload|);
    assert (Encode(payload) + more)[..PREFIX] == PutBe32(|payload|);
  }

  lemma ParseFrame(payload: seq<byte>, more: seq<byte>)
    requires |payload| <= MAX_PAYLOAD
    ensures Parse(Encode(payload) + more) == Parse(more).(frames := [payload] + Parse(more).frames)
  {
    NextOfEncode(payload, more);
  }

  /** A complete frame at the front is the encoding of its payload. */
  lemma FrameIsEncoding(b: seq<byte>)
    requires Next(b).Frame?
    ensures var n := Next(b).len; b == Encode(b[PREFIX..PREFIX + n]) + b[PREFIX + n..]
  {
    var n := Next(b).len;
    Be32Injective(b[..PREFIX]);
    assert b == b[..PREFIX] + b[PREFIX..PREFIX + n] + b[PREFIX + n..];
  }

  /** Parsing may stop anywhere and resume on the remainder. */
  lemma {:induction false} ParseConcat(a: seq<byte>, b: seq<byte>)
    ensures var p := Parse(a);
            if p.failed then Parse(a + b).frames == p.frames && Parse(a + b).failed
            else Parse(a + b) == var q := Parse(p.rest + b); q.(frames := p.frames + q.frames)
    decreases |a|
  {
    match Next(a)
    case NeedMore =>
      var none: seq<seq<byte>> := [];
      assert none + Parse(a + b).frames == Parse(a + b).frames;
    case Oversize => NextIsStable(a, b);
    case Frame(n) =>
      NextIsStable(a, b);
      hide Next;
      var head, tail := a[PREFIX..PREFIX + n], a[PREFIX + n..];
      assert (a + b)[PREFIX + n..] == tail + b && (a + b)[PREFIX..PREFIX + n] == head;
      ParseConcat(tail, b);
      var p := Parse(tail);
      if !p.failed {
        ConcatAssoc([head], p.frames, Parse(p.rest + b).frames);
      }
  }

  /** Parsing inverts encoding: any payloads, followed by anything. */
  lemma {:induction false} ParseOfEncode(payloads: seq<seq<byte>>, more: seq<byte>)
    requires Sendable(payloads)
    ensures Parse(EncodeAll(payloads) + more) == Parse(more).(frames := payloads + Parse(more).frames)
    decreases payloads
  {
    var q := Parse(more);
    if payloads == [] {
      assert [] + more == more && [] + q.frames == q.frames;
    } else {
      hide Encode;
      hide Next;
      var head, tail := payloads[0], payloads[1..];
      ParseOfEncode(tail, more);
      ParseFrame(head, EncodeAll(tail) + more);
      ConcatAssoc(Encode(head), EncodeAll(tail), more);
      ConcatAssoc([head], tail, q.frames);
      assert payloads == [head] + tail;
    }
  }

  lemma EncodeAllCons(head: seq<byte>, tail: seq<seq<byte>>)
    requires |head| <= MAX_PAYLOAD && Sendable(tail)
    ensures Sendable([head] + tail) && EncodeAll([head] + tail) == Encode(head) + EncodeAll(tail)
  {
    assert ([head] + tail)[1..] == tail;
  }

  /** Encoding inverts parsing: no byte is lost or invented, and what remains is a strict
      prefix of one frame, short enough for the fixed decoder, or starts with an oversize
      length. */
  lemma {:induction false} EncodeOfParse(b: seq<byte>)
    ensures var p := Parse(b);
            && Sendable(p.frames) && EncodeAll(p.frames) + p.rest == b
            && Next(p.rest) == (if p.failed then Oversize else NeedMore)
            && (!p.failed ==> |p.rest| < PREFIX + MAX_PAYLOAD)
    decreases |b|
  {
    match Next(b)
    case NeedMore =>
    case Oversize =>
    case Frame(n) =>
      hide Encode;
      hide Next;
      var head, tail := b[PREFIX..PREFIX + n], b[PREFIX + n..];
      var p := Parse(tail);
      EncodeOfParse(tail);
      FrameIsEncoding(b);
      EncodeAllCons(head, p.frames);
      ConcatAssoc(Encode(head), EncodeAll(p.frames), p.rest);
  }

  /** The frames taken so far, and what is still to be parsed. */
  ghost predicate Extracting(all: seq<byte>, frames: seq<seq<byte>>, b: seq<byte>) {
    Parse(all) == Parse(b).(frames := frames + Parse(b).frames)
  }

  lemma ExtractStart(all: seq<byte>)
    ensures Extracting(all, [], all)
  {
    var none: seq<seq<byte>> := [];
    assert none + Parse(all).frames == Parse(all).frames;
  }

  lemma ExtractFrame(all: seq<byte>, frames: seq<seq<byte>>, b: seq<byte>)
    requires Extracting(all, frames, b) && Next(b).Frame?
    ensures var n := Next(b).len; Extracting(all, frames + [b[PREFIX..PREFIX + n]], b[PREFIX + n..])
  {
    var n := Next(b).len;
    ConcatAssoc(frames, [b[PREFIX..PREFIX + n]], Parse(b[PREFIX + n..]).frames);
  }

  lemma ExtractDone(all: seq<byte>, frames: seq<seq<byte>>, b: seq<byte>)
    requires Extracting(all, frames, b) && !Next(b).Frame?
    ensures Parse(all) == Parsed(frames, b, Next(b).Oversize?)
  {
    var none: seq<seq<byte>> := [];
    assert frames + none == frames;
  }

  /** The state of a push after the first `off` bytes of data, no failure yet. */
  ghost predicate Pushing(pending: seq<byte>, data: seq<byte>, off: nat, frames: seq<seq<byte>>, b: seq<byte>)
    requires off <= |data|
  {
    Parse(pending + data[..off]) == Parsed(frames, b, false)
  }

  lemma PushStart(pending: seq<byte>, data: seq<byte>)
    requires Next(pending).NeedMore?
    ensures Pushing(pending, data, 0, [], pending)
  {
    assert pending + data[..0] == pending;
  }

  lemma PushStep(pending: seq<byte>, data: seq<byte>, off: nat, take: nat, frames: seq<seq<byte>>, b: seq<byte>)
    requires off + take <= |data| && Pushing(pending, data, off, frames, b)
    ensures var q := Parse(b + data[off..off + take]);
            && (!q.failed ==> Pushing(pending, data, off + take, frames + q.frames, q.rest))
            && (q.failed ==> Push(Receiving(pending), data) == (Failed, frames + q.frames))
  {
    hide Next;
    hide Parse;
    var before, chunk := pending + data[..off], data[off..off + take];
    var now, later := pending + data[..off + take], data[off + take..];
    assert now == before + chunk;
    ParseConcat(before, chunk);
    var q := Parse(b + chunk);
    assert Parse(now) == q.(frames := frames + q.frames);
    if q.failed {
      ParseConcat(now, later);
      assert pending + data == now + later;
    }
  }

  lemma PushDone(pending: seq<byte>, data: seq<byte>, frames: seq<seq<byte>>, b: seq<byte>)
    requires Pushing(pending, data, |data|, frames, b)
    ensures Push(Receiving(pending), data) == (Receiving(b), frames)
  {
    assert data[..|data|] == data;
  }

  // ---- Chunked decoding ------------------------------------------------------------------

  /** A decoder between pushes: the bytes of the unfinished frame, or the latched failure. */
  datatype Decoder = Receiving(pending: seq<byte>) | Failed

  function Push(d: Decoder, data: seq<byte>): (Decoder, seq<seq<byte>>) {
    match d
    case Failed => (Failed, [])
    case Receiving(pending) =>
      var p := Parse(pending + data);
      (if p.failed then Failed else Receiving(p.rest), p.frames)
  }

  function Feed(d: Decoder, chunks: seq<seq<byte>>): (Decoder, seq<seq<byte>>)
    decreases chunks
  {
    if chunks == [] then (d, [])
    else
      var (d1, f1) := Push(d, chunks[0]);
      var (d2, f2) := Feed(d1, chunks[1..]);
      (d2, f1 + f2)
  }

  function Flatten(chunks: seq<seq<byte>>): seq<byte> {
    if chunks == [] then [] else chunks[0] + Flatten(chunks[1..])
  }

  lemma {:induction false} FeedFailed(chunks: seq<seq<byte>>)
    ensures Feed(Failed, chunks) == (Failed, [])
    decreases chunks
  {
    if chunks != [] {
      FeedFailed(chunks[1..]);
      var none: seq<seq<byte>> := [];
      assert none + none == none;
    }
  }

  /** However the stream is cut, the frames delivered, the failure and the bytes left over are
      those of the concatenated stream. */
  lemma {:induction false} ChunkingIsIrrelevant(pending: seq<byte>, chunks: seq<seq<byte>>)
    requires Next(pending).NeedMore?
    ensures var p := Parse(pending + Flatten(chunks));
            Feed(Receiving(pending), chunks) == (if p.failed then Failed else Receiving(p.rest), p.frames)
    decreases chunks
  {
    if chunks == [] {
      assert pending + [] == pending;
    } else {
      var a, b := pending + chunks[0], Flatten(chunks[1..]);
      assert pending + Flatten(chunks) == a + b;
      ParseConcat(a, b);
      EncodeOfParse(a);
      var p := Parse(a);
      if p.failed {
        FeedFailed(chunks[1..]);
        assert p.frames + [] == p.frames;
      } else {
        ChunkingIsIrrelevant(p.rest, chunks[1..]);
      }
    }
  }

  /** Framing round trip: any payloads within the limit, encoded, concatenated and cut into any
      chunks, come out as exactly those payloads with nothing left over. */
  lemma FramingRoundTrip(payloads: seq<seq<byte>>, chunks: seq<seq<byte>>)
    requires Sendable(payloads) && Flatten(chunks) == EncodeAll(payloads)
    ensures Feed(Receiving([]), chunks) == (Receiving([]), payloads)
  {
    ChunkingIsIrrelevant([], chunks);
    ParseOfEncode(payloads, []);
    assert [] + Flatten(chunks) == EncodeAll(payloads) + [];
    assert payloads + [] == payloads;
  }

  /** An oversize length anywhere is fatal at that frame and hides nothing before it. */
  lemma OversizeIsFatal(payloads: seq<seq<byte>>, n: U32, more: seq<byte>, chunks: seq<seq<byte>>)
    requires Sendable(payloads) && n > 16384
    requires Flatten(chunks) == EncodeAll(payloads) + (PutBe32(n) + more)
    ensures Feed(Receiving([]), chunks) == (Failed, payloads)
  {
    ChunkingIsIrrelevant([], chunks);
    assert [] + Flatten(chunks) == Flatten(chunks);
    ParseOfEncode(payloads, PutBe32(n) + more);
    Be32RoundTrip(n);
    assert (PutBe32(n) + more)[..PREFIX] == PutBe32(n);
    assert payloads + [] == payloads;
  }
}
