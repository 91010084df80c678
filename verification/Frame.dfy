/** Wire frames and the incremental decoder (src/frame.cpp). */
module Frame {
  import opened Prelude
  import opened LittleEndian
  import opened Crc32c

  const MAGIC: u32 := 0x4D524643
  const WIRE_VERSION: u16 := 1
  const HEADER: nat := 24
  const ABSOLUTE_MAX_PAYLOAD: nat := 16 * 1024 * 1024
  const FLAG_LIMIT: u16 := 4

  predicate IsKnownType(t: u16) {
    t == 0 || 10 <= t <= 13 || 30 <= t <= 44 || 80 <= t <= 81 || 100 <= t <= 101 || 120 <= t <= 123
    || 140 <= t <= 141 || 150 <= t <= 153
  }

  datatype Frame = Frame(kind: u16, flags: u16, payload: Bytes)

  datatype Error =
    | TruncatedFrame | Internal | ProtocolViolation | IntegrityFailure | UnsupportedVersion | UnexpectedMessage
    | OversizePayload | InvalidArgument

  // ---- Encoding ----

  /** The sixteen bytes the header checksum covers. */
  function Fields(kind: u16, flags: u16, length: u32): (f: Bytes)
    ensures |f| == 16
  {
    Store32(MAGIC) + Store16(WIRE_VERSION) + Store16(kind) + Store16(flags) + Store16(0) + Store32(length)
  }

  function PayloadSum(payload: Bytes): u32 {
    if payload == [] then 0 else Checksum(payload)
  }

  function Header(f: Frame): (h: Bytes)
    ensures |h| == HEADER
  {
    var fields := Fields(f.kind, f.flags, |f.payload| % U32_LIMIT);
    fields + Store32(Checksum(fields)) + Store32(PayloadSum(f.payload))
  }

  function Encode(f: Frame): (e: Bytes)
    ensures |e| == HEADER + |f.payload|
  {
    Header(f) + f.payload
  }

  predicate Encodable(f: Frame, max: nat) {
    IsKnownType(f.kind) && f.flags < FLAG_LIMIT && |f.payload| <= max <= ABSOLUTE_MAX_PAYLOAD
  }

  /** `encodeFrame`: the bytes, or the first check that refuses. */
  method EncodeFrame(f: Frame, max: nat) returns (bytes: Result<Bytes, Error>)
    ensures bytes.Ok? <==> Encodable(f, max)
    ensures bytes.Ok? ==> bytes.value == Encode(f)
  {
    if !IsKnownType(f.kind) { return Err(InvalidArgument); }
    if max > ABSOLUTE_MAX_PAYLOAD { return Err(InvalidArgument); }
    if |f.payload| > max { return Err(OversizePayload); }
    if f.flags >= FLAG_LIMIT { return Err(InvalidArgument); }
    bytes := Ok(Header(f) + f.payload);
  }

  function EncodeAll(fs: seq<Frame>): Bytes {
    if fs == [] then [] else Encode(fs[0]) + EncodeAll(fs[1..])
  }

  // ---- Decoding ----

  datatype FrameHeader = FrameHeader(kind: u16, flags: u16, length: u32, payloadSum: u32)

  /** `decodeFrameHeader` on the first bytes of `b`. */
  function DecodeHeader(b: Bytes, max: nat): (r: Result<FrameHeader, Error>)
    ensures r.Ok? ==> |b| >= HEADER && r.value.length <= max
  {
    if |b| < HEADER then Err(TruncatedFrame)
    else if max > ABSOLUTE_MAX_PAYLOAD then Err(Internal)
    else if Load32(b[..4]) != MAGIC then Err(ProtocolViolation)
    else if Checksum(b[..16]) != Load32(b[16..20]) then Err(IntegrityFailure)
    else if Load16(b[4..6]) != WIRE_VERSION then Err(UnsupportedVersion)
    else if !IsKnownType(Load16(b[6..8])) then Err(UnexpectedMessage)
    else if Load16(b[8..10]) >= FLAG_LIMIT then Err(ProtocolViolation)
    else if Load16(b[10..12]) != 0 then Err(ProtocolViolation)
    else if Load32(b[12..16]) > max then Err(OversizePayload)
    else if Load32(b[12..16]) == 0 && Load32(b[20..24]) != 0 then Err(ProtocolViolation)
    else Ok(FrameHeader(Load16(b[6..8]), Load16(b[8..10]), Load32(b[12..16]), Load32(b[20..24])))
  }

  datatype Parsed = NeedMore | Bad(error: Error) | Got(frame: Frame)

  /** One turn of the decoder's loop. */
  function Parse(b: Bytes, max: nat): (p: Parsed)
    ensures p.Got? ==> HEADER + |p.frame.payload| <= |b|
    ensures p.NeedMore? ==> |b| < HEADER + max
  {
    if |b| < HEADER then NeedMore
    else
      match DecodeHeader(b[..HEADER], max)
      case Err(e) => Bad(e)
      case Ok(h) =>
        if |b| < HEADER + h.length then NeedMore
        else
          var payload := b[HEADER..HEADER + h.length];
          if payload != [] && Checksum(payload) != h.payloadSum then Bad(IntegrityFailure)
          else Got(Frame(h.kind, h.flags, payload))
  }

  datatype Decoded = Decoded(frames: seq<Frame>, error: Option<Error>, rest: Bytes)

  /** All the frames the bytes begin with, and what is left. */
  function DecodeAll(b: Bytes, max: nat): (d: Decoded)
    ensures d.error.None? ==> |d.rest| < HEADER + max
    decreases |b|
  {
    match Parse(b, max)
    case NeedMore => Decoded([], None, b)
    case Bad(e) => Decoded([], Some(e), b)
    case Got(f) =>
      var later := DecodeAll(b[HEADER + |f.payload|..], max);
      later.(frames := [f] + later.frames)
  }

  lemma Unrolled(b: Bytes, max: nat)
    ensures match Parse(b, max)
            case NeedMore => DecodeAll(b, max) == Decoded([], None, b) && |b| < HEADER + max
            case Bad(e) => DecodeAll(b, max) == Decoded([], Some(e), b)
            case Got(f) =>
              HEADER + |f.payload| <= |b| &&
              var later := DecodeAll(b[HEADER + |f.payload|..], max);
              DecodeAll(b, max) == later.(frames := [f] + later.frames)
  {
  }

  // ---- More bytes change nothing already decided ----

  lemma ParseStable(a: Bytes, b: Bytes, max: nat)
    requires !Parse(a, max).NeedMore?
    ensures Parse(a + b, max) == Parse(a, max)
  {
    hide DecodeHeader, Checksum;
    assert (a + b)[..HEADER] == a[..HEADER];
    match DecodeHeader(a[..HEADER], max)
    case Err(_) =>
    case Ok(h) => assert (a + b)[HEADER..HEADER + h.length] == a[HEADER..HEADER + h.length];
  }

  /** What a later feed sees: after a successful decode the rest takes the place of everything before it, and after a
      failure nothing more is ever delivered. */
  lemma {:induction false} DecodeContinues(a: Bytes, b: Bytes, max: nat)
    ensures var first := DecodeAll(a, max);
            if first.error.None? then
              var second := DecodeAll(first.rest + b, max);
              DecodeAll(a + b, max) == second.(frames := first.frames + second.frames)
            else
              DecodeAll(a + b, max) == Decoded(first.frames, first.error, first.rest + b)
    decreases |a|
  {
    hide Parse;
    match Parse(a, max)
    case NeedMore =>
      var second := DecodeAll(a + b, max);
      assert [] + second.frames == second.frames;
    case Bad(e) => ParseStable(a, b, max);
    case Got(f) =>
      ParseStable(a, b, max);
      ParseFits(a, max);
      var n := HEADER + |f.payload|;
      assert (a + b)[n..] == a[n..] + b;
      DecodeContinues(a[n..], b, max);
      var first := DecodeAll(a[n..], max);
      var second := DecodeAll(first.rest + b, max);
      assert [f] + (first.frames + second.frames) == ([f] + first.frames) + second.frames;
  }

  lemma ParseFits(a: Bytes, max: nat)
    ensures Parse(a, max).Got? ==> HEADER + |Parse(a, max).frame.payload| <= |a|
  {
  }

  function Concat(feeds: seq<Bytes>): Bytes {
    if feeds == [] then [] else Concat(feeds[..|feeds| - 1]) + feeds[|feeds| - 1]
  }

  /** What the decoder has delivered, and holds, after a sequence of feeds; it stops at the first error. */
  function FeedAll(feeds: seq<Bytes>, max: nat): Decoded {
    if feeds == [] then Decoded([], None, [])
    else
      var before := FeedAll(feeds[..|feeds| - 1], max);
      if before.error.Some? then before
      else
        var now := DecodeAll(before.rest + feeds[|feeds| - 1], max);
        now.(frames := before.frames + now.frames)
  }

  /** Framing is independent of chunking: frames and error depend only on the concatenation of the feeds. */
  lemma {:induction false} FeedsAreConcatenation(feeds: seq<Bytes>, max: nat)
    ensures var all := DecodeAll(Concat(feeds), max);
            && FeedAll(feeds, max).frames == all.frames && FeedAll(feeds, max).error == all.error
            && (all.error.None? ==> FeedAll(feeds, max).rest == all.rest)
    decreases |feeds|
  {
    hide DecodeAll;
    if feeds == [] {
      NothingDecodes(max);
    } else {
      FeedsAreConcatenation(feeds[..|feeds| - 1], max);
      DecodeContinues(Concat(feeds[..|feeds| - 1]), feeds[|feeds| - 1], max);
    }
  }

  lemma NothingDecodes(max: nat)
    ensures DecodeAll([], max) == Decoded([], None, [])
  {
  }

  // ---- What was encoded is what is decoded ----

  lemma EncodedFields(f: Frame, rest: Bytes)
    ensures var b := Encode(f) + rest;
            var fields := Fields(f.kind, f.flags, |f.payload| % U32_LIMIT);
            && b[..HEADER] == Header(f) && b[HEADER..HEADER + |f.payload|] == f.payload
            && b[..16] == fields && b[16..20] == Store32(Checksum(fields)) && b[20..24] == Store32(PayloadSum(f.payload))
  {
    hide Store32, Checksum, Fields, PayloadSum;
    var b := Encode(f) + rest;
    assert b[..HEADER] == Header(f);
    assert b[..HEADER][..16] == b[..16] && b[..HEADER][16..20] == b[16..20] && b[..HEADER][20..24] == b[20..24];
  }

  lemma FieldsLayout(kind: u16, flags: u16, length: u32)
    ensures var f := Fields(kind, flags, length);
            && f[..4] == Store32(MAGIC) && f[4..6] == Store16(WIRE_VERSION) && f[6..8] == Store16(kind)
            && f[8..10] == Store16(flags) && f[10..12] == Store16(0) && f[12..16] == Store32(length)
  {
    hide Store16, Store32;
  }

  lemma HeaderDecodes(f: Frame, max: nat)
    requires Encodable(f, max)
    ensures DecodeHeader(Header(f), max) == Ok(FrameHeader(f.kind, f.flags, |f.payload|, PayloadSum(f.payload)))
  {
    hide Store16, Store32, Load16, Load32, Checksum, Fields, PayloadSum, IsKnownType;
    var h := Header(f);
    var fields := Fields(f.kind, f.flags, |f.payload|);
    assert h[..16] == fields && h[16..20] == Store32(Checksum(fields)) && h[20..24] == Store32(PayloadSum(f.payload));
    FieldsLayout(f.kind, f.flags, |f.payload|);
    assert h[..4] == fields[..4] && h[4..6] == fields[4..6] && h[6..8] == fields[6..8];
    assert h[8..10] == fields[8..10] && h[10..12] == fields[10..12] && h[12..16] == fields[12..16];
    RoundTrip32(MAGIC);
    RoundTrip16(WIRE_VERSION);
    RoundTrip16(f.kind);
    RoundTrip16(f.flags);
    RoundTrip16(0);
    RoundTrip32(|f.payload|);
    RoundTrip32(Checksum(fields));
    RoundTrip32(PayloadSum(f.payload));
    EmptyPayload(f.payload);
  }

  lemma EmptyPayload(payload: Bytes)
    ensures payload == [] ==> PayloadSum(payload) == 0
    ensures payload != [] ==> PayloadSum(payload) == Checksum(payload)
  {
    hide Checksum;
  }

  lemma ParseEncoded(f: Frame, rest: Bytes, max: nat)
    requires Encodable(f, max)
    ensures Parse(Encode(f) + rest, max) == Got(f)
  {
    hide DecodeHeader, Header, Checksum, Encode, PayloadSum, IsKnownType;
    EncodedFields(f, rest);
    HeaderDecodes(f, max);
    EmptyPayload(f.payload);
  }

  lemma {:induction false} DecodeEncoded(fs: seq<Frame>, rest: Bytes, max: nat)
    requires forall f :: f in fs ==> Encodable(f, max)
    ensures var later := DecodeAll(rest, max);
            DecodeAll(EncodeAll(fs) + rest, max) == later.(frames := fs + later.frames)
    decreases |fs|
  {
    hide Parse, Encode, Encodable, DecodeAll;
    var later := DecodeAll(rest, max);
    if fs == [] {
      assert EncodeAll(fs) + rest == rest && [] + later.frames == later.frames;
    } else {
      var f := fs[0];
      ParseEncoded(f, EncodeAll(fs[1..]) + rest, max);
      Unrolled(Encode(f) + (EncodeAll(fs[1..]) + rest), max);
      assert EncodeAll(fs) + rest == Encode(f) + (EncodeAll(fs[1..]) + rest);
      assert (Encode(f) + (EncodeAll(fs[1..]) + rest))[HEADER + |f.payload|..] == EncodeAll(fs[1..]) + rest;
      DecodeEncoded(fs[1..], rest, max);
      assert [f] + (fs[1..] + later.frames) == fs + later.frames;
    }
  }

  /** However the encoding of a list of frames is cut into feeds, the decoder delivers exactly those frames in order
      and is left with nothing. */
  lemma FramesSurviveChunking(fs: seq<Frame>, feeds: seq<Bytes>, max: nat)
    requires forall f :: f in fs ==> Encodable(f, max)
    requires Concat(feeds) == EncodeAll(fs)
    ensures FeedAll(feeds, max) == Decoded(fs, None, [])
  {
    hide DecodeAll, FeedAll, Encodable;
    FeedsAreConcatenation(feeds, max);
    DecodeEncoded(fs, [], max);
    NothingDecodes(max);
    assert EncodeAll(fs) + [] == EncodeAll(fs) && fs + [] == fs;
  }

  // ---- Damage ----

  lemma OneByteChanged(c: Bytes, d: Bytes, j: nat)
    requires |c| == |d| && j < |c| && c[j] != d[j]
    requires forall i :: 0 <= i < |c| && i != j ==> c[i] == d[i]
    ensures Checksum(c) != Checksum(d)
  {
    hide Checksum;
    assert c == c[..j] + [c[j]] + c[j + 1..];
    assert d == c[..j] + [d[j]] + c[j + 1..];
    BurstDetected(c[..j], [c[j]], [d[j]], c[j + 1..]);
  }

  /** A header whose first twenty bytes are changed in one place is refused. */
  lemma DamagedHeader(f: Frame, k: nat, x: byte, max: nat)
    requires Encodable(f, max) && k < 20 && x != Header(f)[k]
    ensures DecodeHeader(Header(f)[k := x], max).Err?
  {
    hide Store16, Store32, Load16, Load32, Checksum, Fields, PayloadSum, IsKnownType;
    var h := Header(f);
    var d := h[k := x];
    var fields := Fields(f.kind, f.flags, |f.payload|);
    assert h[..16] == fields && h[16..20] == Store32(Checksum(fields));
    RoundTrip32(Checksum(fields));
    if k < 16 {
      OneByteChanged(h[..16], d[..16], k);
      assert d[16..20] == h[16..20];
    } else {
      assert d[..16] == h[..16] && d[16..20][k - 16] != h[16..20][k - 16];
      Again32(d[16..20]);
    }
  }

  /** The payload checksum is not covered by the header's, but a changed one contradicts the payload. */
  lemma DamagedSum(f: Frame, k: nat, x: byte, max: nat)
    requires Encodable(f, max) && 20 <= k < 24 && x != Header(f)[k]
    ensures match DecodeHeader(Header(f)[k := x], max)
            case Err(_) => true
            case Ok(h) => h.length == |f.payload| != 0 && h.payloadSum != Checksum(f.payload)
  {
    hide Store16, Store32, Load16, Load32, Checksum, Fields, PayloadSum, IsKnownType;
    var h := Header(f);
    var d := h[k := x];
    HeaderDecodes(f, max);
    EmptyPayload(f.payload);
    assert d[..4] == h[..4] && d[4..6] == h[4..6] && d[6..8] == h[6..8] && d[8..10] == h[8..10] && d[10..12] == h[10..12];
    assert d[12..16] == h[12..16] && d[..16] == h[..16] && d[16..20] == h[16..20];
    assert d[20..24][k - 20] != h[20..24][k - 20];
    Again32(d[20..24]);
    Again32(h[20..24]);
  }

  lemma DamagedFrame(f: Frame, k: nat, x: byte, rest: Bytes, max: nat)
    requires Encodable(f, max) && k < |Encode(f)| && x != Encode(f)[k]
    ensures Parse(Encode(f)[k := x] + rest, max).Bad?
  {
    hide DecodeHeader, Header, Checksum, PayloadSum, IsKnownType;
    var d := Encode(f)[k := x];
    var b := d + rest;
    HeaderDecodes(f, max);
    EmptyPayload(f.payload);
    if k < HEADER {
      assert b[..HEADER] == Header(f)[k := x];
      assert b[HEADER..HEADER + |f.payload|] == f.payload;
      if k < 20 { DamagedHeader(f, k, x, max); } else { DamagedSum(f, k, x, max); }
    } else {
      assert b[..HEADER] == Header(f);
      var payload := b[HEADER..HEADER + |f.payload|];
      assert payload == f.payload[k - HEADER := x];
      OneByteChanged(f.payload, payload, k - HEADER);
    }
  }

  /** A frame with exactly one byte changed is never delivered, whatever surrounds it and however the stream is cut:
      the frames before it are, then the decoder fails. */
  lemma DamageIsNeverDelivered(before: seq<Frame>, f: Frame, after: Bytes, k: nat, x: byte, feeds: seq<Bytes>, max: nat)
    requires (forall g :: g in before ==> Encodable(g, max)) && Encodable(f, max)
    requires k < |Encode(f)| && x != Encode(f)[k]
    requires Concat(feeds) == EncodeAll(before) + (Encode(f)[k := x] + after)
    ensures FeedAll(feeds, max).frames == before && FeedAll(feeds, max).error.Some?
  {
    hide FeedAll, Encode, Encodable, Parse;
    FeedsAreConcatenation(feeds, max);
    DecodeEncoded(before, Encode(f)[k := x] + after, max);
    DamagedFrame(f, k, x, after, max);
    assert before + [] == before;
  }

  // ---- The decoder ----

  class FrameDecoder {
    const max: nat
    var buffer: Bytes
    var offset: nat

    predicate Valid()
      reads this
    {
      offset <= |buffer| && max <= ABSOLUTE_MAX_PAYLOAD
    }

    /** The bytes received and not yet consumed. */
    function Pending(): Bytes
      requires Valid()
      reads this
    {
      buffer[offset..]
    }

    constructor (max: nat)
      requires max <= ABSOLUTE_MAX_PAYLOAD
      ensures Valid() && this.max == max && Pending() == []
    {
      this.max := max;
      buffer, offset := [], 0;
    }

    method Compact()
      requires Valid()
      modifies this
      ensures Valid() && Pending() == old(Pending()) && |buffer| <= 2 * |Pending()|
    {
      if offset > 0 && offset == |buffer| {
        buffer, offset := [], 0;
      } else if offset > 0 && offset > |buffer| / 2 {
        buffer, offset := buffer[offset..], 0;
      }
    }

    /** `feed`: everything complete is delivered; what stays buffered is less than one maximal frame. */
    method Feed(data: Bytes) returns (frames: seq<Frame>, error: Option<Error>)
      requires Valid()
      modifies this
      ensures Valid()
      ensures data != [] ==> Decoded(frames, error, Pending()) == DecodeAll(old(Pending()) + data, max)
      ensures data == [] ==> frames == [] && error == None && Pending() == old(Pending())
      ensures error.None? && (data != [] || |old(Pending())| < HEADER + max) ==> |Pending()| < HEADER + max
      ensures |old(Pending())| < HEADER + max && data != [] ==> |buffer| < 2 * (HEADER + max) + |data|
    {
      hide Parse, DecodeAll;
      frames, error := [], None;
      if data == [] { return; }
      Compact();
      ghost var all := Pending() + data;
      assert (buffer + data)[offset..] == all;
      buffer := buffer + data;
      ghost var size := |buffer|;
      var done := false;
      while !done
        invariant Valid() && error.None? && |buffer| == size
        invariant var rest := DecodeAll(Pending(), max);
                  DecodeAll(all, max) == rest.(frames := frames + rest.frames)
        invariant done ==> Parse(Pending(), max).NeedMore?
        decreases |buffer| - offset, !done
      {
        Unrolled(Pending(), max);
        assert frames + [] == frames;
        match Parse(buffer[offset..], max) {
          case NeedMore =>
            done := true;
          case Bad(e) =>
            error := Some(e);
            return;
          case Got(f) =>
            ParseFits(Pending(), max);
            ghost var rest := DecodeAll(Pending()[HEADER + |f.payload|..], max);
            assert buffer[offset..][HEADER + |f.payload|..] == buffer[offset + HEADER + |f.payload|..];
            assert frames + ([f] + rest.frames) == (frames + [f]) + rest.frames;
            frames := frames + [f];
            offset := offset + HEADER + |f.payload|;
        }
      }
      Unrolled(Pending(), max);
      assert frames + [] == frames;
      assert |buffer| - offset <= HEADER + max;
    }

    /** `finish` succeeds exactly when no partial frame is held. */
    method Finish() returns (error: Option<Error>)
      requires Valid()
      ensures error.None? <==> Pending() == []
    {
      error := if |buffer| - offset != 0 then Some(TruncatedFrame) else None;
    }
  }
}
