/** Sealing and opening whole batches: `encode_batch` of both programs and `decode_batch`. */
module Codec {
  import opened Octets
  import opened Wrappers
  import opened ByteArrays
  import opened Frames
  import opened Encoder
  import A = Adaptive

  const RAW := 0
  const FLATE := 1
  const ZSTD := 2
  const NONCE_LEN := 12
  const TAG_LEN := 16

  /** The library calls: AES-GCM, Zstandard, raw inflate, Base64 and lossy UTF-8 decoding. */
  datatype Primitives = Primitives(
    encrypt: (Bytes, Bytes) -> Bytes,
    decrypt: (Bytes, Bytes) -> Option<Bytes>,
    compress: Bytes -> Bytes,
    decompress: Bytes -> Option<Bytes>,
    inflate: Bytes -> Option<Bytes>,
    b64encode: Bytes -> Bytes,
    b64decode: Bytes -> Option<Bytes>,
    lossy: Bytes -> string)

  /** What is assumed of them: each pair is inverse, and their outputs are not too short. */
  ghost predicate Lawful(p: Primitives) {
    && (forall nonce, x :: |p.encrypt(nonce, x)| == |x| + TAG_LEN)
    && (forall nonce, x :: p.decrypt(nonce, p.encrypt(nonce, x)) == Some(x))
    && (forall x :: p.decompress(p.compress(x)) == Some(x))
    && (forall x :: p.b64decode(p.b64encode(x)) == Some(x))
    && (forall x :: |p.b64encode(x)| >= |x|)
  }

  // ----- encoding -----

  function EncodeOf(p: Primitives, plain: Bytes): A.Encode
    requires |plain| > 0
  {
    A.Encode(|plain|, 1 + |p.compress(plain[1..])|)
  }

  /** The bytes that are sealed: the packed body when it was tried and helped, else the raw one. */
  function SealInput(p: Primitives, st: A.Skip, plain: Bytes): Bytes
    requires |plain| > 0
  {
    var e := EncodeOf(p, plain);
    if A.Attempts(st, e) && e.Shrinks() then [ZSTD] + p.compress(plain[1..]) else [RAW] + plain[1..]
  }

  function Wrap(p: Primitives, nonce: Bytes, sealInput: Bytes): Bytes {
    p.b64encode(nonce + p.encrypt(nonce, sealInput))
  }

  /** What goes over the wire for a batch. */
  function WireForm(p: Primitives, st: A.Skip, nonce: Bytes, cid: Bytes, fs: seq<Frame>): Bytes
    requires AllPackable(fs)
  {
    Wrap(p, nonce, SealInput(p, st, Plaintext(cid, fs)))
  }

  /**
   * What is sealed, exactly.  A body of at least 512 bytes whose packed form is shorter, when skipping
   * is off or the count is a multiple of ten, goes packed behind a flags byte of 2; every other goes
   * as it is behind a flags byte of 0.
   */
  lemma SealInputIs(p: Primitives, st: A.Skip, plain: Bytes)
    requires |plain| > 0
    ensures var x, body := SealInput(p, st, plain), plain[1..];
            if |plain| - 1 >= 512 && (!st.active || st.counter % 10 == 0) && 1 + |p.compress(body)| < |plain| then
              |x| == 1 + |p.compress(body)| && x[0] == 2 && x[1..] == p.compress(body)
            else |x| == |plain| && x[0] == 0 && x[1..] == body
  {
  }

  /** What goes over the wire: Base64 of the nonce and the sealed input behind it. */
  lemma WireIs(p: Primitives, st: A.Skip, nonce: Bytes, cid: Bytes, fs: seq<Frame>)
    requires Lawful(p) && |nonce| == 12 && AllPackable(fs) && |cid| == 16
    ensures var envelope := p.b64decode(WireForm(p, st, nonce, cid, fs));
            && envelope.Some? && |envelope.value| >= 28
            && envelope.value[..12] == nonce
            && p.decrypt(nonce, envelope.value[12..]) == Some(SealInput(p, st, Plaintext(cid, fs)))
  {
    hide SealInput;
    var x := SealInput(p, st, Plaintext(cid, fs));
    var e := nonce + p.encrypt(nonce, x);
    assert p.b64decode(p.b64encode(e)) == Some(e);
    assert e[..12] == nonce && e[12..] == p.encrypt(nonce, x);
    assert |p.encrypt(nonce, x)| == |x| + TAG_LEN;
    assert p.decrypt(nonce, p.encrypt(nonce, x)) == Some(x);
  }

  /** Sealing never sees more bytes than the raw plaintext has. */
  lemma SealInputSize(p: Primitives, st: A.Skip, plain: Bytes)
    requires |plain| > 0
    ensures |SealInput(p, st, plain)| <= |plain|
    ensures SealInput(p, st, plain) != [RAW] + plain[1..] ==> |SealInput(p, st, plain)| < |plain|
  {
  }

  /** The module globals of the adaptive-compression state, with the two encoders over them. */
  class BatchEncoder {
    var skipCounter: nat
    var skipActive: bool

    constructor ()
      ensures State() == A.INITIAL
    {
      skipCounter, skipActive := 0, false;
    }

    function State(): A.Skip
      reads this
    {
      A.Skip(skipCounter, skipActive)
    }

    /** The client copies the buffer and rebuilds the plaintext behind a fresh flags byte. */
    method ClientSealInput(p: Primitives, buf: ByteArray) returns (sealInput: Bytes)
      requires |buf.data| > 0
      modifies this
      ensures sealInput == SealInput(p, old(State()), buf.data)
      ensures State() == A.Advance(old(State()), EncodeOf(p, buf.data))
    {
      var plaintext := buf.data;
      var rawSize := |plaintext|;
      var shouldCompress := rawSize - 1 >= A.COMPRESS_MIN_SIZE
                            && (!skipActive || skipCounter % A.RECHECK_AFTER == 0);
      if shouldCompress {
        var compressedFull := [ZSTD] + p.compress(plaintext[1..]);
        if |compressedFull| < rawSize {
          sealInput := compressedFull;
          skipActive := false;
          skipCounter := 0;
        } else {
          sealInput := [RAW] + plaintext[1..];
          skipCounter := skipCounter + 1;
          if skipCounter >= A.SKIP_AFTER {
            skipActive := true;
          }
        }
      } else {
        if skipActive {
          skipCounter := skipCounter + 1;
        }
        sealInput := [RAW] + plaintext[1..];
      }
    }

    /** The server overwrites the flags byte in place and seals the buffer itself. */
    method ServerSealInput(p: Primitives, buf: ByteArray) returns (sealInput: Bytes)
      requires |buf.data| > 0
      modifies this, buf
      ensures sealInput == SealInput(p, old(State()), old(buf.data))
      ensures State() == A.Advance(old(State()), EncodeOf(p, old(buf.data)))
    {
      var rawSize := |buf.data|;
      var shouldCompress := rawSize - 1 >= A.COMPRESS_MIN_SIZE
                            && (!skipActive || skipCounter % A.RECHECK_AFTER == 0);
      if shouldCompress {
        var compressed := p.compress(buf.data[1..]);
        var compressedFull := [ZSTD] + compressed;
        if |compressedFull| < rawSize {
          var _ := buf.SetByte(0, ZSTD);
          sealInput := compressedFull;
          skipActive := false;
          skipCounter := 0;
        } else {
          var _ := buf.SetByte(0, RAW);
          sealInput := buf.data;
          skipCounter := skipCounter + 1;
          if skipCounter >= A.SKIP_AFTER {
            skipActive := true;
          }
        }
      } else {
        if skipActive {
          skipCounter := skipCounter + 1;
        }
        var _ := buf.SetByte(0, RAW);
        sealInput := buf.data;
      }
    }

    /** The client's `encode_batch`; None is an exception, which leaves the globals alone. */
    method ClientEncode(p: Primitives, nonce: Bytes, cid: Bytes, fs: seq<Frame>) returns (r: Option<Bytes>)
      requires forall i | 0 <= i < |fs| :: |fs[i].sid| == SESSION_ID_LEN
      modifies this
      ensures r.Some? <==> Encodable(cid, fs)
      ensures r.Some? ==> r.value == WireForm(p, old(State()), nonce, cid, fs)
      ensures State() == if r.Some? then A.Advance(old(State()), EncodeOf(p, Plaintext(cid, fs))) else old(State())
    {
      var ok, buf := EncodePlaintext(cid, fs);
      if !ok {
        return None;
      }
      var sealInput := ClientSealInput(p, buf);
      r := Some(p.b64encode(nonce + p.encrypt(nonce, sealInput)));
    }

    /** The server's `encode_batch`. */
    method ServerEncode(p: Primitives, nonce: Bytes, cid: Bytes, fs: seq<Frame>) returns (r: Option<Bytes>)
      requires forall i | 0 <= i < |fs| :: |fs[i].sid| == SESSION_ID_LEN
      modifies this
      ensures r.Some? <==> Encodable(cid, fs)
      ensures r.Some? ==> r.value == WireForm(p, old(State()), nonce, cid, fs)
      ensures State() == if r.Some? then A.Advance(old(State()), EncodeOf(p, Plaintext(cid, fs))) else old(State())
    {
      var ok, buf := EncodePlaintext(cid, fs);
      if !ok {
        return None;
      }
      var sealInput := ServerSealInput(p, buf);
      r := Some(p.b64encode(nonce + p.encrypt(nonce, sealInput)));
    }
  }

  // ----- decoding -----

  type Decoded = Result<(Bytes, seq<Frame>), DecodeError>

  function Open(p: Primitives, envelope: Bytes): Result<Bytes, DecodeError> {
    if |envelope| < NONCE_LEN + TAG_LEN then Err(BadEnvelope)
    else
      match p.decrypt(envelope[..NONCE_LEN], envelope[NONCE_LEN..])
      case None => Err(BadEnvelope)
      case Some(plain) => Ok(plain)
  }

  /** Undo the compression the flags byte names. */
  function Unpack(p: Primitives, raw: Bytes): Result<Bytes, DecodeError> {
    if raw == [] then Err(EmptyPlaintext)
    else if raw[0] == RAW then Ok(raw[1..])
    else if raw[0] == FLATE || raw[0] == ZSTD then
      match (if raw[0] == FLATE then p.inflate(raw[1..]) else p.decompress(raw[1..]))
      case None => Err(BadCompression)
      case Some(plain) => Ok(plain)
    else Err(UnknownFlagsByte)
  }

  function ReadBody(lossy: Bytes -> string, plain: Bytes): Decoded {
    if |plain| < CLIENT_ID_LEN + 2 then Err(ShortBatchHeader)
    else
      var (fs, _) :- Walk(lossy, plain[18..], FromBigEndian(plain[16..18]));
      Ok((plain[..16], fs))
  }

  function DecodeOf(p: Primitives, body: Bytes): Decoded {
    if body == [] then Ok((Zeros(CLIENT_ID_LEN), []))
    else
      match p.b64decode(body)
      case None => Err(BadBase64)
      case Some(envelope) =>
        var raw :- Open(p, envelope);
        var plain :- Unpack(p, raw);
        ReadBody(p.lossy, plain)
  }

  /** Moves the offset of a step that starts at off to where it ends in data. */
  function Shift<T>(off: nat, r: Result<(T, nat), DecodeError>): Result<(T, nat), DecodeError> {
    match r
    case Err(e) => Err(e)
    case Ok((x, n)) => Ok((x, off + n))
  }

  /** One turn of the frame loop, at the offset the loop has reached. */
  method ReadFrameAt(lossy: Bytes -> string, data: Bytes, start: nat) returns (r: Result<(Frame, nat), DecodeError>)
    ensures r == Shift(start, WalkStep(lossy, Skip(data, start)))
  {
    hide WalkFrame;
    var off := start;
    if |data| < off + 4 {
      return Err(ShortFrameLength);
    }
    var flen := FromBigEndian(data[off..off + 4]);
    SubSlice(data, start, 0, 4);
    off := off + 4;
    if |data| < off + flen {
      return Err(ShortFrameBody);
    }
    assert Skip(data, start)[4..] == data[off..];
    r := ReadInlineAt(lossy, data, off);
  }

  /** The inline parser at its absolute offset. */
  method ReadInlineAt(lossy: Bytes -> string, data: Bytes, off: nat) returns (r: Result<(Frame, nat), DecodeError>)
    requires off <= |data|
    ensures r == Shift(off, WalkFrame(lossy, data[off..]))
  {
    hide FromBigEndian, Slice, Text;
    if |data| < off + 24 {
      return Err(StructError);
    }
    var sid := data[off..off + 16];
    SubSlice(data, off, 0, 16);
    var seqno := FromBigEndian(data[off + 16..off + 24]);
    SubSlice(data, off, 16, 24);
    if |data| <= off + 25 {
      return Err(IndexError);
    }
    var flags := data[off + 24];
    var tlen: int := data[off + 25];
    var targetOff := off + 26;
    var target := Text(lossy, Slice(data, targetOff, targetOff + tlen));
    SliceShift(data, off, 26, 26 + tlen);
    var plenOff := targetOff + tlen;
    if |data| < plenOff + 4 {
      return Err(StructError);
    }
    var plen := FromBigEndian(data[plenOff..plenOff + 4]);
    SubSlice(data, off, 26 + tlen, 30 + tlen);
    var payloadOff := plenOff + 4;
    SliceShift(data, off, 30 + tlen, 30 + tlen + plen);
    r := Ok((Frame(sid, seqno, flags, target, Slice(data, payloadOff, payloadOff + plen)), payloadOff + plen));
  }

  /** Frames already read, put in front of what the rest of the walk gives. */
  function Prepend(frames: seq<Frame>, n: nat, r: Result<(seq<Frame>, nat), DecodeError>)
    : Result<(seq<Frame>, nat), DecodeError>
  {
    match r
    case Err(e) => Err(e)
    case Ok((fs, m)) => Ok((frames + fs, n + m))
  }

  /** The frame loop of `decode_batch`, which moves one offset through the whole plaintext. */
  method ReadFrames(lossy: Bytes -> string, data: Bytes, start: nat, count: nat)
    returns (r: Result<(seq<Frame>, nat), DecodeError>)
    requires start <= |data|
    ensures r == Walk(lossy, data[start..], count)
  {
    hide WalkStep, Walk, Prepend, Skip;
    var frames: seq<Frame> := [];
    var off := start;
    ghost var whole := Walk(lossy, data[start..], count);
    WalkStart(lossy, data, start, count);
    for i := 0 to count
      invariant off >= start
      invariant whole == Prepend(frames, off - start, Walk(lossy, Skip(data, off), count - i))
    {
      var step := ReadFrameAt(lossy, data, off);
      WalkTurn(lossy, data, off, count - i, frames, off - start);
      if step.Err? {
        return Err(step.error);
      }
      frames := frames + [step.value.0];
      off := step.value.1;
    }
    WalkEnd(lossy, Skip(data, off), frames, off - start);
    r := Ok((frames, off - start));
  }

  lemma WalkStart(lossy: Bytes -> string, data: Bytes, start: nat, count: nat)
    requires start <= |data|
    ensures Walk(lossy, data[start..], count) == Prepend([], 0, Walk(lossy, Skip(data, start), count))
  {
    var whole := Walk(lossy, data[start..], count);
    assert whole.Ok? ==> [] + whole.value.0 == whole.value.0;
  }

  /** One turn of the loop moves one frame from the rest of the walk to the frames already read. */
  lemma WalkTurn(lossy: Bytes -> string, data: Bytes, off: nat, count: nat, frames: seq<Frame>, n: nat)
    requires count > 0
    ensures var step, walk := WalkStep(lossy, Skip(data, off)), Walk(lossy, Skip(data, off), count);
            if step.Err? then Prepend(frames, n, walk) == Err(step.error)
            else Prepend(frames, n, walk)
                 == Prepend(frames + [step.value.0], n + step.value.1,
                            Walk(lossy, Skip(data, off + step.value.1), count - 1))
  {
    hide WalkStep;
    var step := WalkStep(lossy, Skip(data, off));
    if step.Ok? {
      SkipSkip(data, off, step.value.1);
      var rest := Walk(lossy, Skip(data, off + step.value.1), count - 1);
      assert rest.Ok? ==> frames + ([step.value.0] + rest.value.0) == frames + [step.value.0] + rest.value.0;
    }
  }

  lemma WalkEnd(lossy: Bytes -> string, d: Bytes, frames: seq<Frame>, n: nat)
    ensures Prepend(frames, n, Walk(lossy, d, 0)) == Ok((frames, n))
  {
    assert frames + [] == frames;
  }

  lemma SkipSkip(d: Bytes, a: nat, b: nat)
    ensures Skip(Skip(d, a), b) == Skip(d, a + b)
  {
  }

  lemma SliceShift(s: Bytes, off: nat, lo: nat, hi: nat)
    requires off <= |s| && lo <= hi
    ensures Slice(s[off..], lo, hi) == Slice(s, off + lo, off + hi)
  {
  }

  /** `decode_batch`, the same in both programs. */
  method DecodeBatch(p: Primitives, body: Bytes) returns (r: Decoded)
    ensures r == DecodeOf(p, body)
  {
    if |body| == 0 {
      return Ok((Zeros(CLIENT_ID_LEN), []));
    }
    var sealed := p.b64decode(body);
    if sealed.None? {
      return Err(BadBase64);
    }
    var raw :- Open(p, sealed.value);
    var plain :- Unpack(p, raw);
    if |plain| < CLIENT_ID_LEN + 2 {
      return Err(ShortBatchHeader);
    }
    var count := FromBigEndian(plain[16..18]);
    var frames :- ReadFrames(p.lossy, plain, 18, count);
    r := Ok((plain[..16], frames.0));
  }

  // ----- round trip -----

  lemma BodyLayout(cid: Bytes, fs: seq<Frame>)
    requires Encodable(cid, fs)
    ensures var body := Plaintext(cid, fs)[1..];
            && |body| >= 18
            && body[..16] == cid
            && body[16..18] == BigEndian(|fs|, 2)
            && body[18..] == RecordBytes(fs) + []
  {
    PlaintextLayout(cid, fs);
    hide RecordBytes, BigEndian, Plaintext, Encodable, WireSize;
    var d := Plaintext(cid, fs);
    SubSlice(d, 1, 0, 16);
    SubSlice(d, 1, 16, 18);
    assert d[1..][18..] == d[19..];
    assert RecordBytes(fs) + [] == RecordBytes(fs);
  }

  lemma ReadsPlaintext(lossy: Bytes -> string, cid: Bytes, fs: seq<Frame>)
    requires Encodable(cid, fs)
    ensures ReadBody(lossy, Plaintext(cid, fs)[1..]) == Ok((cid, MaskAll(fs)))
  {
    BodyLayout(cid, fs);
    BigEndianRoundTrip(|fs|, 2);
    WalkRoundTrip(lossy, fs, []);
    hide Plaintext, Walk, RecordBytes, AllPackable, FromBigEndian;
  }

  lemma UnpacksSealInput(p: Primitives, st: A.Skip, plain: Bytes)
    requires Lawful(p) && |plain| > 0
    ensures Unpack(p, SealInput(p, st, plain)) == Ok(plain[1..])
  {
  }

  /** What the first byte behind the seal says, and how short anything may be. */
  lemma UnsealingCases(p: Primitives, k: byte, x: Bytes)
    ensures Unpack(p, []) == Err(EmptyPlaintext)
    ensures k == 0 ==> Unpack(p, [k] + x) == Ok(x)
    ensures k == 1 ==> Unpack(p, [k] + x) == match p.inflate(x) case Some(y) => Ok(y) case None => Err(BadCompression)
    ensures k == 2 ==>
              Unpack(p, [k] + x) == match p.decompress(x) case Some(y) => Ok(y) case None => Err(BadCompression)
    ensures k > 2 ==> Unpack(p, [k] + x) == Err(UnknownFlagsByte)
    ensures |x| < 28 ==> Open(p, x) == Err(BadEnvelope)
    ensures |x| >= 28 ==>
              Open(p, x) == match p.decrypt(x[..12], x[12..]) case Some(y) => Ok(y) case None => Err(BadEnvelope)
    ensures |x| < 18 ==> ReadBody(p.lossy, x) == Err(ShortBatchHeader)
    ensures DecodeOf(p, []) == Ok((Zeros(16), []))
    ensures x != [] && p.b64decode(x) == None ==> DecodeOf(p, x) == Err(BadBase64)
  {
    assert ([k] + x)[1..] == x;
  }

  lemma UnwrapsEnvelope(p: Primitives, nonce: Bytes, sealInput: Bytes)
    requires Lawful(p) && |nonce| == NONCE_LEN
    ensures var body := Wrap(p, nonce, sealInput);
            && body != []
            && p.b64decode(body).Some?
            && Open(p, p.b64decode(body).value) == Ok(sealInput)
  {
    var envelope := nonce + p.encrypt(nonce, sealInput);
    assert envelope[..NONCE_LEN] == nonce && envelope[NONCE_LEN..] == p.encrypt(nonce, sealInput);
    assert |p.b64encode(envelope)| >= |envelope|;
    assert p.b64decode(p.b64encode(envelope)) == Some(envelope);
    assert p.decrypt(nonce, p.encrypt(nonce, sealInput)) == Some(sealInput);
  }

  /** Whatever the adaptive state, either program decodes what either program encoded. */
  lemma BatchRoundTrip(p: Primitives, st: A.Skip, nonce: Bytes, cid: Bytes, fs: seq<Frame>)
    requires Lawful(p) && |nonce| == NONCE_LEN
    requires Encodable(cid, fs)
    ensures DecodeOf(p, WireForm(p, st, nonce, cid, fs)) == Ok((cid, MaskAll(fs)))
  {
    hide Lawful, SealInput, Wrap, Open, Unpack, ReadBody;
    var plain := Plaintext(cid, fs);
    UnwrapsEnvelope(p, nonce, SealInput(p, st, plain));
    UnpacksSealInput(p, st, plain);
    ReadsPlaintext(p.lossy, cid, fs);
  }

  // ----- one batch after the other -----

  datatype Batch = Batch(nonce: Bytes, cid: Bytes, frames: seq<Frame>)

  /** What encoding the batches in turn gives, and the adaptive state after it. */
  function EncodeAll(p: Primitives, st: A.Skip, bs: seq<Batch>): (seq<Option<Bytes>>, A.Skip) {
    if bs == [] then ([], st)
    else
      var (outs, s), b := EncodeAll(p, st, bs[..|bs| - 1]), bs[|bs| - 1];
      if Encodable(b.cid, b.frames) then
        (outs + [Some(WireForm(p, s, b.nonce, b.cid, b.frames))],
         A.Advance(s, EncodeOf(p, Plaintext(b.cid, b.frames))))
      else (outs + [None], s)
  }

  /** The encodes that succeed, as the adaptive state sees them. */
  function Encodes(p: Primitives, bs: seq<Batch>): seq<A.Encode> {
    if bs == [] then []
    else
      var es, b := Encodes(p, bs[..|bs| - 1]), bs[|bs| - 1];
      if Encodable(b.cid, b.frames) then es + [EncodeOf(p, Plaintext(b.cid, b.frames))] else es
  }

  /** Both encoders over any sequence of batches: the same bodies, and the same globals after it. */
  method EncodeOnBothSides(p: Primitives, client: BatchEncoder, server: BatchEncoder, bs: seq<Batch>)
    returns (sent: seq<Option<Bytes>>, replied: seq<Option<Bytes>>)
    requires client != server && client.State() == server.State()
    requires forall i, j | 0 <= i < |bs| && 0 <= j < |bs[i].frames| :: |bs[i].frames[j].sid| == SESSION_ID_LEN
    modifies client, server
    ensures sent == replied == EncodeAll(p, old(client.State()), bs).0
    ensures client.State() == server.State() == EncodeAll(p, old(client.State()), bs).1
  {
    hide Encodable, WireForm, A.Advance, EncodeOf;
    sent, replied := [], [];
    for i := 0 to |bs|
      invariant (sent, client.State()) == EncodeAll(p, old(client.State()), bs[..i])
      invariant replied == sent && server.State() == client.State()
    {
      assert bs[..i + 1][..i] == bs[..i];
      var b := bs[i];
      var x := client.ClientEncode(p, b.nonce, b.cid, b.frames);
      var y := server.ServerEncode(p, b.nonce, b.cid, b.frames);
      sent, replied := sent + [x], replied + [y];
    }
    assert bs[..|bs|] == bs;
  }

  /**
   * From any adaptive state, every encodable batch of a sequence decodes to itself, the others are
   * refused, and the state runs through exactly the encodes that succeed.
   */
  lemma {:induction false} SequenceRoundTrip(p: Primitives, st: A.Skip, bs: seq<Batch>)
    requires Lawful(p) && forall i | 0 <= i < |bs| :: |bs[i].nonce| == NONCE_LEN
    ensures var outs := EncodeAll(p, st, bs).0;
            && |outs| == |bs|
            && forall i | 0 <= i < |bs| ::
                 && (outs[i].Some? <==> Encodable(bs[i].cid, bs[i].frames))
                 && (outs[i].Some? ==> DecodeOf(p, outs[i].value) == Ok((bs[i].cid, MaskAll(bs[i].frames))))
    ensures EncodeAll(p, st, bs).1 == A.Run(st, Encodes(p, bs))
  {
    hide Lawful, Encodable, WireForm, DecodeOf, A.Advance, EncodeOf;
    if bs != [] {
      var b, s := bs[|bs| - 1], EncodeAll(p, st, bs[..|bs| - 1]).1;
      SequenceRoundTrip(p, st, bs[..|bs| - 1]);
      if Encodable(b.cid, b.frames) {
        BatchRoundTrip(p, s, b.nonce, b.cid, b.frames);
        var es := Encodes(p, bs);
        assert es[..|es| - 1] == Encodes(p, bs[..|bs| - 1]);
      }
    }
  }
}
