/** The frame and its wire form; the two parsers the programs use on it. */
module Frames {
  import opened Octets
  import opened Wrappers
  import Utf8

  const SYN := 1
  const FIN := 2
  const ACK := 4
  const RST := 8

  const SESSION_ID_LEN := 16
  const HEADER_LEN := 30
  const MAX_PAYLOAD := 10 * 1024 * 1024

  datatype Frame = Frame(sid: Bytes, seqno: nat, flags: nat, target: string, payload: Bytes) {
    /** `flags & bit` for one of the four flag bits. */
    predicate Has(bit: nat)
      requires bit > 0
    {
      flags / bit % 2 == 1
    }

    function EncodedLen(): nat {
      HEADER_LEN + |Utf8.Encode(target)| + |payload|
    }

    /** `_marshal_size`: counts characters of the target where the wire carries bytes. */
    function MarshalSize(): nat {
      HEADER_LEN + |target| + |payload|
    }

    /** Every field fits its place on the wire. */
    predicate InRange() {
      && seqno < Pow256(8)
      && |Utf8.Encode(target)| <= 255
      && |payload| < Pow256(4)
    }

    /** The one byte of flags that the wire keeps. */
    function Masked(): Frame {
      this.(flags := flags % 256)
    }
  }

  predicate Packable(f: Frame) {
    f.InRange() && |f.sid| == SESSION_ID_LEN
  }

  /** What `marshal_into` writes: everything but the payload. */
  function HeaderBytes(f: Frame): Bytes
    requires f.InRange()
  {
    f.sid + BigEndian(f.seqno, 8) + [f.flags % 256] + [|Utf8.Encode(f.target)|]
    + Utf8.Encode(f.target) + BigEndian(|f.payload|, 4)
  }

  function FrameBytes(f: Frame): (b: Bytes)
    requires Packable(f)
    ensures |b| == f.EncodedLen()
  {
    HeaderBytes(f) + f.payload
  }

  // ----- the two parsers -----

  datatype DecodeError =
    | ShortHeader | ShortTarget | BadUtf8 | PayloadTooLarge | ShortPayload
    | StructError | IndexError | ShortFrameLength | ShortFrameBody
    | BadBase64 | BadEnvelope | EmptyPlaintext | UnknownFlagsByte | BadCompression | ShortBatchHeader

  /** `unmarshal`: the frame at the start of data and the number of bytes it took. */
  function Unmarshal(data: Bytes): (r: Result<(Frame, nat), DecodeError>)
    ensures r.Ok? ==> HEADER_LEN <= r.value.1 <= |data|
  {
    if |data| < HEADER_LEN then Err(ShortHeader)
    else
      var tlen := data[25];
      if |data| < 26 + tlen + 4 then Err(ShortTarget)
      else
        match Utf8.Decode(data[26..26 + tlen])
        case None => Err(BadUtf8)
        case Some(target) =>
          var plen := FromBigEndian(data[26 + tlen..30 + tlen]);
          if plen > MAX_PAYLOAD then Err(PayloadTooLarge)
          else if |data| < 30 + tlen + plen then Err(ShortPayload)
          else
            Ok((Frame(data[..16], FromBigEndian(data[16..24]), data[24], target,
                      data[30 + tlen..30 + tlen + plen]),
                30 + tlen + plen))
  }

  /** `bytes.decode("utf-8", errors="replace")`; `lossy` is what it gives on malformed text. */
  function Text(lossy: Bytes -> string, b: Bytes): string {
    match Utf8.Decode(b)
    case Some(s) => s
    case None => lossy(b)
  }

  /** Well-formed text is what was encoded; anything else is left to the library. */
  lemma TextReadsBack(lossy: Bytes -> string, s: string, b: Bytes)
    ensures Text(lossy, Utf8.Encode(s)) == s
    ensures Utf8.Decode(b) == None ==> Text(lossy, b) == lossy(b)
  {
    Utf8.RoundTrip(s);
  }

  /** The four flag bits, and what lies above them. */
  lemma FlagBits(f: Frame, syn: nat, fin: nat, ack: nat, rst: nat, rest: nat)
    requires syn < 2 && fin < 2 && ack < 2 && rst < 2
    requires f.flags == syn + 2 * fin + 4 * ack + 8 * rst + 16 * rest
    ensures f.Has(SYN) <==> syn == 1
    ensures f.Has(FIN) <==> fin == 1
    ensures f.Has(ACK) <==> ack == 1
    ensures f.Has(RST) <==> rst == 1
  {
    assert f.flags / 1 == syn + 2 * (fin + 2 * ack + 4 * rst + 8 * rest);
    assert f.flags / 2 == fin + 2 * (ack + 2 * rst + 4 * rest);
    assert f.flags / 4 == ack + 2 * (rst + 2 * rest);
    assert f.flags / 8 == rst + 2 * rest;
  }

  /** The inline parser of `decode_batch` on the bytes from its offset on, with the bytes it steps over. */
  function WalkFrame(lossy: Bytes -> string, d: Bytes): (r: Result<(Frame, nat), DecodeError>)
    ensures r.Ok? ==> r.value.1 >= HEADER_LEN
  {
    if |d| < 24 then Err(StructError)
    else if |d| <= 25 then Err(IndexError)
    else
      var tlen := d[25];
      var target := Text(lossy, Slice(d, 26, 26 + tlen));
      if |d| < 26 + tlen + 4 then Err(StructError)
      else
        var plen := FromBigEndian(d[26 + tlen..30 + tlen]);
        Ok((Frame(d[..16], FromBigEndian(d[16..24]), d[24], target, Slice(d, 30 + tlen, 30 + tlen + plen)),
            30 + tlen + plen))
  }

  function TargetField(d: Bytes): Bytes
    requires |d| > 25
  {
    var tlen: int := d[25];
    Slice(d, 26, 26 + tlen)
  }

  /** What is left of d once n bytes are stepped over; n may lie past the end. */
  function Skip(d: Bytes, n: nat): Bytes {
    if n <= |d| then d[n..] else []
  }

  function Prefix(d: Bytes): nat
    requires |d| >= 4
  {
    FromBigEndian(d[..4])
  }

  /** One turn of the loop of `decode_batch`: the length prefix, then the frame. */
  function WalkStep(lossy: Bytes -> string, d: Bytes): Result<(Frame, nat), DecodeError> {
    if |d| < 4 then Err(ShortFrameLength)
    else if |d| < 4 + Prefix(d) then Err(ShortFrameBody)
    else
      var (f, n) :- WalkFrame(lossy, d[4..]);
      Ok((f, 4 + n))
  }

  /** The frame loop of `decode_batch` for count frames, with the bytes it steps over. */
  function Walk(lossy: Bytes -> string, d: Bytes, count: nat): Result<(seq<Frame>, nat), DecodeError>
    decreases count
  {
    if count == 0 then Ok(([], 0))
    else
      var (f, n) :- WalkStep(lossy, d);
      var (fs, rest) :- Walk(lossy, Skip(d, n), count - 1);
      Ok(([f] + fs, n + rest))
  }

  /** Where a step of the walk fails for want of bytes. */
  lemma WalkErrors(lossy: Bytes -> string, d: Bytes)
    ensures |d| < 4 ==> WalkStep(lossy, d) == Err(ShortFrameLength)
    ensures |d| >= 4 && |d| - 4 < FromBigEndian(d[..4]) ==> WalkStep(lossy, d) == Err(ShortFrameBody)
    ensures |d| < 24 ==> WalkFrame(lossy, d) == Err(StructError)
    ensures 24 <= |d| < 26 ==> WalkFrame(lossy, d) == Err(IndexError)
    ensures |d| >= 26 && |d| - 30 < d[25] ==> WalkFrame(lossy, d) == Err(StructError)
    ensures |d| >= 26 && |d| - 30 >= d[25] ==> WalkFrame(lossy, d).Ok?
  {
    hide FromBigEndian, Text;
  }

  // ----- reading back what was written -----

  lemma HeaderLayout(f: Frame)
    requires Packable(f)
    ensures var h, t := HeaderBytes(f), |Utf8.Encode(f.target)|;
            && |h| == 30 + t
            && h[..16] == f.sid
            && h[16..24] == BigEndian(f.seqno, 8)
            && h[24] == f.flags % 256
            && h[25] == t
            && h[26..26 + t] == Utf8.Encode(f.target)
            && h[26 + t..30 + t] == BigEndian(|f.payload|, 4)
  {
  }

  /** Where every field of a frame lies. */
  lemma FrameLayout(f: Frame)
    requires Packable(f)
    ensures var b, t := FrameBytes(f), |Utf8.Encode(f.target)|;
            && |b| == 30 + t + |f.payload|
            && b[..16] == f.sid
            && b[16..24] == BigEndian(f.seqno, 8)
            && b[24] == f.flags % 256
            && b[25] == t
            && b[26..26 + t] == Utf8.Encode(f.target)
            && b[26 + t..30 + t] == BigEndian(|f.payload|, 4)
            && b[30 + t..] == f.payload
  {
    hide HeaderBytes, BigEndian, Utf8.Encode, Pow256;
    var h, t := HeaderBytes(f), |Utf8.Encode(f.target)|;
    HeaderLayout(f);
    PrefixSlice(h, f.payload, 0, 16);
    PrefixSlice(h, f.payload, 16, 24);
    PrefixSlice(h, f.payload, 26, 26 + t);
    PrefixSlice(h, f.payload, 26 + t, 30 + t);
  }

  /** The inline parser takes the payload the header announces, or as much of it as there is. */
  lemma ReadsHeader(lossy: Bytes -> string, f: Frame, rest: Bytes)
    requires Packable(f)
    ensures var shown := f.Masked().(payload := Slice(rest, 0, |f.payload|));
            && WalkFrame(lossy, HeaderBytes(f) + rest) == Ok((shown, f.EncodedLen()))
            && (|f.payload| > 10 * 1024 * 1024 ==> Unmarshal(HeaderBytes(f) + rest) == Err(PayloadTooLarge))
            && (|f.payload| <= 10 * 1024 * 1024 ==>
                  Unmarshal(HeaderBytes(f) + rest)
                  == if |rest| < |f.payload| then Err(ShortPayload) else Ok((shown, f.EncodedLen())))
  {
    hide HeaderBytes, BigEndian, FromBigEndian, Utf8.Encode, Utf8.Decode, Pow256;
    var h, t := HeaderBytes(f), |Utf8.Encode(f.target)|;
    HeaderLayout(f);
    PrefixSlice(h, rest, 0, 16);
    PrefixSlice(h, rest, 16, 24);
    PrefixSlice(h, rest, 26, 26 + t);
    PrefixSlice(h, rest, 26 + t, 30 + t);
    BigEndianRoundTrip(f.seqno, 8);
    BigEndianRoundTrip(|f.payload|, 4);
    Utf8.RoundTrip(f.target);
    assert Slice(h + rest, 30 + t, 30 + t + |f.payload|) == Slice(rest, 0, |f.payload|);
  }

  /** Both parsers read a written frame back, whatever follows it. */
  lemma ReadsFrame(lossy: Bytes -> string, f: Frame, rest: Bytes)
    requires Packable(f)
    ensures WalkFrame(lossy, FrameBytes(f) + rest) == Ok((f.Masked(), f.EncodedLen()))
    ensures |f.payload| <= MAX_PAYLOAD ==>
              Unmarshal(FrameBytes(f) + rest) == Ok((f.Masked(), f.EncodedLen()))
  {
    hide WalkFrame, Unmarshal, HeaderBytes;
    ReadsHeader(lossy, f, f.payload + rest);
    assert FrameBytes(f) + rest == HeaderBytes(f) + (f.payload + rest);
    assert Slice(f.payload + rest, 0, |f.payload|) == f.payload;
  }

  /** Cut a written frame short inside its payload: one parser takes what is left, the other refuses. */
  lemma TruncatedPayload(lossy: Bytes -> string, f: Frame, k: nat)
    requires Packable(f) && k < |f.payload| <= MAX_PAYLOAD
    ensures var cut := FrameBytes(f)[..f.EncodedLen() - |f.payload| + k];
            && WalkFrame(lossy, cut) == Ok((f.Masked().(payload := f.payload[..k]), f.EncodedLen()))
            && Unmarshal(cut) == Err(ShortPayload)
  {
    hide WalkFrame, Unmarshal, HeaderBytes;
    HeaderLayout(f);
    ReadsHeader(lossy, f, f.payload[..k]);
    assert Slice(f.payload[..k], 0, |f.payload|) == f.payload[..k];
    assert FrameBytes(f)[..f.EncodedLen() - |f.payload| + k] == HeaderBytes(f) + f.payload[..k];
  }

  /**
   * The inline parser accepts more than `unmarshal`: it replaces malformed text, has no size
   * limit and lets the payload run past the end.  Where none of that happens they agree.
   */
  lemma WalkFrameVersusUnmarshal(lossy: Bytes -> string, d: Bytes)
    ensures var u, w := Unmarshal(d), WalkFrame(lossy, d);
            && (u.Ok? ==> w == u)
            && (u.Ok? <==> w.Ok? && w.value.1 <= |d| && |w.value.0.payload| <= MAX_PAYLOAD
                           && Utf8.Decode(TargetField(d)).Some?)
  {
  }

  /** One turn of the same loop with `unmarshal`, where the prefix must be the frame's own length. */
  function UnmarshalStep(d: Bytes): (r: Result<(Frame, nat), DecodeError>)
    ensures r.Ok? ==> r.value.1 <= |d|
  {
    if |d| < 4 then Err(ShortFrameLength)
    else if |d| < 4 + Prefix(d) then Err(ShortFrameBody)
    else
      var (f, n) :- Unmarshal(d[4..]);
      if n == Prefix(d) then Ok((f, 4 + n)) else Err(ShortFrameBody)
  }

  function UnmarshalAll(d: Bytes, count: nat): Result<(seq<Frame>, nat), DecodeError>
    decreases count
  {
    if count == 0 then Ok(([], 0))
    else
      var (f, n) :- UnmarshalStep(d);
      var (fs, rest) :- UnmarshalAll(d[n..], count - 1);
      Ok(([f] + fs, n + rest))
  }

  /** The frame the walk reads at d ends where its prefix says, inside d, with well-formed contents. */
  predicate PrefixMatches(lossy: Bytes -> string, d: Bytes) {
    && WalkStep(lossy, d).Ok?
    && var (f, n) := WalkStep(lossy, d).value;
    && n == 4 + Prefix(d)
    && |f.payload| <= MAX_PAYLOAD
    && Utf8.Decode(TargetField(d[4..])).Some?
  }

  predicate PrefixesMatch(lossy: Bytes -> string, d: Bytes, count: nat)
    decreases count
  {
    count == 0 ||
    (PrefixMatches(lossy, d) && PrefixesMatch(lossy, d[WalkStep(lossy, d).value.1..], count - 1))
  }

  lemma StepsAgree(lossy: Bytes -> string, d: Bytes)
    ensures UnmarshalStep(d).Ok? <==> PrefixMatches(lossy, d)
    ensures UnmarshalStep(d).Ok? ==> WalkStep(lossy, d) == UnmarshalStep(d)
  {
    if |d| >= 4 && |d| >= 4 + Prefix(d) {
      WalkFrameVersusUnmarshal(lossy, d[4..]);
    }
  }

  /** The fast walk refines repeated `unmarshal`, exactly on the bodies whose prefixes match. */
  lemma {:induction false} WalkRefinesUnmarshal(lossy: Bytes -> string, d: Bytes, count: nat)
    ensures UnmarshalAll(d, count).Ok? <==> PrefixesMatch(lossy, d, count)
    ensures UnmarshalAll(d, count).Ok? ==> Walk(lossy, d, count) == UnmarshalAll(d, count)
    decreases count
  {
    hide WalkStep, UnmarshalStep, PrefixMatches, TargetField;
    if count > 0 {
      StepsAgree(lossy, d);
      if UnmarshalStep(d).Ok? {
        WalkRefinesUnmarshal(lossy, d[UnmarshalStep(d).value.1..], count - 1);
      }
    }
  }

  // ----- whole frame lists -----

  predicate AllPackable(fs: seq<Frame>) {
    forall i | 0 <= i < |fs| :: Packable(fs[i]) && fs[i].MarshalSize() < Pow256(4)
  }

  /** A frame behind a length prefix. */
  function Prefixed(flen: nat, f: Frame): (b: Bytes)
    requires Packable(f)
    ensures |b| == 4 + f.EncodedLen()
  {
    BigEndian(flen, 4) + FrameBytes(f)
  }

  /** One frame as the batch encoder writes it: the prefix counts characters of the target. */
  function Record(f: Frame): (b: Bytes)
    requires Packable(f)
    ensures |b| == 4 + f.EncodedLen()
  {
    Prefixed(f.MarshalSize(), f)
  }

  /** The frame part of the encoder's buffer. */
  function RecordBytes(fs: seq<Frame>): (b: Bytes)
    requires AllPackable(fs)
    ensures |b| == WireSize(fs)
  {
    if fs == [] then [] else Record(fs[0]) + RecordBytes(fs[1..])
  }

  /** The bytes the frames take. */
  function WireSize(fs: seq<Frame>): nat {
    if fs == [] then 0 else 4 + fs[0].EncodedLen() + WireSize(fs[1..])
  }

  /** The bytes the encoder sets aside for them. */
  function StatedSize(fs: seq<Frame>): nat {
    if fs == [] then 0 else 4 + fs[0].MarshalSize() + StatedSize(fs[1..])
  }

  lemma {:induction false} SizesAppend(a: seq<Frame>, b: seq<Frame>)
    ensures WireSize(a + b) == WireSize(a) + WireSize(b)
    ensures StatedSize(a + b) == StatedSize(a) + StatedSize(b)
  {
    if a == [] {
      assert a + b == b;
    } else {
      assert (a + b)[1..] == a[1..] + b;
      SizesAppend(a[1..], b);
    }
  }

  lemma {:induction false} RecordBytesAppend(a: seq<Frame>, b: seq<Frame>)
    requires AllPackable(a) && AllPackable(b)
    ensures AllPackable(a + b)
    ensures RecordBytes(a + b) == RecordBytes(a) + RecordBytes(b)
  {
    hide Record, Packable;
    if a == [] {
      assert a + b == b;
    } else {
      assert (a + b)[1..] == a[1..] + b;
      RecordBytesAppend(a[1..], b);
    }
  }

  function MaskAll(fs: seq<Frame>): (r: seq<Frame>)
    ensures |r| == |fs|
  {
    if fs == [] then [] else [fs[0].Masked()] + MaskAll(fs[1..])
  }

  /** A prefix that is too small does not disturb the walk; `unmarshal` needs it exact. */
  lemma ReadsPrefixed(lossy: Bytes -> string, flen: nat, f: Frame, rest: Bytes)
    requires Packable(f) && flen < Pow256(4) && flen <= f.EncodedLen()
    ensures var d := Prefixed(flen, f) + rest;
            && WalkStep(lossy, d) == Ok((f.Masked(), 4 + f.EncodedLen()))
            && (|f.payload| <= MAX_PAYLOAD && flen == f.EncodedLen() ==>
                  UnmarshalStep(d) == Ok((f.Masked(), 4 + f.EncodedLen())))
            && d[4 + f.EncodedLen()..] == Skip(d, 4 + f.EncodedLen()) == rest
  {
    hide WalkFrame, Unmarshal, FrameBytes;
    var d := Prefixed(flen, f) + rest;
    assert d == BigEndian(flen, 4) + (FrameBytes(f) + rest);
    BigEndianRoundTrip(flen, 4);
    assert d[..4] == BigEndian(flen, 4);
    assert d[4..] == FrameBytes(f) + rest;
    ReadsFrame(lossy, f, rest);
  }

  lemma ReadsRecord(lossy: Bytes -> string, f: Frame, rest: Bytes)
    requires Packable(f) && f.MarshalSize() < Pow256(4)
    ensures WalkStep(lossy, Record(f) + rest) == Ok((f.Masked(), |Record(f)|))
    ensures Skip(Record(f) + rest, |Record(f)|) == rest
  {
    hide WalkStep, UnmarshalStep, Prefixed;
    Utf8.EncodeLength(f.target);
    ReadsPrefixed(lossy, f.MarshalSize(), f, rest);
  }

  /** Walking over written records gives the frames back and stops at their end. */
  lemma {:induction false} WalkRoundTrip(lossy: Bytes -> string, fs: seq<Frame>, rest: Bytes)
    requires AllPackable(fs)
    ensures Walk(lossy, RecordBytes(fs) + rest, |fs|) == Ok((MaskAll(fs), WireSize(fs)))
  {
    hide WalkStep, Record, Packable, RecordBytes, Skip;
    if fs != [] {
      FirstRecord(fs, rest);
      ReadsRecord(lossy, fs[0], RecordBytes(fs[1..]) + rest);
      WalkRoundTrip(lossy, fs[1..], rest);
    }
  }

  lemma FirstRecord(fs: seq<Frame>, rest: Bytes)
    requires AllPackable(fs) && fs != []
    ensures RecordBytes(fs) + rest == Record(fs[0]) + (RecordBytes(fs[1..]) + rest)
  {
    hide Record, Packable;
  }
}
