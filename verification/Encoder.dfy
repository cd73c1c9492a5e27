/** Building the plaintext of a batch in one pre-sized buffer. */
module Encoder {
  import opened Octets
  import opened ByteArrays
  import opened Frames
  import Utf8

  const CLIENT_ID_LEN := 16
  const BATCH_HEADER := 19

  /** Bytes of the targets that `_marshal_size` does not set aside. */
  function Deficit(fs: seq<Frame>): int {
    WireSize(fs) - StatedSize(fs)
  }

  predicate AllAscii(fs: seq<Frame>) {
    forall i | 0 <= i < |fs| :: Utf8.Ascii(fs[i].target)
  }

  /** Nothing is missing exactly when every target is ASCII, and never too much is set aside. */
  lemma {:induction false} DeficitCountsNonAscii(fs: seq<Frame>)
    ensures Deficit(fs) >= 0
    ensures Deficit(fs) == 0 <==> AllAscii(fs)
  {
    if fs != [] {
      Utf8.EncodeLength(fs[0].target);
      DeficitCountsNonAscii(fs[1..]);
      assert AllAscii(fs) <==> Utf8.Ascii(fs[0].target) && AllAscii(fs[1..]);
    }
  }

  /** The frame list fits the wire format, and the shortfall is covered by the last payload. */
  predicate Encodable(cid: Bytes, fs: seq<Frame>) {
    && |fs| < Pow256(2)
    && |cid| == CLIENT_ID_LEN
    && AllPackable(fs)
    && (fs == [] || Deficit(fs) <= |fs[|fs| - 1].payload|)
  }

  /** With ASCII targets only the field ranges matter. */
  lemma AsciiIsEncodable(cid: Bytes, fs: seq<Frame>)
    requires AllAscii(fs)
    ensures Encodable(cid, fs) <==> |fs| < Pow256(2) && |cid| == CLIENT_ID_LEN && AllPackable(fs)
  {
    DeficitCountsNonAscii(fs);
  }

  /** Flags byte, client id and frame count. */
  function BatchHeader(cid: Bytes, n: nat): Bytes {
    [0] + cid + BigEndian(n, 2)
  }

  function Plaintext(cid: Bytes, fs: seq<Frame>): Bytes
    requires AllPackable(fs)
  {
    BatchHeader(cid, |fs|) + RecordBytes(fs)
  }

  /** Flags byte, client id, count, and behind them the frames. */
  lemma PlaintextLayout(cid: Bytes, fs: seq<Frame>)
    requires Encodable(cid, fs)
    ensures var d := Plaintext(cid, fs);
            && |d| == 19 + WireSize(fs)
            && d[0] == 0 && d[1..17] == cid && d[17..19] == BigEndian(|fs|, 2) && d[19..] == RecordBytes(fs)
  {
    hide RecordBytes, Packable, Pow256, BigEndian, WireSize, StatedSize;
    var d, n := Plaintext(cid, fs), BigEndian(|fs|, 2);
    assert d == [0] + (cid + (n + RecordBytes(fs)));
  }

  /** Where each frame lies: behind its length as it is stated, and that behind the frames before it. */
  lemma RecordAt(fs: seq<Frame>, i: nat)
    requires AllPackable(fs) && i < |fs|
    ensures AllPackable(fs[..i]) && AllPackable(fs[i + 1..])
    ensures RecordBytes(fs) == RecordBytes(fs[..i])
                               + (BigEndian(fs[i].MarshalSize(), 4) + FrameBytes(fs[i]) + RecordBytes(fs[i + 1..]))
  {
    hide AllPackable, Packable, Pow256, BigEndian, FrameBytes, RecordBytes, Frame.MarshalSize;
    assert fs == fs[..i] + ([fs[i]] + fs[i + 1..]);
    RecordsSplit(fs[..i], fs[i], fs[i + 1..]);
  }

  lemma RecordsSplit(a: seq<Frame>, f: Frame, b: seq<Frame>)
    requires AllPackable(a + ([f] + b))
    ensures AllPackable(a) && AllPackable(b) && Packable(f)
    ensures RecordBytes(a + ([f] + b))
            == RecordBytes(a) + (BigEndian(f.MarshalSize(), 4) + FrameBytes(f) + RecordBytes(b))
  {
    SplitsPackable(a, f, b);
    OneRecord(f);
    RecordParts(f);
    hide Packable, Pow256, BigEndian, FrameBytes, RecordBytes, Record, AllPackable, Frame.MarshalSize;
    RecordBytesAppend(a, [f] + b);
    RecordBytesAppend([f], b);
  }

  lemma RecordParts(f: Frame)
    requires Packable(f) && f.MarshalSize() < Pow256(4)
    ensures Record(f) == BigEndian(f.MarshalSize(), 4) + FrameBytes(f)
  {
  }

  lemma SplitsPackable(a: seq<Frame>, f: Frame, b: seq<Frame>)
    requires AllPackable(a + ([f] + b))
    ensures AllPackable(a) && AllPackable([f]) && AllPackable(b) && AllPackable([f] + b)
    ensures Packable(f) && f.MarshalSize() < Pow256(4)
  {
    hide Packable;
    var fs := a + ([f] + b);
    assert forall i | 0 <= i < |a| :: fs[i] == a[i];
    assert fs[|a|] == f;
    assert forall i | 0 <= i < |b| :: fs[|a| + 1 + i] == b[i];
  }

  /** `marshal_into` */
  method MarshalInto(buf: ByteArray, offset: nat, f: Frame) returns (ok: bool, written: nat)
    requires offset <= |buf.data| && |f.sid| == SESSION_ID_LEN
    modifies buf
    ensures ok <==> f.InRange() && offset + f.EncodedLen() - |f.payload| <= |old(buf.data)|
    ensures ok ==> written == f.EncodedLen() - |f.payload|
    ensures ok ==> buf.data == Overlay(old(buf.data), offset, HeaderBytes(f))
  {
    hide Overlay, BigEndian, Utf8.Encode;
    var d := buf.data;
    var text := Utf8.Encode(f.target);
    var off := offset;
    written := 0;
    buf.SetSlice(off, f.sid);
    off := off + SESSION_ID_LEN;
    ok := buf.PackInto(off, f.seqno, 8);
    if !ok {
      return;
    }
    OverlayCompose(d, offset, f.sid, BigEndian(f.seqno, 8));
    ghost var done := f.sid + BigEndian(f.seqno, 8);
    off := off + 8;
    ok := buf.SetByte(off, f.flags % 256);
    if !ok {
      return;
    }
    OverlayCompose(d, offset, done, [f.flags % 256]);
    done := done + [f.flags % 256];
    off := off + 1;
    ok := buf.SetByte(off, |text|);
    if !ok {
      return;
    }
    OverlayCompose(d, offset, done, [|text|]);
    done := done + [|text|];
    off := off + 1;
    if |text| > 0 {
      buf.SetSlice(off, text);
      off := off + |text|;
    } else {
      OverlayNothing(buf.data, off);
    }
    OverlayCompose(d, offset, done, text);
    done := done + text;
    ok := buf.PackInto(off, |f.payload|, 4);
    if !ok {
      return;
    }
    OverlayCompose(d, offset, done, BigEndian(|f.payload|, 4));
    off := off + 4;
    written := off - offset;
  }

  /** One frame behind its length prefix, header then payload: the body of both encoding loops. */
  method WriteRecord(buf: ByteArray, offset: nat, flen: nat, f: Frame) returns (ok: bool, next: nat)
    requires offset <= |buf.data| && |f.sid| == SESSION_ID_LEN
    modifies buf
    ensures ok <==> && f.InRange() && flen < Pow256(4)
                    && offset + 4 + f.EncodedLen() - |f.payload| <= |old(buf.data)|
    ensures ok ==> next == offset + 4 + f.EncodedLen()
    ensures ok ==> buf.data == Overlay(old(buf.data), offset, Prefixed(flen, f))
  {
    hide Overlay, BigEndian, HeaderBytes;
    var d := buf.data;
    next := offset;
    ok := buf.PackInto(next, flen, 4);
    if !ok {
      return;
    }
    next := next + 4;
    var written;
    ok, written := MarshalInto(buf, next, f);
    if !ok {
      return;
    }
    next := next + written;
    ghost var prefix := BigEndian(flen, 4);
    OverlayCompose(d, offset, prefix, HeaderBytes(f));
    if |f.payload| > 0 {
      buf.SetSlice(next, f.payload);
      next := next + |f.payload|;
    } else {
      OverlayNothing(buf.data, next);
    }
    OverlayCompose(d, offset, prefix + HeaderBytes(f), f.payload);
    assert prefix + HeaderBytes(f) + f.payload == Prefixed(flen, f);
  }

  /** No frame's header ends further right than the last one's. */
  lemma HeaderEndsGrow(fs: seq<Frame>, i: nat)
    requires i < |fs|
    ensures WireSize(fs[..i + 1]) - |fs[i].payload| <= WireSize(fs) - |fs[|fs| - 1].payload|
  {
    if i < |fs| - 1 {
      var middle, last := fs[i + 1..|fs| - 1], fs[|fs| - 1];
      assert fs == fs[..i + 1] + middle + [last];
      SizesAppend(fs[..i + 1] + middle, [last]);
      SizesAppend(fs[..i + 1], middle);
    } else {
      assert fs[..i + 1] == fs;
    }
  }

  lemma Snoc(fs: seq<Frame>, i: nat)
    requires i < |fs|
    ensures fs[..i + 1] == fs[..i] + [fs[i]]
    ensures WireSize(fs[..i + 1]) == WireSize(fs[..i]) + 4 + fs[i].EncodedLen()
    ensures StatedSize(fs[..i + 1]) == StatedSize(fs[..i]) + 4 + fs[i].MarshalSize()
    ensures AllPackable(fs[..i + 1]) ==> RecordBytes(fs[..i + 1]) == RecordBytes(fs[..i]) + Record(fs[i])
  {
    hide Record, Packable, Frame.EncodedLen, Frame.MarshalSize;
    assert fs[..i + 1] == fs[..i] + [fs[i]];
    SizesAppend(fs[..i], [fs[i]]);
    OneSize(fs[i]);
    if AllPackable(fs[..i + 1]) {
      assert fs[..i + 1][i] == fs[i];
      RecordBytesAppend(fs[..i], [fs[i]]);
      OneRecord(fs[i]);
      hide RecordBytes;
    }
  }

  lemma OneSize(f: Frame)
    ensures WireSize([f]) == 4 + f.EncodedLen() && StatedSize([f]) == 4 + f.MarshalSize()
  {
    assert [f][1..] == [];
  }

  lemma OneRecord(f: Frame)
    requires Packable(f) && f.MarshalSize() < Pow256(4)
    ensures AllPackable([f]) && RecordBytes([f]) == Record(f)
  {
    hide Record, Packable;
    assert [f][1..] == [];
    assert Record(f) + [] == Record(f);
  }

  /** `header_size + frames_size` for the frames. */
  method PlainSize(fs: seq<Frame>) returns (size: nat)
    ensures size == BATCH_HEADER + StatedSize(fs)
  {
    var framesSize := 0;
    for i := 0 to |fs|
      invariant framesSize == StatedSize(fs[..i])
    {
      Snoc(fs, i);
      framesSize := framesSize + 4 + fs[i].MarshalSize();
    }
    assert fs[..|fs|] == fs;
    size := BATCH_HEADER + framesSize;
  }

  method WriteHeader(buf: ByteArray, cid: Bytes, n: nat) returns (off: nat)
    requires |buf.data| >= BATCH_HEADER
    requires |cid| == CLIENT_ID_LEN && n < Pow256(2)
    modifies buf
    ensures off == BATCH_HEADER
    ensures |buf.data| == |old(buf.data)|
    ensures buf.data[..off] == BatchHeader(cid, n)
  {
    hide BigEndian, Pow256, Overlay;
    var d := buf.data;
    var ok := buf.SetByte(0, 0);
    off := 1;
    buf.SetSlice(off, cid);
    OverlayCompose(d, 0, [0], cid);
    off := off + CLIENT_ID_LEN;
    ok := buf.PackInto(off, n, 2);
    OverlayCompose(d, 0, [0] + cid, BigEndian(n, 2));
    OverlayPrefix(d, 0, BatchHeader(cid, n));
    off := off + 2;
  }

  /** What the encoding loop keeps: the first i frames are written, and their headers fitted. */
  ghost predicate Written(d: Bytes, start: Bytes, off: nat, size: nat, fs: seq<Frame>, i: nat)
    requires i <= |fs|
  {
    && AllPackable(fs[..i])
    && off == |start| + WireSize(fs[..i])
    && |d| == (if off <= size then size else off)
    && d[..off] == start + RecordBytes(fs[..i])
    && (i > 0 ==> off - |fs[i - 1].payload| <= size)
  }

  lemma WrittenStep(d: Bytes, start: Bytes, off: nat, size: nat, fs: seq<Frame>, i: nat)
    requires i < |fs| && Written(d, start, off, size, fs, i)
    requires Packable(fs[i]) && fs[i].MarshalSize() < Pow256(4)
    requires off + 4 + fs[i].EncodedLen() - |fs[i].payload| <= |d|
    ensures Written(Overlay(d, off, Record(fs[i])), start, off + |Record(fs[i])|, size, fs, i + 1)
  {
    hide Prefixed, Packable, RecordBytes, WireSize, StatedSize, Overlay, Pow256;
    Snoc(fs, i);
    assert AllPackable(fs[..i + 1]);
    OverlayPrefix(d, off, Record(fs[i]));
    assert d[..off] + Record(fs[i]) == start + (RecordBytes(fs[..i]) + Record(fs[i]));
  }

  /**
   * The plaintext of a batch.  The buffer is sized by characters and filled by bytes, so
   * filling it fails exactly when the last payload cannot make up for the difference.
   */
  method EncodePlaintext(cid: Bytes, fs: seq<Frame>) returns (ok: bool, buf: ByteArray)
    requires forall i | 0 <= i < |fs| :: |fs[i].sid| == SESSION_ID_LEN
    ensures fresh(buf)
    ensures ok <==> Encodable(cid, fs)
    ensures ok ==> buf.data == Plaintext(cid, fs)
  {
    hide Prefixed, RecordBytes, WireSize, StatedSize, BatchHeader, Overlay;
    Pow256Values();
    if |fs| > 0xFFFF || |cid| != CLIENT_ID_LEN {
      buf := new ByteArray(0);
      return false, buf;
    }
    var size := PlainSize(fs);
    buf := new ByteArray(size);
    var off := WriteHeader(buf, cid, |fs|);
    ghost var start := BatchHeader(cid, |fs|);
    EmptyPrefix(buf.data, start, size, fs);
    for i := 0 to |fs|
      invariant fresh(buf)
      invariant Written(buf.data, start, off, size, fs, i)
    {
      HeaderEndsGrow(fs, i);
      Snoc(fs, i);
      ghost var before := buf.data;
      ghost var at := off;
      ok, off := WriteRecord(buf, off, fs[i].MarshalSize(), fs[i]);
      if !ok {
        return;
      }
      WrittenStep(before, start, at, size, fs, i);
    }
    assert fs[..|fs|] == fs;
    DeficitCountsNonAscii(fs);
    assert buf.data[..off] == buf.data;
    ok := true;
  }

  lemma EmptyPrefix(d: Bytes, start: Bytes, size: nat, fs: seq<Frame>)
    requires |d| == size && |start| <= size && d[..|start|] == start
    ensures Written(d, start, |start|, size, fs, 0)
  {
    assert fs[..0] == [];
    assert start + [] == start;
  }
}
