/** `marshal_batch`: the frame list alone, with exact length prefixes. */
module BatchMarshal {
  import opened Octets
  import opened Wrappers
  import opened ByteArrays
  import opened Frames
  import opened Encoder
  import Utf8

  predicate AllExact(fs: seq<Frame>) {
    forall i | 0 <= i < |fs| :: Packable(fs[i]) && fs[i].EncodedLen() < Pow256(4)
  }

  function ExactBytes(fs: seq<Frame>): (b: Bytes)
    requires AllExact(fs)
    ensures |b| == WireSize(fs)
  {
    if fs == [] then [] else Prefixed(fs[0].EncodedLen(), fs[0]) + ExactBytes(fs[1..])
  }

  lemma {:induction false} ExactBytesSnoc(fs: seq<Frame>, f: Frame)
    requires AllExact(fs) && Packable(f) && f.EncodedLen() < Pow256(4)
    ensures AllExact(fs + [f])
    ensures ExactBytes(fs + [f]) == ExactBytes(fs) + Prefixed(f.EncodedLen(), f)
  {
    hide Prefixed, Packable;
    if fs == [] {
      assert fs + [f] == [f];
    } else {
      assert (fs + [f])[1..] == fs[1..] + [f];
      ExactBytesSnoc(fs[1..], f);
    }
  }

  ghost predicate Filled(d: Bytes, off: nat, fs: seq<Frame>, i: nat)
    requires i <= |fs|
  {
    && AllExact(fs[..i])
    && |d| == WireSize(fs)
    && off == WireSize(fs[..i]) <= |d|
    && d[..off] == ExactBytes(fs[..i])
  }

  lemma FilledStep(d: Bytes, off: nat, fs: seq<Frame>, i: nat)
    requires i < |fs| && Filled(d, off, fs, i)
    requires Packable(fs[i]) && fs[i].EncodedLen() < Pow256(4)
    ensures Filled(Overlay(d, off, Prefixed(fs[i].EncodedLen(), fs[i])), off + 4 + fs[i].EncodedLen(), fs, i + 1)
  {
    hide Prefixed, Packable;
    Fits(fs, i);
    ExactBytesSnoc(fs[..i], fs[i]);
    OverlayPrefix(d, off, Prefixed(fs[i].EncodedLen(), fs[i]));
  }

  /** The buffer still has room for the i-th frame. */
  lemma Fits(fs: seq<Frame>, i: nat)
    requires i < |fs|
    ensures fs[..i + 1] == fs[..i] + [fs[i]]
    ensures WireSize(fs[..i + 1]) == WireSize(fs[..i]) + 4 + fs[i].EncodedLen() <= WireSize(fs)
  {
    hide WireSize, StatedSize, Frame.EncodedLen, Frame.MarshalSize;
    assert fs[..i + 1] == fs[..i] + [fs[i]];
    assert fs == fs[..i + 1] + fs[i + 1..];
    OneSize(fs[i]);
    SizesAppend(fs[..i], [fs[i]]);
    SizesAppend(fs[..i + 1], fs[i + 1..]);
  }

  method MarshalBatch(fs: seq<Frame>) returns (r: Option<Bytes>)
    requires forall i | 0 <= i < |fs| :: |fs[i].sid| == SESSION_ID_LEN
    ensures r.Some? <==> AllExact(fs)
    ensures r.Some? ==> r.value == ExactBytes(fs)
  {
    hide Prefixed, Overlay, ExactBytes, WireSize;
    var total := 0;
    EmptySizes();
    assert fs[..0] == [];
    for i := 0 to |fs|
      invariant total == WireSize(fs[..i])
    {
      Snoc(fs, i);
      total := total + 4 + fs[i].EncodedLen();
    }
    assert fs[..|fs|] == fs;
    var buf := new ByteArray(total);
    var off := 0;
    for i := 0 to |fs|
      invariant fresh(buf)
      invariant Filled(buf.data, off, fs, i)
    {
      Fits(fs, i);
      ghost var before, at := buf.data, off;
      var ok;
      ok, off := WriteRecord(buf, off, fs[i].EncodedLen(), fs[i]);
      if !ok {
        return None;
      }
      FilledStep(before, at, fs, i);
    }
    assert fs[..|fs|] == fs;
    r := Some(buf.data);
  }

  lemma EmptySizes()
    ensures WireSize([]) == 0 && ExactBytes([]) == []
  {
  }

  /** `unmarshal` reads back what `marshal_batch` wrote, frame by frame. */
  lemma {:induction false} UnmarshalRoundTrip(lossy: Bytes -> string, fs: seq<Frame>, rest: Bytes)
    requires AllExact(fs) && forall i | 0 <= i < |fs| :: |fs[i].payload| <= MAX_PAYLOAD
    ensures UnmarshalAll(ExactBytes(fs) + rest, |fs|) == Ok((MaskAll(fs), WireSize(fs)))
  {
    hide WalkStep, UnmarshalStep, Prefixed, Packable;
    if fs != [] {
      var f, tail := fs[0], ExactBytes(fs[1..]) + rest;
      assert ExactBytes(fs) + rest == Prefixed(f.EncodedLen(), f) + tail;
      ReadsPrefixed(lossy, f.EncodedLen(), f, tail);
      UnmarshalRoundTrip(lossy, fs[1..], rest);
    }
  }

  /** Frame lists with one-byte flags have different images. */
  lemma {:induction false} MarshalBatchInjective(a: seq<Frame>, b: seq<Frame>)
    requires AllExact(a) && AllExact(b)
    requires forall i | 0 <= i < |a| :: a[i].flags < 256
    requires forall i | 0 <= i < |b| :: b[i].flags < 256
    requires ExactBytes(a) == ExactBytes(b)
    ensures a == b
  {
    hide Packable;
    if a != [] && b != [] {
      SameFirst(a, b);
      MarshalBatchInjective(a[1..], b[1..]);
      hide ExactBytes;
      assert a == [a[0]] + a[1..] && b == [b[0]] + b[1..];
    }
  }

  lemma SameFirst(a: seq<Frame>, b: seq<Frame>)
    requires a != [] && b != [] && AllExact(a) && AllExact(b)
    requires a[0].flags < 256 && b[0].flags < 256
    requires ExactBytes(a) == ExactBytes(b)
    ensures a[0] == b[0] && ExactBytes(a[1..]) == ExactBytes(b[1..])
  {
    hide WalkStep, UnmarshalStep, Prefixed, Packable;
    var lossy := (_: Bytes) => "";
    ReadsPrefixed(lossy, a[0].EncodedLen(), a[0], ExactBytes(a[1..]));
    ReadsPrefixed(lossy, b[0].EncodedLen(), b[0], ExactBytes(b[1..]));
    assert a[0] == b[0];
    SameLengthParts(Prefixed(a[0].EncodedLen(), a[0]), ExactBytes(a[1..]),
                    Prefixed(b[0].EncodedLen(), b[0]), ExactBytes(b[1..]));
  }

  lemma MatchesRecord(f: Frame)
    requires Packable(f) && f.EncodedLen() < Pow256(4) && f.MarshalSize() < Pow256(4)
    ensures Prefixed(f.EncodedLen(), f) == Record(f) <==> Utf8.Ascii(f.target)
  {
    hide FrameBytes, Packable;
    Utf8.EncodeLength(f.target);
    BigEndianRoundTrip(f.EncodedLen(), 4);
    BigEndianRoundTrip(f.MarshalSize(), 4);
    SameLengthParts(BigEndian(f.EncodedLen(), 4), FrameBytes(f), BigEndian(f.MarshalSize(), 4), FrameBytes(f));
  }

  lemma SameLengthParts(a: Bytes, b: Bytes, x: Bytes, y: Bytes)
    requires |a| == |x|
    ensures a + b == x + y <==> a == x && b == y
  {
    assert (a + b)[..|a|] == a && (x + y)[..|a|] == x;
    assert (a + b)[|a|..] == b && (x + y)[|a|..] == y;
  }

  /** It writes the encoder's frame bytes exactly when every target is ASCII. */
  lemma {:induction false} MatchesEncoder(fs: seq<Frame>)
    requires AllExact(fs) && AllPackable(fs)
    ensures ExactBytes(fs) == RecordBytes(fs) <==> AllAscii(fs)
  {
    hide Prefixed, Packable;
    if fs != [] {
      var f := fs[0];
      MatchesRecord(f);
      MatchesEncoder(fs[1..]);
      assert ExactBytes(fs) == Prefixed(f.EncodedLen(), f) + ExactBytes(fs[1..]);
      SameLengthParts(Prefixed(f.EncodedLen(), f), ExactBytes(fs[1..]), Record(f), RecordBytes(fs[1..]));
      assert AllAscii(fs) <==> Utf8.Ascii(f.target) && AllAscii(fs[1..]);
    }
  }
}
