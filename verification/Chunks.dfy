/** A byte stream in chunks, as the frames that carry it. */
module Chunks {
  import opened Octets
  import opened Frames

  /** The n-th data frame of a session. */
  function DataFrame(id: Bytes, n: nat, data: Bytes): Frame {
    Frame(id, n, 0, "", data)
  }

  function FinFrame(id: Bytes): Frame {
    Frame(id, 0, FIN, "", [])
  }

  /** A reset, with the text that goes with it. */
  function RstFrame(id: Bytes, text: Bytes): Frame {
    Frame(id, 0, RST, "", text)
  }

  /** The frame ends the stream for whoever reads it. */
  predicate Ends(f: Frame) {
    f.Has(RST) || f.Has(FIN)
  }

  /** The numbered data frames for a list of chunks. */
  function DataFrames(id: Bytes, chunks: seq<Bytes>): seq<Frame> {
    seq(|chunks|, i requires 0 <= i < |chunks| => DataFrame(id, i, chunks[i]))
  }

  lemma DataFramesSnoc(id: Bytes, chunks: seq<Bytes>, data: Bytes)
    ensures DataFrames(id, chunks + [data]) == DataFrames(id, chunks) + [DataFrame(id, |chunks|, data)]
  {
  }

  /** The bytes a reader writes for the frames it consumes. */
  function Payloads(fs: seq<Frame>): Bytes {
    if fs == [] then [] else Payloads(fs[..|fs| - 1]) + fs[|fs| - 1].payload
  }

  lemma EndsHaveFlags(id: Bytes, text: Bytes, f: Frame)
    ensures Ends(f) ==> f.flags != 0
    ensures Ends(FinFrame(id)) && Ends(RstFrame(id, text))
  {
  }

  lemma PayloadsSnoc(fs: seq<Frame>, f: Frame)
    ensures Payloads(fs + [f]) == Payloads(fs) + f.payload
  {
    assert (fs + [f])[..|fs|] == fs;
  }

  lemma {:induction false} PayloadsOfChunks(id: Bytes, chunks: seq<Bytes>)
    ensures Payloads(DataFrames(id, chunks)) == Concat(chunks)
  {
    if chunks != [] {
      var n, init := |chunks| - 1, chunks[..|chunks| - 1];
      var fs := DataFrames(id, chunks);
      PayloadsOfChunks(id, init);
      assert fs[..n] == DataFrames(id, init);
      assert chunks == init + [chunks[n]];
      ConcatAppend(init, [chunks[n]]);
      assert Concat([chunks[n]]) == chunks[n] + [];
    }
  }

  lemma {:induction false} PayloadsPrefix(fs: seq<Frame>, k: nat)
    requires k <= |fs|
    ensures Payloads(fs[..k]) <= Payloads(fs)
    decreases |fs|
  {
    if k == |fs| {
      assert fs[..k] == fs;
    } else {
      PayloadsPrefix(fs[..|fs| - 1], k);
      assert fs[..|fs| - 1][..k] == fs[..k];
    }
  }
}
