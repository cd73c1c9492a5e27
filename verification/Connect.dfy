/** A connection request on its whole way: printed, framed, sealed, opened, demultiplexed, parsed. */
module Connect {
  import opened Octets
  import opened Wrappers
  import opened Frames
  import opened Encoder
  import opened Codec
  import opened Targets
  import A = Adaptive
  import Exit
  import Pools
  import Utf8
  import V = VirtualConns

  lemma DigitsAreAscii(s: string)
    requires AllDigits(s)
    ensures Utf8.Ascii(s)
  {
  }

  /** How long the target is on the wire, and whether it is ASCII, is decided by the host. */
  lemma TargetSize(host: string, port: nat)
    ensures Utf8.Ascii(TargetOf(host, port)) <==> Utf8.Ascii(host)
    ensures |TargetOf(host, port)| == |host| + 1 + DecimalLength(port)
  {
    DecimalDigits(port);
    DigitsAreAscii(Decimal(port));
    var t := TargetOf(host, port);
    if Utf8.Ascii(t) {
      forall i | 0 <= i < |host|
        ensures host[i] as int < 0x80
      {
        assert t[i] == host[i];
      }
    }
  }

  lemma OneFrame(f: Frame)
    ensures WireSize([f]) == 4 + f.EncodedLen() && StatedSize([f]) == 4 + f.MarshalSize()
    ensures AllPackable([f]) <==> Packable(f) && f.MarshalSize() < Pow256(4)
    ensures MaskAll([f]) == [f.Masked()]
  {
    OneSize(f);
    assert [f][1..] == [];
    assert AllPackable([f]) ==> Packable([f][0]) && [f][0].MarshalSize() < Pow256(4);
  }

  /** A batch with nothing but a SYN can be encoded exactly when the host is ASCII and short enough. */
  lemma SynEncodable(cid: Bytes, sid: Bytes, host: string, port: nat)
    requires |cid| == CLIENT_ID_LEN && |sid| == SESSION_ID_LEN
    ensures Encodable(cid, [V.SynFrame(sid, TargetOf(host, port))])
            <==> Utf8.Ascii(host) && |host| + 1 + DecimalLength(port) <= 255
  {
    hide TargetOf, Utf8.Ascii, Utf8.Encode, Packable;
    var syn := V.SynFrame(sid, TargetOf(host, port));
    TargetSize(host, port);
    Utf8.EncodeLength(syn.target);
    OneFrame(syn);
    Pow256Values();
    assert Packable(syn) <==> |Utf8.Encode(syn.target)| <= 255 by { SynPackable(sid, syn.target); }
  }

  lemma SynPackable(sid: Bytes, target: string)
    requires |sid| == SESSION_ID_LEN
    ensures Packable(V.SynFrame(sid, target)) <==> |Utf8.Encode(target)| <= 255
  {
    Pow256Values();
  }

  /**
   * When it can, the server decodes the same SYN, opens a session for it if there was none, starts
   * one upstream worker, and connects to the host and port the SOCKS client asked for.
   */
  lemma SynReachesServer(p: Primitives, st: A.Skip, nonce: Bytes, cid: Bytes, sid: Bytes, host: string, port: nat,
                         pool: Pools.PoolState, now: real)
    requires Lawful(p) && |nonce| == NONCE_LEN && port < 0x1_0000
    requires |cid| == CLIENT_ID_LEN && |sid| == SESSION_ID_LEN
    requires Utf8.Ascii(host) && |host| + 1 + DecimalLength(port) <= 255
    ensures var syn := V.SynFrame(sid, TargetOf(host, port));
            && Encodable(cid, [syn])
            && DecodeOf(p, WireForm(p, st, nonce, cid, [syn])) == Ok((cid, [syn]))
            && var d := Exit.HandleAll(Exit.Demux(pool, [], []), [syn], false, now);
            && d.spawned == [sid] && d.replies == []
            && sid in d.pool.sessions
            && (sid !in pool.sessions ==> ParseTarget(d.pool.sessions[sid].target) == (host, port))
  {
    hide TargetOf, Utf8.Ascii, Encodable, DecodeOf, WireForm, Lawful, ParseTarget;
    var syn := V.SynFrame(sid, TargetOf(host, port));
    SynEncodable(cid, sid, host, port);
    EncodableIsPackable(cid, [syn]);
    BatchRoundTrip(p, st, nonce, cid, [syn]);
    OneFrame(syn);
    TargetRoundTrip(host, port);
    SynOpens(sid, TargetOf(host, port), pool, now);
  }

  lemma EncodableIsPackable(cid: Bytes, fs: seq<Frame>)
    requires Encodable(cid, fs)
    ensures AllPackable(fs)
  {
  }

  lemma SynOpens(sid: Bytes, target: string, pool: Pools.PoolState, now: real)
    ensures var syn := V.SynFrame(sid, target);
            var d := Exit.HandleAll(Exit.Demux(pool, [], []), [syn], false, now);
            && d.spawned == [sid] && d.replies == [] && sid in d.pool.sessions
            && (sid !in pool.sessions ==> d.pool.sessions[sid].target == target)
  {
    var syn := V.SynFrame(sid, target);
    assert [syn][..0] == [];
    assert Exit.HandleAll(Exit.Demux(pool, [], []), [syn], false, now)
        == Exit.Handle(Exit.Demux(pool, [], []), syn, false, now);
    assert [] + [sid] == [sid];
  }
}
