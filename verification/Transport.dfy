/** Batches and replies on their way: what the pools hand over is what the other side decodes. */
module Transport {
  import opened Octets
  import opened Wrappers
  import opened Frames
  import opened Chunks
  import opened Encoder
  import opened Codec
  import opened Pools
  import A = Adaptive
  import Utf8
  import Carrier
  import Exit
  import Stream
  import Connect
  import Sending
  import T = Targets
  import V = VirtualConns

  const UPSTREAM_READ_BUF := 262144

  /** Fits the wire format with an ASCII target: every frame but a SYN has an empty one. */
  predicate Sendable(f: Frame) {
    Packable(f) && Utf8.Ascii(f.target) && f.MarshalSize() < Pow256(4) && f.flags < 256
  }

  predicate AllSendable(fs: seq<Frame>) {
    forall i | 0 <= i < |fs| :: Sendable(fs[i])
  }

  ghost predicate QueuesSendable(p: PoolState) {
    forall id | id in p.sessions :: AllSendable(p.sessions[id].txQ)
  }

  lemma {:induction false} MaskNothing(fs: seq<Frame>)
    requires AllSendable(fs)
    ensures MaskAll(fs) == fs
  {
    if fs != [] {
      MaskNothing(fs[1..]);
      assert fs == [fs[0]] + fs[1..];
    }
  }

  /** Any number of such frames that fits the count field is encodable and decodes to itself. */
  lemma SendableDecodes(p: Primitives, st: A.Skip, nonce: Bytes, cid: Bytes, fs: seq<Frame>)
    requires Lawful(p) && |nonce| == NONCE_LEN && |cid| == CLIENT_ID_LEN && AllSendable(fs)
    ensures Encodable(cid, fs) <==> |fs| < 0x1_0000
    ensures |fs| < 0x1_0000 ==> DecodeOf(p, WireForm(p, st, nonce, cid, fs)) == Ok((cid, fs))
  {
    hide Lawful, Encodable, WireForm, DecodeOf, Packable, Utf8.Ascii;
    Pow256Values();
    AsciiIsEncodable(cid, fs);
    MaskNothing(fs);
    if |fs| < 0x1_0000 {
      BatchRoundTrip(p, st, nonce, cid, fs);
    }
  }

  // ----- the client's batches -----

  lemma {:induction false} BatchSendable(p: PoolState, ids: seq<Bytes>, n: nat, j: nat)
    requires Carrier.Visitable(p, ids) && QueuesSendable(p) && j <= |ids|
    ensures AllSendable(Carrier.BatchAt(p, ids, n, j))
  {
    hide Sendable, Carrier.Fit, Carrier.TotalAt;
    if j > 0 {
      BatchSendable(p, ids, n, j - 1);
      assert AllSendable(p.sessions[ids[j - 1]].txQ);
    }
  }

  lemma {:induction false} FramesHaveSize(fs: seq<Frame>)
    ensures Carrier.SizeSum(fs) >= HEADER_LEN * |fs|
  {
    if fs != [] {
      FramesHaveSize(fs[..|fs| - 1]);
    }
  }

  /** A chunk whose frame still fits the 32 bits of a length prefix. */
  const MAX_CHUNK := 0xFFFF_FFFF - HEADER_LEN

  /** A host whose target is ASCII and fits its length byte. */
  predicate HostFits(host: string, port: nat) {
    Utf8.Ascii(host) && |host| + 1 + T.DecimalLength(port) <= 255
  }

  /** Passes keep within their budget and chunks fit a frame. */
  ghost predicate Manageable(run: seq<(V.Step, real)>) {
    && |run| < 0x1_0000_0000_0000_0000
    && V.WithinBudget(run)
    && forall i | 0 <= i < |run| && run[i].0.Write? :: |run[i].0.data| <= MAX_CHUNK
  }

  /** Every frame the connection has queued can be sent, and so will those of the chunks it holds. */
  ghost predicate TraceSendable(t: V.Trace, steps: nat) {
    && |t.c.session.id| == SESSION_ID_LEN
    && |t.taken| <= steps
    && AllSendable(t.log)
    && (forall i | 0 <= i < |t.c.queue| :: |t.c.queue[i]| <= MAX_CHUNK)
    && (forall i | 0 <= i < |t.c.waiting| :: |t.c.waiting[i]| <= MAX_CHUNK)
  }

  lemma FramesSendable(id: Bytes, n: nat, data: Bytes)
    requires |id| == SESSION_ID_LEN && n < 0x1_0000_0000_0000_0000 && |data| <= MAX_CHUNK
    ensures Sendable(DataFrame(id, n, data)) && Sendable(FinFrame(id)) && Sendable(RstFrame(id, data))
  {
    Pow256Values();
    assert Utf8.Encode("") == [];
  }

  lemma SynSendable(id: Bytes, host: string, port: nat)
    requires |id| == SESSION_ID_LEN && HostFits(host, port)
    ensures Sendable(V.SynFrame(id, T.TargetOf(host, port)))
  {
    hide T.TargetOf, Utf8.Ascii, Utf8.Encode, Packable;
    Connect.TargetSize(host, port);
    Utf8.EncodeLength(T.TargetOf(host, port));
    Connect.SynPackable(id, T.TargetOf(host, port));
    Pow256Values();
  }

  lemma TraceStep(t: V.Trace, step: V.Step, now: real, steps: nat)
    requires V.Kept(t.c.session.id, t) && TraceSendable(t, steps) && steps < 0x1_0000_0000_0000_0000
    requires step.Write? ==> |step.data| <= MAX_CHUNK
    ensures TraceSendable(V.Next(t, step, now), steps + 1)
  {
    hide Sendable, V.Data, DataFrame, DataFrames, Carrier.Taken, V.Left;
    match step
    case TxTurn =>
      if t.c.looping && t.c.queue != [] {
        FramesSendable(t.c.session.id, |t.taken|, t.c.queue[0]);
      }
    case Finish =>
      FramesSendable(t.c.session.id, 0, []);
    case Visit(n, total) =>
      V.VisitKeepsIdentity(t.c.session, n, total, now);
    case Write(data) =>
    case Admit(k) =>
    case Close =>
  }

  lemma {:induction false} TraceOverRuns(id: Bytes, host: string, port: nat, start: real, run: seq<(V.Step, real)>)
    requires |id| == SESSION_ID_LEN && HostFits(host, port) && Manageable(run)
    ensures var t := V.After(V.Begin(id, host, port, start), run);
            TraceSendable(t, |run|) && V.Kept(id, t)
  {
    hide V.Next, V.Kept, V.Begin, TraceSendable, HostFits;
    var b := V.Begin(id, host, port, start);
    if run == [] {
      V.BeginKept(id, host, port, start);
      BeginSendable(id, host, port, start);
    } else {
      var init := run[..|run| - 1];
      var t := V.After(b, init);
      var (step, now) := run[|run| - 1];
      TraceOverRuns(id, host, port, start, init);
      Sending.SameId(id, t);
      TraceStep(t, step, now, |init|);
      V.NextKept(id, t, step, now);
    }
  }

  lemma BeginSendable(id: Bytes, host: string, port: nat, start: real)
    requires |id| == SESSION_ID_LEN && HostFits(host, port)
    ensures TraceSendable(V.Begin(id, host, port, start), 0)
  {
    hide Sendable, T.TargetOf, HostFits;
    SynSendable(id, host, port);
  }

  /** Where the queue of a pooled session comes from. */
  datatype Origin = Origin(host: string, port: nat, start: real, run: seq<(V.Step, real)>)

  /** Every queue of the client's pool is that of some connection to a host that fits. */
  ghost predicate FromConnections(pool: PoolState, origin: Bytes -> Origin) {
    forall id | id in pool.sessions ::
      var o := origin(id);
      && |id| == SESSION_ID_LEN && HostFits(o.host, o.port) && Manageable(o.run)
      && pool.sessions[id].txQ == V.After(V.Begin(id, o.host, o.port, o.start), o.run).c.session.txQ
  }

  /** So the client's queues hold only what can be sent, after any runs of its connections. */
  lemma ClientQueuesSendable(pool: PoolState, origin: Bytes -> Origin)
    requires FromConnections(pool, origin)
    ensures QueuesSendable(pool)
  {
    hide Sendable, V.After, V.Begin, Manageable, HostFits, V.Data, DataFrames;
    forall id | id in pool.sessions
      ensures AllSendable(pool.sessions[id].txQ)
    {
      var o := origin(id);
      TraceOverRuns(id, o.host, o.port, o.start, o.run);
      var t := V.After(V.Begin(id, o.host, o.port, o.start), o.run);
      assert forall i | 0 <= i < |t.c.session.txQ| :: t.c.session.txQ[i] == t.log[|t.gone| + i];
    }
  }

  /** A worker's batch is never too long for the count field, and the server decodes exactly it. */
  lemma ClientBatchDecodes(p: Primitives, st: A.Skip, nonce: Bytes, cid: Bytes, pool: PoolState, w: nat, n: nat)
    requires Lawful(p) && |nonce| == NONCE_LEN && |cid| == CLIENT_ID_LEN
    requires WellFormed(pool) && QueuesSendable(pool)
    ensures var batch := Carrier.BatchOf(pool, w, n);
            Encodable(cid, batch) && DecodeOf(p, WireForm(p, st, nonce, cid, batch)) == Ok((cid, batch))
  {
    hide Lawful, Encodable, WireForm, DecodeOf, AllSendable;
    var ids := Carrier.Stripe(pool.order, w);
    Carrier.StripeVisitable(pool, w);
    BatchSendable(pool, ids, n, |ids|);
    Carrier.WithinBudget(pool, ids, n, |ids|);
    FramesHaveSize(Carrier.BatchAt(pool, ids, n, |ids|));
    SendableDecodes(p, st, nonce, cid, Carrier.BatchOf(pool, w, n));
  }

  // ----- the server's replies -----

  lemma {:induction false} PollSendable(p: PoolState, k: nat)
    requires QueuesSendable(p) && k <= |p.order|
    ensures AllSendable(Exit.PollFrames(p, k))
  {
    hide Sendable;
    if k > 0 {
      PollSendable(p, k - 1);
    }
  }

  /** A reply is encodable exactly up to 65535 frames, and then the client decodes exactly it. */
  lemma ReplyDecodes(p: Primitives, st: A.Skip, nonce: Bytes, cid: Bytes, pool: PoolState)
    requires Lawful(p) && |nonce| == NONCE_LEN && |cid| == CLIENT_ID_LEN
    requires QueuesSendable(pool)
    ensures var reply := Exit.PollFrames(pool, |pool.order|);
            && (Encodable(cid, reply) <==> |reply| < 0x1_0000)
            && (|reply| < 0x1_0000 ==> DecodeOf(p, WireForm(p, st, nonce, cid, reply)) == Ok((cid, reply)))
  {
    hide Lawful, Encodable, WireForm, DecodeOf, QueuesSendable, AllSendable;
    PollSendable(pool, |pool.order|);
    SendableDecodes(p, st, nonce, cid, Exit.PollFrames(pool, |pool.order|));
  }

  // ----- over every run of the server-to-client stream -----

  /** Upstream reads are as long as the read buffer allows, and other sessions send what fits the wire. */
  ghost predicate Ordinary(run: seq<(Stream.Step, real)>) {
    forall i | 0 <= i < |run| ::
      match run[i].0
      case UpstreamRead(data) => |data| <= UPSTREAM_READ_BUF
      case DialFails(error) => |error| <= MAX_CHUNK
      case OtherSend(f) => Sendable(f)
      case _ => true
  }

  ghost predicate RepliesSendable(w: Stream.World, steps: nat) {
    && |w.id| == SESSION_ID_LEN
    && |w.h.chunks| <= steps
    && QueuesSendable(w.server)
    && forall k | 0 <= k < |w.flight| :: AllSendable(w.flight[k])
  }

  lemma SendKeeps(p: PoolState, id: Bytes, f: Frame, now: real)
    requires WellFormed(p) && QueuesSendable(p) && Sendable(f)
    ensures QueuesSendable(Stream.SendOn(p, id, f, now))
  {
    hide Sendable;
    var q := Stream.SendOn(p, id, f, now);
    forall k | k in q.sessions
      ensures AllSendable(q.sessions[k].txQ)
    {
      assert k in p.sessions && AllSendable(p.sessions[k].txQ);
    }
  }

  lemma PollKeeps(p: PoolState)
    requires WellFormed(p) && QueuesSendable(p)
    ensures QueuesSendable(Exit.PollDrained(p, |p.order|))
  {
    hide Sendable, Exit.PollDrained;
    Exit.PollEntries(p, |p.order|);
    var q := Exit.PollDrained(p, |p.order|);
    forall id | id in q.sessions
      ensures AllSendable(q.sessions[id].txQ)
    {
      var i :| 0 <= i < |p.order| && p.order[i] == id;
      assert AllSendable(p.sessions[id].txQ);
    }
  }

  lemma StepKeeps(w: Stream.World, step: Stream.Step, now: real, steps: nat)
    requires Stream.Running(w) && RepliesSendable(w, steps) && steps < 0x1_0000_0000_0000_0000
    requires Ordinary([(step, now)])
    ensures RepliesSendable(Stream.Next(w, step, now), steps + 1)
  {
    hide Sendable, AllSendable, QueuesSendable, Stream.SendOn, Exit.PollFrames, Exit.PollDrained,
      Carrier.DispatchedAll, Carrier.OwnFrames, Stream.ReadOn, Frame.Has;
    assert [(step, now)][0].0 == step;
    match step
    case UpstreamRead(data) =>
      if w.h.upstream == Stream.Open && data != [] {
        FramesSendable(w.id, |w.h.chunks|, data);
        SendKeeps(w.server, w.id, DataFrame(w.id, |w.h.chunks|, data), now);
      }
    case UpstreamEof =>
      FramesSendable(w.id, 0, []);
      SendKeeps(w.server, w.id, FinFrame(w.id), now);
    case DialFails(error) =>
      FramesSendable(w.id, 0, error);
      SendKeeps(w.server, w.id, RstFrame(w.id, error), now);
    case OtherSend(f) =>
      SendKeeps(w.server, f.sid, f, now);
    case PollDrain =>
      PollSendable(w.server, |w.server.order|);
      PollKeeps(w.server);
    case DispatchReply(k) =>
    case ClientRead =>
    case OtherRead(sid) =>
  }

  lemma {:induction false} SendableOverRuns(w: Stream.World, run: seq<(Stream.Step, real)>)
    requires Stream.Running(w) && RepliesSendable(w, 0) && Ordinary(run) && |run| < 0x1_0000_0000_0000_0000
    ensures RepliesSendable(Stream.After(w, run), |run|)
  {
    hide Stream.Next, Stream.Running, RepliesSendable;
    if run != [] {
      var init := run[..|run| - 1];
      var (step, now) := run[|run| - 1];
      SendableOverRuns(w, init);
      Stream.AfterRuns(w, init);
      assert Ordinary([run[|run| - 1]]);
      StepKeeps(Stream.After(w, init), step, now, |init|);
    }
  }

  /**
   * Over every run, each reply in flight is what the client decodes from its wire form, whatever
   * the adaptive state, unless it has more than 65535 frames; so the dispatch of a reply in flight
   * is the dispatch of what was decoded.
   */
  lemma RepliesDecode(p: Primitives, st: A.Skip, nonce: Bytes, cid: Bytes,
                      w: Stream.World, run: seq<(Stream.Step, real)>, k: nat)
    requires Lawful(p) && |nonce| == NONCE_LEN && |cid| == CLIENT_ID_LEN
    requires Stream.Running(w) && Stream.Initial(w) && |w.id| == SESSION_ID_LEN && QueuesSendable(w.server)
    requires Ordinary(run) && |run| < 0x1_0000_0000_0000_0000
    requires k < |Stream.After(w, run).flight|
    ensures var reply := Stream.After(w, run).flight[k];
            && (Encodable(cid, reply) <==> |reply| < 0x1_0000)
            && (|reply| < 0x1_0000 ==> DecodeOf(p, WireForm(p, st, nonce, cid, reply)) == Ok((cid, reply)))
  {
    hide Lawful, Encodable, WireForm, DecodeOf, QueuesSendable, AllSendable, Stream.Running, Stream.After, Ordinary;
    SendableOverRuns(w, run);
    SendableDecodes(p, st, nonce, cid, Stream.After(w, run).flight[k]);
  }
}
