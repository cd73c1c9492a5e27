/**
 * The client-to-server direction of one connection: its writes, the drain passes, the batches that
 * reach the server in the order they were drained, and the writers of the upstream connections, of
 * which the server starts one for every SYN.
 */
module Upload {
  import opened Octets
  import opened Wrappers
  import opened Frames
  import opened Chunks
  import opened Sessions
  import opened Pools
  import opened Sending
  import Carrier
  import Exit
  import T = Targets
  import V = VirtualConns

  /** An upstream writer: frames consumed, bytes written, and whether it has stopped, by a FIN or otherwise. */
  datatype Writer = Writer(consumed: seq<Frame>, written: Bytes, sawFin: bool, stopped: bool)

  const STARTED := Writer([], [], false, false)

  /**
   * `arrived` counts the connection's frames on the wire that the server has handled, `popped` are
   * the frames its writers took off the session's queue, in the order they did.
   */
  datatype World = World(t: V.Trace, arrived: nat, pool: PoolState, popped: seq<Frame>, writers: seq<Writer>)

  datatype Step =
    | Client(step: V.Step)
    | Arrive(batch: seq<Frame>)
    | WriterTurn(k: nat)
    | WriterStops(k: nat)

  function IdOf(w: World): Bytes {
    w.t.c.session.id
  }

  function RxQueue(e: Option<SessionState>): seq<Frame> {
    if e.Some? then e.value.rxQ else []
  }

  /** What the connection's session on the server has still queued. */
  function RxOf(w: World): seq<Frame> {
    RxQueue(Exit.EntryOf(w.pool, IdOf(w)))
  }

  /** The batch is one whose share of the connection comes next on the wire. */
  predicate ComesNext(w: World, batch: seq<Frame>) {
    w.arrived <= |w.t.wire| && Carrier.OfSession(batch, IdOf(w)) <= w.t.wire[w.arrived..]
  }

  /** A turn of `write_downstream`: a FIN or RST ends it, other payloads are written. */
  function Consumed(x: Writer, f: Frame): Writer {
    if Ends(f) then Writer(x.consumed + [f], x.written, true, true)
    else x.(consumed := x.consumed + [f], written := x.written + f.payload)
  }

  function Next(w: World, step: Step, now: real): World {
    match step
    case Client(s) => w.(t := V.Next(w.t, s, now))
    case Arrive(batch) =>
      if !ComesNext(w, batch) then w
      else
        var d := Exit.HandleAll(Exit.Demux(w.pool, [], []), batch, false, now);
        w.(arrived := w.arrived + |Carrier.OfSession(batch, IdOf(w))|, pool := d.pool,
           writers := w.writers + seq(Exit.Count(d.spawned, IdOf(w)), _ => STARTED))
    case WriterTurn(k) =>
      if k >= |w.writers| || w.writers[k].stopped || RxOf(w) == [] then w
      else
        var s := w.pool.sessions[IdOf(w)];
        w.(pool := w.pool.(sessions := w.pool.sessions[IdOf(w) := PopRx(s)]),
           popped := w.popped + [s.rxQ[0]],
           writers := w.writers[k := Consumed(w.writers[k], s.rxQ[0])])
    case WriterStops(k) =>
      if k < |w.writers| then w.(writers := w.writers[k := w.writers[k].(stopped := true)]) else w
  }

  function Start(id: Bytes, host: string, port: nat, now: real, pool: PoolState): World {
    World(V.Begin(id, host, port, now), 0, pool, [], [])
  }

  /** The world after a run, which takes each step at its time. */
  function After(w: World, run: seq<(Step, real)>): World {
    if run == [] then w
    else Next(After(w, run[..|run| - 1]), run[|run| - 1].0, run[|run| - 1].1)
  }

  /** The steps of the client alone. */
  function ClientSteps(run: seq<(Step, real)>): seq<(V.Step, real)> {
    if run == [] then []
    else
      ClientSteps(run[..|run| - 1])
      + match run[|run| - 1].0 case Client(s) => [(s, run[|run| - 1].1)] case _ => []
  }

  lemma {:induction false} ClientPart(w: World, run: seq<(Step, real)>)
    ensures After(w, run).t == V.After(w.t, ClientSteps(run))
  {
    hide V.Next;
    if run != [] {
      ClientPart(w, run[..|run| - 1]);
      var steps := ClientSteps(run);
      assert run[|run| - 1].0.Client? ==> steps[..|steps| - 1] == ClientSteps(run[..|run| - 1]);
      assert ClientSteps(run[..|run| - 1]) + [] == ClientSteps(run[..|run| - 1]);
    }
  }

  // ----- what every step keeps -----

  /** Every drain pass keeps within its byte budget. */
  ghost predicate WithinBudget(run: seq<(Step, real)>) {
    V.WithinBudget(ClientSteps(run))
  }

  /** The trace of the connection is one that `VirtualConns` and `Sending` describe. */
  ghost predicate OnTrack(t: V.Trace, syn: Frame, k: nat) {
    V.Kept(t.c.session.id, t) && Shape(t, syn, k) && Tracked(t)
  }

  /** The server's session has received what arrived, SYNs aside. */
  ghost predicate Received(w: World) {
    && w.arrived <= |w.t.wire|
    && (w.arrived > 0 <==> Exit.EntryOf(w.pool, IdOf(w)).Some?)
    && w.popped + RxOf(w) == PastSyn(w.t.wire[..w.arrived])
  }

  /** There is one writer for every SYN that arrived, and a single one has consumed all that was popped. */
  ghost predicate Manned(w: World) {
    && w.arrived <= |w.t.wire|
    && |w.writers| == Exit.SynCount(w.t.wire[..w.arrived])
    && (w.writers == [] ==> w.popped == [])
    && (|w.writers| == 1 ==> w.popped == w.writers[0].consumed)
    && forall k | 0 <= k < |w.writers| :: WriterState(w.writers[k])
  }

  ghost predicate Served(w: World) {
    Received(w) && Manned(w)
  }

  /** The writer has written the payloads it consumed before the first FIN. */
  ghost predicate WriterState(x: Writer) {
    if x.sawFin then
      x.consumed != [] && Ends(x.consumed[|x.consumed| - 1]) && x.stopped
      && x.written == Payloads(x.consumed[..|x.consumed| - 1])
    else
      x.written == Payloads(x.consumed) && forall f | f in x.consumed :: !Ends(f)
  }

  lemma ConsumedKeeps(x: Writer, f: Frame)
    requires WriterState(x) && !x.stopped
    ensures WriterState(Consumed(x, f))
  {
    PayloadsSnoc(x.consumed, f);
    hide Frame.Has, Payloads;
    var fs := x.consumed + [f];
    assert fs[|fs| - 1] == f && fs[..|fs| - 1] == x.consumed;
  }

  lemma ClientServed(w: World, step: V.Step, now: real)
    requires Served(w)
    ensures Served(Next(w, Client(step), now))
  {
    hide WriterState, V.Next, PastSyn, Exit.SynCount;
    var u := V.Next(w.t, step, now);
    WireGrows(w.t, step, now);
    assert u.wire[..w.arrived] == w.t.wire[..w.arrived];
  }

  lemma WireGrows(t: V.Trace, step: V.Step, now: real)
    ensures t.wire <= V.Next(t, step, now).wire
    ensures V.Next(t, step, now).c.session.id == t.c.session.id
  {
    hide Carrier.Taken;
  }

  /** A frame of the connection: its SYN, its FIN or one without flags. */
  predicate Ours(f: Frame, syn: Frame) {
    f == syn || f.flags == 0 || f == FinFrame(syn.sid)
  }

  lemma WireFrames(t: V.Trace, syn: Frame, k: nat)
    requires OnTrack(t, syn, k)
    ensures syn == V.SynFrame(t.c.session.id, syn.target)
    ensures t.wire != [] ==> t.wire[0] == syn
    ensures forall i | 0 <= i < |t.wire| :: Ours(t.wire[i], syn)
  {
    PastSynOfLog(t, syn, k);
    LogAt(t, syn, k, 0);
    assert FromLog(t) && syn == V.SynFrame(t.c.session.id, syn.target);
    hide V.Kept, Tracked, PastSyn, Shape;
    forall i | 0 <= i < |t.wire|
      ensures Ours(t.wire[i], syn)
    {
      var j :| 0 <= j < |t.log| && t.log[j] == t.wire[i];
    }
  }

  lemma OurFlags(f: Frame, syn: Frame)
    requires syn == V.SynFrame(syn.sid, syn.target) && Ours(f, syn)
    ensures !Exit.Kills(f) && (f.Has(SYN) <==> f == syn) && (Exit.Delivers(f) <==> !f.Has(SYN))
    ensures Ends(f) <==> f == FinFrame(syn.sid)
  {
  }

  lemma {:induction false} OursDelivered(fs: seq<Frame>, syn: Frame)
    requires syn == V.SynFrame(syn.sid, syn.target) && forall i | 0 <= i < |fs| :: Ours(fs[i], syn)
    ensures Exit.NoKill(fs) && Exit.Delivered(fs) == PastSyn(fs)
  {
    hide Ours, Exit.Kills, Exit.Delivers, Frame.Has, V.SynFrame;
    if fs != [] {
      OursDelivered(fs[..|fs| - 1], syn);
      OurFlags(fs[|fs| - 1], syn);
    }
  }

  /** What frames of the connection do to its session on the server. */
  lemma Receives(e: Option<SessionState>, own: seq<Frame>, syn: Frame, now: real)
    requires syn == V.SynFrame(syn.sid, syn.target) && forall i | 0 <= i < |own| :: Ours(own[i], syn)
    requires own != [] && (e.None? ==> own[0] == syn)
    ensures var r := Exit.EntryAfter(e, own, now);
            r.Some? && RxQueue(r) == RxQueue(e) + PastSyn(own)
  {
    OursDelivered(own, syn);
    OurFlags(syn, syn);
    hide Exit.Kills, Exit.Delivers, Frame.Has, Exit.EntryAfter, Ours, V.SynFrame, PastSyn;
    if e.None? {
      Exit.ReceivedFromBatch(e, own, 0, 0, now);
      OursDelivered(own[1..], syn);
      assert own == [syn] + own[1..];
      PastSynAppend([syn], own[1..]);
      PastSynOfSyn(syn);
      assert [] + PastSyn(own[1..]) == PastSyn(own[1..]);
    } else {
      Exit.LiveReceives(e.value, own, now);
    }
  }

  lemma PastSynOfSyn(syn: Frame)
    requires syn.Has(SYN)
    ensures PastSyn([syn]) == []
  {
    assert [syn][..0] == [];
  }

  lemma {:induction false} SynCountAppend(a: seq<Frame>, b: seq<Frame>)
    ensures Exit.SynCount(a + b) == Exit.SynCount(a) + Exit.SynCount(b)
  {
    hide Frame.Has;
    if b == [] {
      assert a + b == a;
    } else {
      assert (a + b)[..|a + b| - 1] == a + b[..|b| - 1];
      SynCountAppend(a, b[..|b| - 1]);
    }
  }

  lemma NextAreOurs(w: World, syn: Frame, k: nat, own: seq<Frame>)
    requires OnTrack(w.t, syn, k) && Served(w) && own <= w.t.wire[w.arrived..]
    ensures syn == V.SynFrame(IdOf(w), syn.target)
    ensures forall i | 0 <= i < |own| :: Ours(own[i], syn)
    ensures own != [] && Exit.EntryOf(w.pool, IdOf(w)).None? ==> own[0] == syn
  {
    WireFrames(w.t, syn, k);
    hide OnTrack, V.SynFrame, Ours, Manned, RxOf, PastSyn;
    SliceIsOurs(w.t.wire, own, w.arrived, syn);
  }

  lemma SliceIsOurs(wire: seq<Frame>, own: seq<Frame>, a: nat, syn: Frame)
    requires a <= |wire| && own <= wire[a..] && forall i | 0 <= i < |wire| :: Ours(wire[i], syn)
    ensures forall i | 0 <= i < |own| :: Ours(own[i], syn)
    ensures a == 0 && own != [] ==> own[0] == wire[0]
  {
    hide Ours;
    assert forall i | 0 <= i < |own| :: own[i] == wire[a + i];
  }

  /** The connection's frames in a batch: what they do to the session, and how many writers they start. */
  lemma ArrivalReceived(w: World, syn: Frame, k: nat, batch: seq<Frame>, now: real)
    requires OnTrack(w.t, syn, k) && Served(w) && ComesNext(w, batch)
    ensures var own, u := Carrier.OfSession(batch, IdOf(w)), Next(w, Arrive(batch), now);
            && (Exit.EntryOf(u.pool, IdOf(w)).Some? <==> own != [] || Exit.EntryOf(w.pool, IdOf(w)).Some?)
            && RxOf(u) == RxOf(w) + PastSyn(own)
            && u.writers == w.writers + seq(Exit.SynCount(own), _ => STARTED)
  {
    var d, own := Exit.Demux(w.pool, [], []), Carrier.OfSession(batch, IdOf(w));
    var e := Exit.EntryOf(w.pool, IdOf(w));
    NextAreOurs(w, syn, k, own);
    Exit.EntryOfBatch(d, batch, IdOf(w), false, now);
    Exit.SpawnsAndReplies(d, batch, IdOf(w), false, now);
    assert Exit.Count(d.spawned, IdOf(w)) == 0;
    hide OnTrack, Served, V.SynFrame, Exit.HandleAll, Exit.EntryAfter, Exit.EntryOf, Carrier.OfSession, Ours, RxQueue,
      Exit.SynCount, PastSyn, Exit.Count;
    ReceivesAny(e, own, syn, now);
  }

  lemma ReceivesAny(e: Option<SessionState>, own: seq<Frame>, syn: Frame, now: real)
    requires syn == V.SynFrame(syn.sid, syn.target) && forall i | 0 <= i < |own| :: Ours(own[i], syn)
    requires own != [] && e.None? ==> own[0] == syn
    ensures var r := Exit.EntryAfter(e, own, now);
            && (r.Some? <==> own != [] || e.Some?)
            && RxQueue(r) == RxQueue(e) + PastSyn(own)
  {
    hide V.SynFrame, Exit.EntryAfter, Ours, RxQueue, PastSyn;
    if own == [] {
      NothingArrives(e, now);
      assert RxQueue(e) + [] == RxQueue(e);
    } else {
      Receives(e, own, syn, now);
    }
  }

  lemma NothingArrives(e: Option<SessionState>, now: real)
    ensures Exit.EntryAfter(e, [], now) == e && PastSyn([]) == []
  {
  }

  lemma ArriveServed(w: World, syn: Frame, k: nat, batch: seq<Frame>, now: real)
    requires OnTrack(w.t, syn, k) && Served(w) && ComesNext(w, batch)
    ensures Served(Next(w, Arrive(batch), now))
  {
    hide OnTrack, Next, More, ComesNext, Received, Manned, Carrier.OfSession, Exit.SynCount, PastSyn, Exit.EntryOf,
      RxOf;
    var own, u := Carrier.OfSession(batch, IdOf(w)), Next(w, Arrive(batch), now);
    ArrivalReceived(w, syn, k, batch, now);
    ArrivalMoves(w, batch, now);
    MoreReceived(w, u, own);
    MoreManned(w, u, own);
  }

  lemma ArrivalMoves(w: World, batch: seq<Frame>, now: real)
    requires ComesNext(w, batch)
    ensures More(w, Next(w, Arrive(batch), now), Carrier.OfSession(batch, IdOf(w)))
  {
    hide Exit.HandleAll, Carrier.OfSession, Exit.Count;
    var own, wire, n := Carrier.OfSession(batch, IdOf(w)), w.t.wire, w.arrived;
    assert own == wire[n..][..|own|];
    assert wire[..n + |own|] == wire[..n] + own;
  }

  /** The connection's next frames have arrived. */
  ghost predicate More(w: World, u: World, own: seq<Frame>) {
    && u.t == w.t && u.popped == w.popped && u.arrived == w.arrived + |own| <= |w.t.wire|
    && w.t.wire[..u.arrived] == w.t.wire[..w.arrived] + own
  }

  lemma MoreReceived(w: World, u: World, own: seq<Frame>)
    requires Received(w) && More(w, u, own) && RxOf(u) == RxOf(w) + PastSyn(own)
    requires Exit.EntryOf(u.pool, IdOf(w)).Some? <==> own != [] || Exit.EntryOf(w.pool, IdOf(w)).Some?
    ensures Received(u)
  {
    hide PastSyn, RxOf, Exit.EntryOf;
    PastSynAppend(w.t.wire[..w.arrived], own);
    assert w.popped + (RxOf(w) + PastSyn(own)) == w.popped + RxOf(w) + PastSyn(own);
  }

  lemma MoreManned(w: World, u: World, own: seq<Frame>)
    requires Manned(w) && More(w, u, own) && u.writers == w.writers + seq(Exit.SynCount(own), _ => STARTED)
    ensures Manned(u)
  {
    hide Exit.SynCount, WriterState;
    SynCountAppend(w.t.wire[..w.arrived], own);
    WritersJoin(w.writers, Exit.SynCount(own));
  }

  lemma WritersJoin(ws: seq<Writer>, n: nat)
    requires forall k | 0 <= k < |ws| :: WriterState(ws[k])
    ensures var us := ws + seq(n, _ => STARTED);
            && (forall k | 0 <= k < |us| :: WriterState(us[k]))
            && (|us| == 1 ==> if ws == [] then us[0].consumed == [] else us[0] == ws[0])
            && (us == [] ==> ws == [])
  {
  }

  lemma TurnServed(w: World, k: nat, now: real)
    requires Served(w)
    ensures Served(Next(w, WriterTurn(k), now))
  {
    hide WriterState, PastSyn, Exit.SynCount, Consumed;
    if k < |w.writers| && !w.writers[k].stopped && RxOf(w) != [] {
      var q := RxOf(w);
      ConsumedKeeps(w.writers[k], q[0]);
      ConsumedAdds(w.writers[k], q[0]);
      assert w.popped + [q[0]] + q[1..] == w.popped + q;
    }
  }

  lemma ConsumedAdds(x: Writer, f: Frame)
    ensures Consumed(x, f).consumed == x.consumed + [f]
  {
  }

  lemma StopServed(w: World, k: nat, now: real)
    requires Served(w)
    ensures Served(Next(w, WriterStops(k), now))
  {
    hide PastSyn, Exit.SynCount, Payloads, Ends;
  }

  lemma StepServed(w: World, syn: Frame, k: nat, step: Step, now: real)
    requires OnTrack(w.t, syn, k) && Served(w)
    ensures Served(Next(w, step, now))
  {
    hide OnTrack, Served;
    match step
    case Client(s) => ClientServed(w, s, now);
    case Arrive(batch) =>
      if ComesNext(w, batch) {
        ArriveServed(w, syn, k, batch, now);
      }
    case WriterTurn(i) => TurnServed(w, i, now);
    case WriterStops(i) => StopServed(w, i, now);
  }

  lemma StartServed(id: Bytes, host: string, port: nat, start: real, pool: PoolState)
    requires id !in pool.sessions
    ensures Served(Start(id, host, port, start, pool))
  {
    var w := Start(id, host, port, start, pool);
    assert w.t.wire[..0] == [];
  }

  lemma OnTrackOverRuns(id: Bytes, host: string, port: nat, start: real, pool: PoolState, run: seq<(Step, real)>)
    returns (k: nat)
    requires WithinBudget(run)
    ensures var w := After(Start(id, host, port, start, pool), run);
            OnTrack(w.t, V.SynFrame(id, T.TargetOf(host, port)), k) && IdOf(w) == id
  {
    hide V.Begin, V.Kept, Shape, Tracked, V.SynFrame, After;
    ClientPart(Start(id, host, port, start, pool), run);
    k := TraceOverRuns(id, host, port, start, ClientSteps(run));
    TrackedOverRuns(id, host, port, start, ClientSteps(run));
    SameId(id, After(Start(id, host, port, start, pool), run).t);
  }

  lemma WithinBudgetBefore(run: seq<(Step, real)>)
    requires run != [] && WithinBudget(run)
    ensures WithinBudget(run[..|run| - 1])
  {
    var before, steps := ClientSteps(run[..|run| - 1]), ClientSteps(run);
    assert forall i | 0 <= i < |before| :: before[i] == steps[i];
  }

  lemma {:induction false} ServedOverRuns(id: Bytes, host: string, port: nat, start: real, pool: PoolState,
                                          run: seq<(Step, real)>)
    requires id !in pool.sessions && WithinBudget(run)
    ensures Served(After(Start(id, host, port, start, pool), run))
  {
    hide Served, Next, Start, OnTrack, V.SynFrame, WithinBudget;
    var s := Start(id, host, port, start, pool);
    if run == [] {
      StartServed(id, host, port, start, pool);
    } else {
      var init, step, now := run[..|run| - 1], run[|run| - 1].0, run[|run| - 1].1;
      WithinBudgetBefore(run);
      ServedOverRuns(id, host, port, start, pool, init);
      var k := OnTrackOverRuns(id, host, port, start, pool, init);
      StepServed(After(s, init), V.SynFrame(id, T.TargetOf(host, port)), k, step, now);
    }
  }

  // ----- what the server receives -----

  /**
   * What the server's session received, consumed or not, is a prefix of what was queued behind the
   * SYN exactly if no frame but a SYN has arrived twice.
   */
  lemma ReceivedInOrderIff(id: Bytes, host: string, port: nat, start: real, pool: PoolState, run: seq<(Step, real)>)
    requires id !in pool.sessions && WithinBudget(run)
    ensures var w := After(Start(id, host, port, start, pool), run);
            && w.arrived <= |w.t.wire| && |w.t.log| > 0
            && (w.popped + RxOf(w) <= w.t.log[1..] <==> OnlySynTwice(w.t.wire[..w.arrived]))
  {
    hide After, Start, WithinBudget, OnlySynTwice, PastSyn, Shape, Tracked;
    var w := After(Start(id, host, port, start, pool), run);
    var k := OnTrackOverRuns(id, host, port, start, pool, run);
    ServedOverRuns(id, host, port, start, pool, run);
    PrefixIffDistinct(w.t, V.SynFrame(id, T.TargetOf(host, port)), k, w.arrived);
  }

  // ----- the end of the stream -----

  /** The first writer, which is the only one until a SYN arrives again. */
  function Upstream(w: World): Writer {
    if w.writers == [] then STARTED else w.writers[0]
  }

  /**
   * As long as no frame has arrived twice, batches arriving in the order they were drained, there is
   * one upstream connection at most, and it was sent the first j chunks taken, hence a prefix of the
   * bytes accepted, and of the bytes written if those were accepted in order; and once the FIN closed
   * it, all chunks taken but at most the last, which is missing only if it was taken after the close.
   */
  lemma EndOfUpload(id: Bytes, host: string, port: nat, start: real, pool: PoolState, run: seq<(Step, real)>)
    returns (j: nat)
    requires id !in pool.sessions && WithinBudget(run)
    requires var w := After(Start(id, host, port, start, pool), run);
             w.arrived <= |w.t.wire| && w.t.wire[..w.arrived] <= w.t.log
    ensures var w := After(Start(id, host, port, start, pool), run);
            && |w.writers| <= 1
            && j <= |w.t.taken|
            && Upstream(w).written == Concat(w.t.taken[..j])
            && Upstream(w).written <= Concat(w.t.accepted)
            && (w.t.accepted <= w.t.written ==> Upstream(w).written <= Concat(w.t.written))
            && (Upstream(w).sawFin ==>
                  w.t.c.finished && |w.t.taken| - 1 <= j && (w.t.c.looping ==> j == |w.t.taken|))
  {
    hide WithinBudget, After, Start, OnTrack, Served;
    var w := After(Start(id, host, port, start, pool), run);
    var k := OnTrackOverRuns(id, host, port, start, pool, run);
    ServedOverRuns(id, host, port, start, pool, run);
    j := WrittenChunks(w, V.SynFrame(id, T.TargetOf(host, port)), k);
    if w.t.accepted <= w.t.written {
      assert w.t.written == w.t.accepted + w.t.written[|w.t.accepted|..];
      ConcatAppend(w.t.accepted, w.t.written[|w.t.accepted|..]);
    }
  }

  /** A run in which no pass takes a frame once one has cut is such a run. */
  lemma NeverResentSuffices(id: Bytes, host: string, port: nat, start: real, pool: PoolState, run: seq<(Step, real)>)
    requires id !in pool.sessions && WithinBudget(run)
    requires NeverResent(V.Begin(id, host, port, start), ClientSteps(run))
    ensures var w := After(Start(id, host, port, start, pool), run);
            w.arrived <= |w.t.wire| && w.t.wire[..w.arrived] <= w.t.log
  {
    hide After, V.After, NeverResent;
    ServedOverRuns(id, host, port, start, pool, run);
    ClientPart(Start(id, host, port, start, pool), run);
    SentOnceIff(id, host, port, start, ClientSteps(run));
  }

  /** Then the frames that arrived are the first of the log: one SYN and what was queued behind it. */
  lemma ArrivedOfLog(w: World, syn: Frame, k: nat)
    requires OnTrack(w.t, syn, k) && Served(w) && w.t.wire[..w.arrived] <= w.t.log
    ensures |w.writers| <= 1 && Upstream(w).consumed == w.popped
    ensures |w.t.log| > 0 && Upstream(w).consumed <= w.t.log[1..]
  {
    PastSynOfLog(w.t, syn, k);
    LogAt(w.t, syn, k, 0);
    assert syn == V.SynFrame(w.t.c.session.id, syn.target);
    var xs := w.t.wire[..w.arrived];
    hide OnTrack, PastSyn, WriterState, V.SynFrame;
    PastSynPrefix(xs, w.t.log);
    assert w.popped <= PastSyn(xs);
    OneSyn(xs, w.t.log, w.t.c.session.id);
  }

  lemma OneSyn(xs: seq<Frame>, log: seq<Frame>, id: Bytes)
    requires xs <= log && log != []
    requires forall i | 1 <= i < |log| :: log[i].flags == 0 || log[i] == FinFrame(id)
    ensures Exit.SynCount(xs) <= 1
  {
    if xs != [] {
      assert xs == [xs[0]] + xs[1..];
      SynCountAppend([xs[0]], xs[1..]);
      assert [xs[0]][..0] == [];
      forall i | 0 <= i < |xs[1..]|
        ensures !xs[1..][i].Has(SYN)
      {
        assert xs[1..][i] == log[i + 1];
        FlagsOfFrames(id, "", log[i + 1]);
      }
      NoSyns(xs[1..]);
    }
  }

  lemma {:induction false} NoSyns(fs: seq<Frame>)
    requires forall i | 0 <= i < |fs| :: !fs[i].Has(SYN)
    ensures Exit.SynCount(fs) == 0
  {
    hide Frame.Has;
    if fs != [] {
      NoSyns(fs[..|fs| - 1]);
    }
  }

  lemma WrittenChunks(w: World, syn: Frame, k: nat) returns (j: nat)
    requires OnTrack(w.t, syn, k) && Served(w) && w.t.wire[..w.arrived] <= w.t.log
    ensures |w.writers| <= 1 && j <= |w.t.taken|
    ensures Upstream(w).written == Concat(w.t.taken[..j]) && Upstream(w).written <= Concat(w.t.accepted)
    ensures Upstream(w).sawFin ==>
              w.t.c.finished && |w.t.taken| - 1 <= j && (w.t.c.looping ==> j == |w.t.taken|)
  {
    ArrivedOfLog(w, syn, k);
    UpstreamState(w);
    j := ConsumedShape(w.t, Upstream(w), syn, k);
    hide Served, Tracked, WriterState, Payloads, DataFrames, Upstream;
    PayloadsOfChunks(IdOf(w), w.t.taken[..j]);
    TakenPrefix(w.t.taken, w.t.c.queue, j);
  }

  lemma UpstreamState(w: World)
    requires Served(w)
    ensures WriterState(Upstream(w))
  {
  }

  lemma TakenPrefix(taken: seq<Bytes>, queue: seq<Bytes>, j: nat)
    requires j <= |taken|
    ensures Concat(taken[..j]) <= Concat(taken + queue)
  {
    assert taken + queue == taken[..j] + (taken[j..] + queue);
    ConcatAppend(taken[..j], taken[j..] + queue);
  }

  /** What was consumed is the data of the first j chunks, and a FIN behind it if that was seen. */
  lemma ConsumedShape(t: V.Trace, x: Writer, syn: Frame, k: nat) returns (j: nat)
    requires Shape(t, syn, k) && WriterState(x) && |t.log| > 0 && x.consumed <= t.log[1..]
    ensures j <= |t.taken|
    ensures x.written == Payloads(DataFrames(t.c.session.id, t.taken[..j]))
    ensures x.sawFin ==> t.c.finished && j == k
  {
    var fs := x.consumed;
    j := if x.sawFin then |fs| - 1 else |fs|;
    FirstFin(t, x, syn, k);
    assert fs[..|fs|] == fs;
    assert x.written == Payloads(fs[..j]);
    hide WriterState, Payloads;
    ConsumedData(t, fs, syn, k, j);
  }

  lemma ConsumedAt(t: V.Trace, fs: seq<Frame>, syn: Frame, k: nat, i: nat)
    requires Shape(t, syn, k) && |t.log| > 0 && fs <= t.log[1..] && i < |fs|
    ensures fs[i] == t.log[i + 1]
    ensures Ends(fs[i]) <==> i == k
    ensures i == k ==> t.c.finished
  {
    hide Shape, Frame.Has;
    assert fs[i] == t.log[1..][i] == t.log[i + 1];
    LogAt(t, syn, k, i + 1);
    FlagsOfFrames(t.c.session.id, "", fs[i]);
  }

  lemma ConsumedData(t: V.Trace, fs: seq<Frame>, syn: Frame, k: nat, j: nat)
    requires Shape(t, syn, k) && |t.log| > 0 && fs <= t.log[1..] && j <= k && j <= |fs|
    ensures k <= |t.taken| && fs[..j] == DataFrames(t.c.session.id, t.taken[..j])
  {
    hide Ends;
    var data := DataFrames(t.c.session.id, t.taken[..j]);
    forall i | 0 <= i < j
      ensures fs[i] == data[i]
    {
      ConsumedAt(t, fs, syn, k, i);
      LogAt(t, syn, k, i + 1);
    }
  }

  lemma FirstFin(t: V.Trace, x: Writer, syn: Frame, k: nat)
    requires Shape(t, syn, k) && WriterState(x) && |t.log| > 0 && x.consumed <= t.log[1..]
    ensures if x.sawFin then |x.consumed| == k + 1 && t.c.finished else |x.consumed| <= k
  {
    hide Shape, Payloads, Ends;
    var fs := x.consumed;
    if x.sawFin {
      ConsumedAt(t, fs, syn, k, |fs| - 1);
    } else if |fs| > k {
      assert fs[k] in fs;
      ConsumedAt(t, fs, syn, k, k);
    }
  }

  // ----- a SYN that arrives for ever -----

  /**
   * Once the SYN and the frame behind it do not fit a batch together, and nothing was sent before,
   * passes of at least two frames send only the SYN; every arrival starts one more upstream worker,
   * and none of them ever gets a frame.
   */
  lemma WorkerForEverySyn(id: Bytes, host: string, port: nat, start: real, pool: PoolState, run: seq<(Step, real)>,
                          before: seq<(V.Step, real)>, after: seq<(V.Step, real)>)
    requires id !in pool.sessions && WithinBudget(run) && ClientSteps(run) == before + after
    requires var syn, t := V.SynFrame(id, T.TargetOf(host, port)), V.After(V.Begin(id, host, port, start), before);
             t.wire == [] && Stuck(t, syn)
    requires forall i | 0 <= i < |after| && after[i].0.Visit? :: after[i].0.maxFrames >= 2
    ensures var w, syn := After(Start(id, host, port, start, pool), run), V.SynFrame(id, T.TargetOf(host, port));
            && w.t.wire == seq(Passes(after, syn), _ => syn)
            && |w.writers| == w.arrived && w.popped == RxOf(w) == []
  {
    hide After, V.Next, V.Begin, V.SynFrame, Stuck, PastSyn, Exit.SynCount;
    var b, syn := V.Begin(id, host, port, start), V.SynFrame(id, T.TargetOf(host, port));
    var w := After(Start(id, host, port, start, pool), run);
    ClientPart(Start(id, host, port, start, pool), run);
    AfterAppend(b, before, after);
    assert V.WithinBudget(after) by {
      assert forall i | 0 <= i < |after| :: after[i] == (before + after)[|before| + i];
    }
    SentForEver(V.After(b, before), syn, after);
    assert [] + seq(Passes(after, syn), _ => syn) == seq(Passes(after, syn), _ => syn);
    ServedOverRuns(id, host, port, start, pool, run);
    assert w.t.wire[..w.arrived] == seq(w.arrived, _ => syn);
    SynHasSyn(id, T.TargetOf(host, port));
    ManySyns(syn, w.arrived);
  }

  lemma SynHasSyn(id: Bytes, target: string)
    ensures V.SynFrame(id, target).Has(SYN)
  {
  }

  lemma {:induction false} AfterAppend(t: V.Trace, a: seq<(V.Step, real)>, b: seq<(V.Step, real)>)
    ensures V.After(t, a + b) == V.After(V.After(t, a), b)
  {
    hide V.Next;
    if b == [] {
      assert a + b == a;
    } else {
      assert (a + b)[..|a + b| - 1] == a + b[..|b| - 1];
      AfterAppend(t, a, b[..|b| - 1]);
    }
  }

  lemma {:induction false} ManySyns(syn: Frame, n: nat)
    requires syn.Has(SYN)
    ensures var fs := seq(n, _ => syn); Exit.SynCount(fs) == n && PastSyn(fs) == []
  {
    hide Frame.Has;
    var fs := seq(n, _ => syn);
    if n > 0 {
      ManySyns(syn, n - 1);
      assert fs[..n - 1] == seq(n - 1, _ => syn);
    }
  }

  // ----- a pass that cuts -----

  /** An open connection with nothing waiting or queued for it, and q queued for the carrier. */
  ghost predicate Open(t: V.Trace, id: Bytes, q: seq<Frame>) {
    && t.c.session.id == id && t.c.session.txQ == q && t.c.session.seqno == |t.taken|
    && t.c.queue == t.c.waiting == [] && !t.c.closed && t.c.looping
    && t.accepted == t.taken
  }

  lemma SynSent(id: Bytes, host: string, port: nat, n: nat, now: real)
    requires n > 0 && V.SynFrame(id, T.TargetOf(host, port)).EncodedLen() <= Carrier.MAX_FRAME_PAYLOAD
    ensures var t := V.Next(V.Begin(id, host, port, now), V.Visit(n, 0), now);
            Open(t, id, []) && t.wire == [V.SynFrame(id, T.TargetOf(host, port))] && t.taken == []
  {
    hide Carrier.Taken, Carrier.Visited, T.TargetOf, Carrier.CutInside, Frame.EncodedLen;
    var t, syn := V.Begin(id, host, port, now), V.SynFrame(id, T.TargetOf(host, port));
    assert t.c.session.txQ == [syn] by { assert [] + [syn] == [syn]; }
    assert Drained(t.c.session, n) == [syn];
    Carrier.SizeOne(syn);
    Carrier.VisitEffect(t.c.session, n, 0, now);
    V.VisitKeepsIdentity(t.c.session, n, 0, now);
    assert |[syn] + Carrier.Visited(t.c.session, n, 0, now).txQ| == 1;
  }

  /** One chunk written and framed. */
  lemma ChunkQueued(t: V.Trace, id: Bytes, q: seq<Frame>, x: Bytes, now: real)
    requires Open(t, id, q)
    ensures var u := V.Next(V.Next(t, V.Write(x), now), V.TxTurn, now);
            Open(u, id, q + [DataFrame(id, |t.taken|, x)]) && u.wire == t.wire && u.taken == t.taken + [x]
  {
    var v := V.Next(t, V.Write(x), now);
    assert v.c.queue == [x] && v.accepted == t.accepted + [x];
  }

  lemma SentTwice(t: V.Trace, id: Bytes, a: Frame, b: Frame, n: nat, now: real)
    requires Open(t, id, [a, b]) && n >= 2
    requires a.EncodedLen() <= Carrier.MAX_FRAME_PAYLOAD < a.EncodedLen() + b.EncodedLen()
    ensures var u := V.Next(t, V.Visit(n, 0), now);
            Open(u, id, [a, b]) && u.wire == t.wire + [a] && u.taken == t.taken
  {
    hide Frame.EncodedLen, Carrier.Visited, Carrier.Taken, Carrier.CutInside;
    Carrier.SentAgain(t.c.session, a, b, n, now);
    V.VisitKeepsIdentity(t.c.session, n, 0, now);
  }

  /** The server handles everything on the wire at once. */
  lemma ThreeArrive(w: World, syn: Frame, a: Frame, now: real)
    requires w == World(w.t, 0, w.pool, [], []) && IdOf(w) !in w.pool.sessions
    requires w.t.wire == [syn, a, a] && syn == V.SynFrame(IdOf(w), syn.target)
    requires a.sid == IdOf(w) && a.flags == 0
    ensures var u := Next(w, Arrive([syn, a, a]), now);
            u.t == w.t && u.writers == [STARTED] && IdOf(w) in u.pool.sessions && RxOf(u) == [a, a]
  {
    hide Exit.HandleAll, Exit.EntryAfter, Exit.SynCount, Exit.Count, Carrier.OfSession, PastSyn, Ends;
    var fs, id := [syn, a, a], IdOf(w);
    Carrier.OfSessionAllFrom(fs, id, id);
    OurFlags(syn, syn);
    OurFlags(a, syn);
    Exit.EntryOfBatch(Exit.Demux(w.pool, [], []), fs, id, false, now);
    Exit.SpawnsAndReplies(Exit.Demux(w.pool, [], []), fs, id, false, now);
    Receives(None, fs, syn, now);
    assert w.t.wire[0..] == fs;
    OneOfThree(syn, a, id);
  }

  lemma OneOfThree(syn: Frame, a: Frame, id: Bytes)
    requires syn.Has(SYN) && !a.Has(SYN)
    ensures Exit.SynCount([syn, a, a]) == 1 && Exit.Count([], id) == 0
    ensures [] + PastSyn([syn, a, a]) == [a, a]
  {
    hide Frame.Has;
    assert [syn][..0] == [] && [a][..0] == [];
    assert PastSyn([syn]) == [] && PastSyn([a]) == [a] && Exit.SynCount([syn]) == 1 && Exit.SynCount([a]) == 0;
    assert [a, a] == [a] + [a] && [syn, a, a] == [syn] + [a, a];
    PastSynAppend([a], [a]);
    PastSynAppend([syn], [a, a]);
    SynCountAppend([a], [a]);
    SynCountAppend([syn], [a, a]);
  }

  lemma WriterWrites(w: World, a: Frame, q: seq<Frame>, now: real)
    requires |w.writers| == 1 && !w.writers[0].stopped && IdOf(w) in w.pool.sessions && RxOf(w) == [a] + q
    requires !Ends(a)
    ensures var u := Next(w, WriterTurn(0), now);
            && u.t == w.t && IdOf(w) in u.pool.sessions && RxOf(u) == q && |u.writers| == 1
            && !u.writers[0].stopped && u.writers[0].written == w.writers[0].written + a.payload
  {
  }

  lemma TwoTurns(w: World, syn: Frame, a: Frame, now: real)
    requires w == World(w.t, 0, w.pool, [], []) && IdOf(w) !in w.pool.sessions
    requires w.t.wire == [syn, a, a] && syn == V.SynFrame(IdOf(w), syn.target)
    requires a.sid == IdOf(w) && a.flags == 0
    ensures var u := Next(Next(Next(w, Arrive([syn, a, a]), now), WriterTurn(0), now), WriterTurn(0), now);
            Upstream(u).written == a.payload + a.payload && u.t == w.t
  {
    ThreeArrive(w, syn, a, now);
    OurFlags(a, syn);
    NotFin(a, syn.sid);
    hide Next, Ends, V.SynFrame;
    var u := Next(w, Arrive([syn, a, a]), now);
    assert [a, a] == [a] + [a] && [a] == [a] + [];
    WriterWrites(u, a, [a], now);
    WriterWrites(Next(u, WriterTurn(0), now), a, [], now);
    assert [] + a.payload == a.payload;
  }

  lemma NotFin(a: Frame, id: Bytes)
    requires a.flags == 0
    ensures a != FinFrame(id)
  {
  }

  /**
   * Two frames that fit a batch singly but not together: the first is sent by every pass, and the
   * bytes written upstream are no longer a prefix of those accepted.
   */
  lemma CutDoublesBytes(id: Bytes, host: string, port: nat, pool: PoolState, a: Bytes, b: Bytes, n: nat, now: real)
    requires id !in pool.sessions && n >= 2 && |a| == |b| && a != b
    requires V.SynFrame(id, T.TargetOf(host, port)).EncodedLen() <= Carrier.MAX_FRAME_PAYLOAD
    requires HEADER_LEN + |a| <= Carrier.MAX_FRAME_PAYLOAD < 2 * (HEADER_LEN + |a|)
    ensures var t1 := V.Next(V.Begin(id, host, port, now), V.Visit(n, 0), now);
            var t2 := V.Next(V.Next(t1, V.Write(a), now), V.TxTurn, now);
            var t3 := V.Next(V.Next(t2, V.Write(b), now), V.TxTurn, now);
            var t4 := V.Next(V.Next(t3, V.Visit(n, 0), now), V.Visit(n, 0), now);
            var w := Start(id, host, port, now, pool).(t := t4);
            var u := Next(Next(Next(w, Arrive(t4.wire), now), WriterTurn(0), now), WriterTurn(0), now);
            u.t.accepted == [a, b] && Upstream(u).written == a + a && !(a + a <= Concat(u.t.accepted))
  {
    hide V.Next, Next, T.TargetOf, Frame.EncodedLen, V.Begin;
    var syn, f, g := V.SynFrame(id, T.TargetOf(host, port)), DataFrame(id, 0, a), DataFrame(id, 1, b);
    var t1 := V.Next(V.Begin(id, host, port, now), V.Visit(n, 0), now);
    SynSent(id, host, port, n, now);
    var t2 := V.Next(V.Next(t1, V.Write(a), now), V.TxTurn, now);
    ChunkQueued(t1, id, [], a, now);
    assert [] + [f] == [f] && [f] + [g] == [f, g] && [] + [a] == [a] && [a] + [b] == [a, b];
    var t3 := V.Next(V.Next(t2, V.Write(b), now), V.TxTurn, now);
    ChunkQueued(t2, id, [f], b, now);
    DataLength(id, 0, a);
    DataLength(id, 1, b);
    SentTwice(t3, id, f, g, n, now);
    SentTwice(V.Next(t3, V.Visit(n, 0), now), id, f, g, n, now);
    var t4 := V.Next(V.Next(t3, V.Visit(n, 0), now), V.Visit(n, 0), now);
    assert t4.wire == [syn, f, f] && t4.accepted == [a, b];
    TwoTurns(Start(id, host, port, now, pool).(t := t4), syn, f, now);
    TwoChunks(a, b);
  }

  lemma TwoChunks(a: Bytes, b: Bytes)
    requires |a| == |b| && a != b
    ensures !(a + a <= Concat([a, b]))
  {
    assert [a, b][1..] == [b] && [b][1..] == [];
    assert Concat([b]) == b + Concat([]) == b;
    assert Concat([a, b]) == a + b;
    assert (a + b)[|a|..] == b && (a + a)[|a|..] == a;
  }
}
