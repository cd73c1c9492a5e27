/**
 * The server-to-client direction as a protocol: upstream reads, poll replies, any number of
 * replies in flight, their dispatch in any order, and the client's reader.  The history of one
 * session is followed; the other sessions do as they like beside it.
 */
module Stream {
  import opened Octets
  import opened Frames
  import opened Chunks
  import opened Sessions
  import opened Pools
  import opened Carrier
  import Exit

  /** How the upstream of the followed session stands: open, at its end, or never reached. */
  datatype Upstream = Open | Ended | Unreachable(error: Bytes)

  /** The followed session: what its upstream sent, and what the client's reader has done with it. */
  datatype History = History(chunks: seq<Bytes>, upstream: Upstream, consumed: seq<Frame>, written: Bytes,
                             closed: bool)

  datatype World = World(id: Bytes, server: PoolState, client: PoolState, flight: seq<seq<Frame>>, h: History)

  datatype Step =
    | UpstreamRead(data: Bytes)
    | UpstreamEof
    | DialFails(error: Bytes)
    | OtherSend(frame: Frame)
    | PollDrain
    | DispatchReply(k: nat)
    | ClientRead
    | OtherRead(sid: Bytes)

  /** The frame the upstream leaves behind. */
  function LastFrame(id: Bytes, u: Upstream): seq<Frame> {
    match u
    case Open => []
    case Ended => [FinFrame(id)]
    case Unreachable(error) => [RstFrame(id, error)]
  }

  /** What the upstream worker has enqueued: numbered data frames, then one FIN; or one RST alone. */
  function Produced(id: Bytes, h: History): seq<Frame> {
    DataFrames(id, h.chunks) + LastFrame(id, h.upstream)
  }

  function SendOn(p: PoolState, id: Bytes, f: Frame, now: real): PoolState {
    if id in p.sessions then p.Put(EnqueueTx(p.sessions[id], f, now)) else p
  }

  function ReadOn(p: PoolState, id: Bytes): PoolState {
    if id in p.sessions then p.Put(PopRx(p.sessions[id])) else p
  }

  /** The reader's turn: write the payload, or close on FIN or RST. */
  function Consumed(h: History, f: Frame): History {
    if Ends(f) then h.(consumed := h.consumed + [f], closed := true)
    else h.(consumed := h.consumed + [f], written := h.written + f.payload)
  }

  function Next(w: World, step: Step, now: real): World {
    match step
    case UpstreamRead(data) =>
      if w.h.upstream != Open || data == [] then w
      else w.(server := SendOn(w.server, w.id, DataFrame(w.id, |w.h.chunks|, data), now),
              h := w.h.(chunks := w.h.chunks + [data]))
    case UpstreamEof =>
      if w.h.upstream != Open then w
      else w.(server := SendOn(w.server, w.id, FinFrame(w.id), now), h := w.h.(upstream := Ended))
    case DialFails(error) =>
      if w.h.upstream != Open || w.h.chunks != [] then w
      else w.(server := SendOn(w.server, w.id, RstFrame(w.id, error), now), h := w.h.(upstream := Unreachable(error)))
    case OtherSend(f) =>
      if f.sid == w.id then w else w.(server := SendOn(w.server, f.sid, f, now))
    case PollDrain =>
      var reply := Exit.PollFrames(w.server, |w.server.order|);
      if reply == [] then w
      else w.(server := Exit.PollDrained(w.server, |w.server.order|), flight := w.flight + [reply])
    case DispatchReply(k) =>
      if k >= |w.flight| then w
      else w.(client := DispatchedAll(w.client, w.flight[k], now), flight := w.flight[..k] + w.flight[k + 1..])
    case ClientRead =>
      if w.h.closed || w.id !in w.client.sessions || w.client.sessions[w.id].rxQ == [] then w
      else w.(client := ReadOn(w.client, w.id), h := Consumed(w.h, w.client.sessions[w.id].rxQ[0]))
    case OtherRead(sid) =>
      if sid == w.id then w else w.(client := ReadOn(w.client, sid))
  }

  // ----- the followed session in each place -----

  function Tx(w: World): seq<Frame> {
    if w.id in w.server.sessions then w.server.sessions[w.id].txQ else []
  }

  function Rx(w: World): seq<Frame> {
    if w.id in w.client.sessions then w.client.sessions[w.id].rxQ else []
  }

  function InFlight(w: World): seq<Frame> {
    OfSession(Concat(w.flight), w.id)
  }

  /** What has reached the client, consumed or not. */
  function Delivered(w: World): seq<Frame> {
    w.h.consumed + Rx(w)
  }

  /** The session is on both sides, and every queue holds only its own session's frames. */
  ghost predicate Running(w: World) {
    && WellFormed(w.server) && OwnFrames(w.server)
    && WellFormed(w.client)
    && w.id in w.server.sessions && w.id in w.client.sessions
  }

  /** The followed session on the server. */
  ghost function Followed(w: World): SessionState
    requires Running(w)
  {
    w.server.sessions[w.id]
  }

  /** The places of the followed session between two steps. */
  datatype Places = Places(delivered: seq<Frame>, inFlight: seq<Frame>, tx: seq<Frame>, produced: seq<Frame>)

  function PlacesOf(w: World): Places {
    Places(Delivered(w), InFlight(w), Tx(w), Produced(w.id, w.h))
  }

  /** The share of the followed session in the reply a dispatch hands over. */
  function Handed(w: World, step: Step): seq<Frame> {
    match step
    case DispatchReply(k) => if k < |w.flight| then OfSession(w.flight[k], w.id) else []
    case _ => []
  }

  /** Its share in the replies drained before that one and still in flight. */
  function Ahead(w: World, step: Step): seq<Frame> {
    match step
    case DispatchReply(k) => if k < |w.flight| then OfSession(Concat(w.flight[..k]), w.id) else []
    case _ => []
  }

  // ----- every step moves frames from place to place -----

  /**
   * A step adds frames to what was produced, sends some from the server queue, and hands some
   * from the middle of what is in flight to the client; it does nothing else to the session.
   */
  ghost predicate Moves(a: Places, b: Places, ahead: seq<Frame>, handed: seq<Frame>,
                        added: seq<Frame>, sent: seq<Frame>, behind: seq<Frame>)
  {
    && b.produced == a.produced + added
    && a.tx + added == sent + b.tx
    && a.inFlight == ahead + handed + behind
    && b.inFlight == ahead + behind + sent
    && b.delivered == a.delivered + handed
  }

  lemma Rests(a: Places)
    ensures Moves(a, a, [], [], [], [], a.inFlight)
  {
    assert [] + [] + a.inFlight == a.inFlight == [] + a.inFlight + [];
    assert a.tx + [] == a.tx == [] + a.tx;
  }

  lemma SendOnKeeps(p: PoolState, id: Bytes, f: Frame, now: real)
    requires WellFormed(p) && OwnFrames(p) && f.sid == id
    ensures var q := SendOn(p, id, f, now);
            && WellFormed(q) && OwnFrames(q)
            && q.sessions.Keys == p.sessions.Keys
            && forall k | k in p.sessions ::
                 q.sessions[k].txQ == p.sessions[k].txQ + if k == id then [f] else []
  {
    var q := SendOn(p, id, f, now);
    forall k | k in q.sessions
      ensures AllFrom(q.sessions[k].txQ, k)
    {
      assert AllFrom(p.sessions[k].txQ, k);
    }
    assert forall s: seq<Frame> :: s + [] == s;
  }

  lemma ReadOnKeeps(p: PoolState, id: Bytes)
    requires WellFormed(p)
    ensures WellFormed(ReadOn(p, id)) && ReadOn(p, id).sessions.Keys == p.sessions.Keys
    ensures forall k | k in p.sessions :: k != id ==> ReadOn(p, id).sessions[k] == p.sessions[k]
  {
  }

  lemma AddsFrame(w: World, f: Frame, h: History, now: real)
    requires Running(w) && f.sid == w.id
    requires h.consumed == w.h.consumed && Produced(w.id, h) == Produced(w.id, w.h) + [f]
    ensures var v := w.(server := SendOn(w.server, w.id, f, now), h := h);
            Running(v) && Moves(PlacesOf(w), PlacesOf(v), [], [], [f], [], InFlight(w))
  {
    hide SendOn, Produced, OwnFrames, WellFormed;
    SendOnKeeps(w.server, w.id, f, now);
    Rests(PlacesOf(w));
    assert [] + (Tx(w) + [f]) == Tx(w) + [f];
  }

  lemma ProducedGrows(id: Bytes, h: History, data: Bytes)
    requires h.upstream == Open
    ensures Produced(id, h.(chunks := h.chunks + [data])) == Produced(id, h) + [DataFrame(id, |h.chunks|, data)]
    ensures Produced(id, h.(upstream := Ended)) == Produced(id, h) + [FinFrame(id)]
    ensures Produced(id, h.(upstream := Unreachable(data))) == Produced(id, h) + [RstFrame(id, data)]
  {
    DataFramesSnoc(id, h.chunks, data);
  }

  lemma PollMoves(w: World, now: real)
    requires Running(w) && Exit.PollFrames(w.server, |w.server.order|) != []
    ensures Running(Next(w, PollDrain, now))
    ensures Moves(PlacesOf(w), PlacesOf(Next(w, PollDrain, now)), [], [],
                  [], Drained(Followed(w), Exit.POLL_DRAIN), InFlight(w))
  {
    hide Drain, Drained, Exit.PollDrained, Exit.PollFrames, OwnFrames, OfSession, Produced, WellFormed;
    var p := w.server;
    var reply, v := Exit.PollFrames(p, |p.order|), Next(w, PollDrain, now);
    var i := IndexOf(p, w.id);
    var sent := Drained(p.sessions[w.id], Exit.POLL_DRAIN);
    PollKeeps(p);
    Exit.PollEntries(p, |p.order|);
    Exit.PollShare(p, |p.order|, i);
    assert Tx(v) == Drain(p.sessions[w.id], Exit.POLL_DRAIN).txQ;
    DrainTakesPrefix(p.sessions[w.id], Exit.POLL_DRAIN);
    ConcatAppend(w.flight, [reply]);
    assert Concat([reply]) == reply + [] == reply;
    OfSessionAppend(Concat(w.flight), reply, w.id);
    assert [] + [] + InFlight(w) == InFlight(w) == [] + InFlight(w);
    assert Tx(w) + [] == Tx(w);
    assert Produced(w.id, w.h) + [] == Produced(w.id, w.h);
    assert Delivered(w) + [] == Delivered(w);
  }

  lemma IndexOf(p: PoolState, id: Bytes) returns (i: nat)
    requires WellFormed(p) && id in p.sessions
    ensures i < |p.order| && p.order[i] == id
  {
    i :| 0 <= i < |p.order| && p.order[i] == id;
  }

  lemma PollKeeps(p: PoolState)
    requires WellFormed(p) && OwnFrames(p)
    ensures var q := Exit.PollDrained(p, |p.order|);
            WellFormed(q) && OwnFrames(q) && q.sessions.Keys == p.sessions.Keys
  {
    hide Drain, Exit.PollDrained;
    Exit.PollEntries(p, |p.order|);
    var q := Exit.PollDrained(p, |p.order|);
    forall id | id in q.sessions
      ensures q.sessions[id].id == id && AllFrom(q.sessions[id].txQ, id)
    {
      var i :| 0 <= i < |p.order| && p.order[i] == id;
      DrainKeeps(p.sessions[id], id);
    }
  }

  lemma DrainKeeps(s: SessionState, id: Bytes)
    requires AllFrom(s.txQ, id) && s.id == id
    ensures Drain(s, Exit.POLL_DRAIN).id == id && AllFrom(Drain(s, Exit.POLL_DRAIN).txQ, id)
  {
  }

  lemma DispatchMoves(w: World, k: nat, now: real)
    requires Running(w) && k < |w.flight|
    ensures Running(Next(w, DispatchReply(k), now))
    ensures Moves(PlacesOf(w), PlacesOf(Next(w, DispatchReply(k), now)),
                  Ahead(w, DispatchReply(k)), Handed(w, DispatchReply(k)),
                  [], [], OfSession(Concat(w.flight[k + 1..]), w.id))
  {
    hide Next, Running, Delivered, InFlight, OfSession, Produced, Tx, Ahead, Handed, Concat, Moves;
    DispatchHands(w, k, now);
    DispatchTakes(w, k, now);
    var x, y := Ahead(w, DispatchReply(k)), Handed(w, DispatchReply(k));
    HandsOver(PlacesOf(w), PlacesOf(Next(w, DispatchReply(k), now)), x, y, OfSession(Concat(w.flight[k + 1..]), w.id));
  }

  lemma HandsOver(a: Places, b: Places, x: seq<Frame>, y: seq<Frame>, z: seq<Frame>)
    requires a.inFlight == x + y + z && b.inFlight == x + z && b.delivered == a.delivered + y
    requires b.tx == a.tx && b.produced == a.produced
    ensures Moves(a, b, x, y, [], [], z)
  {
    assert x + z + [] == x + z;
    assert a.tx + [] == a.tx == [] + a.tx;
    assert a.produced + [] == a.produced;
  }

  /** The pools after a dispatch: the client's session gains the reply's share. */
  lemma DispatchHands(w: World, k: nat, now: real)
    requires Running(w) && k < |w.flight|
    ensures var v := Next(w, DispatchReply(k), now);
            && Running(v) && Tx(v) == Tx(w) && v.h == w.h && v.id == w.id
            && Delivered(v) == Delivered(w) + Handed(w, DispatchReply(k))
  {
    hide DispatchedAll, OwnFrames, OfSession, PayloadSum;
    DispatchDelivers(w.client, w.flight[k], now);
    DispatchKeepsIds(w.client, w.flight[k], now);
    var y := Handed(w, DispatchReply(k));
    assert w.h.consumed + (Rx(w) + y) == Delivered(w) + y;
  }

  /** What is in flight before and after. */
  lemma DispatchTakes(w: World, k: nat, now: real)
    requires k < |w.flight|
    ensures var x, y := Ahead(w, DispatchReply(k)), Handed(w, DispatchReply(k));
            var z := OfSession(Concat(w.flight[k + 1..]), w.id);
            && InFlight(w) == x + y + z
            && InFlight(Next(w, DispatchReply(k), now)) == x + z
  {
    hide DispatchedAll, OfSession;
    var before, reply, after := w.flight[..k], w.flight[k], w.flight[k + 1..];
    assert w.flight == before + ([reply] + after);
    ConcatAppend(before, [reply] + after);
    assert ([reply] + after)[1..] == after;
    ConcatAppend(before, after);
    OfSessionAppend(Concat(before), reply + Concat(after), w.id);
    OfSessionAppend(reply, Concat(after), w.id);
    OfSessionAppend(Concat(before), Concat(after), w.id);
    var x, y, z := OfSession(Concat(before), w.id), OfSession(reply, w.id), OfSession(Concat(after), w.id);
    assert x + (y + z) == x + y + z;
  }

  lemma {:induction false} DispatchKeepsIds(p: PoolState, fs: seq<Frame>, now: real)
    requires WellFormed(p)
    ensures WellFormed(DispatchedAll(p, fs, now))
  {
    if fs != [] {
      DispatchKeepsIds(p, fs[..|fs| - 1], now);
    }
  }

  lemma ReadMoves(w: World, data: Bytes, now: real) returns (added: seq<Frame>)
    requires Running(w)
    ensures var v := Next(w, UpstreamRead(data), now);
            Running(v) && Moves(PlacesOf(w), PlacesOf(v), [], [], added, [], InFlight(w))
  {
    hide SendOn, Produced, PlacesOf, Running, Moves;
    added := [];
    Rests(PlacesOf(w));
    RestsInFlight(w);
    if w.h.upstream == Open && data != [] {
      added := [DataFrame(w.id, |w.h.chunks|, data)];
      ProducedGrows(w.id, w.h, data);
      AddsFrame(w, added[0], w.h.(chunks := w.h.chunks + [data]), now);
    }
  }

  lemma EofMoves(w: World, now: real) returns (added: seq<Frame>)
    requires Running(w)
    ensures var v := Next(w, UpstreamEof, now);
            Running(v) && Moves(PlacesOf(w), PlacesOf(v), [], [], added, [], InFlight(w))
  {
    hide SendOn, Produced, PlacesOf, Running, Moves;
    added := [];
    Rests(PlacesOf(w));
    RestsInFlight(w);
    if w.h.upstream == Open {
      added := [FinFrame(w.id)];
      ProducedGrows(w.id, w.h, []);
      AddsFrame(w, added[0], w.h.(upstream := Ended), now);
    }
  }

  lemma DialMoves(w: World, error: Bytes, now: real) returns (added: seq<Frame>)
    requires Running(w)
    ensures var v := Next(w, DialFails(error), now);
            Running(v) && Moves(PlacesOf(w), PlacesOf(v), [], [], added, [], InFlight(w))
  {
    hide SendOn, Produced, PlacesOf, Running, Moves;
    added := [];
    Rests(PlacesOf(w));
    RestsInFlight(w);
    if w.h.upstream == Open && w.h.chunks == [] {
      added := [RstFrame(w.id, error)];
      ProducedGrows(w.id, w.h, error);
      AddsFrame(w, added[0], w.h.(upstream := Unreachable(error)), now);
    }
  }

  lemma RestsInFlight(w: World)
    ensures PlacesOf(w).inFlight == InFlight(w)
  {
  }

  lemma OtherSendMoves(w: World, f: Frame, now: real)
    requires Running(w)
    ensures Running(Next(w, OtherSend(f), now)) && PlacesOf(Next(w, OtherSend(f), now)) == PlacesOf(w)
  {
    hide SendOn, OwnFrames, Produced, WellFormed, OfSession;
    if f.sid != w.id {
      SendOnKeeps(w.server, f.sid, f, now);
      assert Tx(w) + [] == Tx(w);
    }
  }

  lemma OtherReadMoves(w: World, sid: Bytes, now: real)
    requires Running(w)
    ensures Running(Next(w, OtherRead(sid), now)) && PlacesOf(Next(w, OtherRead(sid), now)) == PlacesOf(w)
  {
    hide ReadOn, OwnFrames, Produced, WellFormed, OfSession;
    ReadOnKeeps(w.client, sid);
  }

  /** Without a reply to dispatch, or anything to drain, nothing happens. */
  lemma IdleStep(w: World, step: Step, now: real)
    ensures step.PollDrain? && Exit.PollFrames(w.server, |w.server.order|) == [] ==> Next(w, step, now) == w
    ensures step.DispatchReply? && step.k >= |w.flight| ==> Next(w, step, now) == w
    ensures !step.DispatchReply? || step.k >= |w.flight| ==> Ahead(w, step) == Handed(w, step) == []
  {
  }

  /** Every step of every run: the invariant is kept, and frames only move as stated. */
  lemma StepMoves(w: World, step: Step, now: real)
    returns (added: seq<Frame>, sent: seq<Frame>, behind: seq<Frame>)
    requires Running(w)
    ensures Running(Next(w, step, now))
    ensures Moves(PlacesOf(w), PlacesOf(Next(w, step, now)), Ahead(w, step), Handed(w, step), added, sent, behind)
  {
    hide Next, Running, PlacesOf, Moves, Ahead, Handed, InFlight, OfSession, Exit.PollFrames;
    added, sent, behind := [], [], InFlight(w);
    IdleStep(w, step, now);
    Rests(PlacesOf(w));
    RestsInFlight(w);
    match step
    case UpstreamRead(data) => added := ReadMoves(w, data, now);
    case UpstreamEof => added := EofMoves(w, now);
    case DialFails(error) => added := DialMoves(w, error, now);
    case OtherSend(f) => OtherSendMoves(w, f, now);
    case PollDrain =>
      if Exit.PollFrames(w.server, |w.server.order|) != [] {
        sent := Drained(Followed(w), Exit.POLL_DRAIN);
        PollMoves(w, now);
      }
    case DispatchReply(k) =>
      if k < |w.flight| {
        behind := OfSession(Concat(w.flight[k + 1..]), w.id);
        DispatchMoves(w, k, now);
      }
    case ClientRead => ConsumeMoves(w, now);
    case OtherRead(sid) => OtherReadMoves(w, sid, now);
  }

  lemma ConsumeMoves(w: World, now: real)
    requires Running(w)
    ensures Running(Next(w, ClientRead, now)) && PlacesOf(Next(w, ClientRead, now)) == PlacesOf(w)
  {
    hide OwnFrames;
    if !w.h.closed && Rx(w) != [] {
      ReadOnKeeps(w.client, w.id);
      assert w.h.consumed + [Rx(w)[0]] + Rx(w)[1..] == w.h.consumed + Rx(w);
    }
  }

  // ----- conservation over every run -----

  function Start(id: Bytes, server: PoolState, client: PoolState): World {
    World(id, server, client, [], History([], Open, [], [], false))
  }

  /** Both pools as they are once the SYN has been handled; nothing is queued for the session yet. */
  ghost predicate Initial(w: World) {
    w == Start(w.id, w.server, w.client) && Tx(w) == [] && Rx(w) == []
  }

  /** The world after a run, which takes each step at its time. */
  function After(w: World, run: seq<(Step, real)>): World {
    if run == [] then w
    else Next(After(w, run[..|run| - 1]), run[|run| - 1].0, run[|run| - 1].1)
  }

  lemma {:induction false} AfterRuns(w: World, run: seq<(Step, real)>)
    requires Running(w)
    ensures Running(After(w, run))
  {
    hide Next, OwnFrames, WellFormed;
    if run != [] {
      AfterRuns(w, run[..|run| - 1]);
      StepRuns(After(w, run[..|run| - 1]), run[|run| - 1].0, run[|run| - 1].1);
    }
  }

  lemma StepRuns(w: World, step: Step, now: real)
    requires Running(w)
    ensures Running(Next(w, step, now))
  {
    var added, sent, behind := StepMoves(w, step, now);
  }

  ghost predicate Conserved(a: Places) {
    multiset(a.produced) == multiset(a.delivered) + multiset(a.inFlight) + multiset(a.tx)
  }

  lemma MovesConserve(a: Places, b: Places, ahead: seq<Frame>, handed: seq<Frame>,
                      added: seq<Frame>, sent: seq<Frame>, behind: seq<Frame>)
    requires Moves(a, b, ahead, handed, added, sent, behind) && Conserved(a)
    ensures Conserved(b)
  {
    var d, t, x, y := multiset(a.delivered), multiset(b.tx), multiset(ahead), multiset(handed);
    var z, add, out := multiset(behind), multiset(added), multiset(sent);
    assert multiset(a.inFlight) == x + y + z;
    calc {
      multiset(b.produced);
      d + (x + y + z) + multiset(a.tx) + add;
      { assert multiset(a.tx) + add == multiset(a.tx + added) == out + t; }
      d + (x + y + z) + (out + t);
      (d + y) + (x + z + out) + t;
      multiset(b.delivered) + multiset(b.inFlight) + multiset(b.tx);
    }
  }

  /** Nothing the upstream sent is lost or doubled, in whatever order the replies are dispatched. */
  lemma {:induction false} StreamConservation(w: World, run: seq<(Step, real)>)
    requires Running(w) && Initial(w)
    ensures Conserved(PlacesOf(After(w, run)))
  {
    hide Next, PlacesOf, Moves, Conserved, Running, Initial, Ahead, Handed;
    if run == [] {
      StartConserved(w);
    } else {
      StreamConservation(w, run[..|run| - 1]);
      var u := After(w, run[..|run| - 1]);
      var (step, now) := run[|run| - 1];
      AfterRuns(w, run[..|run| - 1]);
      var added, sent, behind := StepMoves(u, step, now);
      MovesConserve(PlacesOf(u), PlacesOf(Next(u, step, now)), Ahead(u, step), Handed(u, step), added, sent, behind);
    }
  }

  lemma StartConserved(w: World)
    requires Initial(w)
    ensures Conserved(PlacesOf(w)) && Fifo(PlacesOf(w))
  {
    assert PlacesOf(w) == Places([], [], [], []);
    assert |PlacesOf(w).delivered + PlacesOf(w).inFlight + PlacesOf(w).tx| == 0;
  }

  // ----- order -----

  /** The places of the session, one after the other, are what was produced. */
  ghost predicate Fifo(a: Places) {
    a.produced == a.delivered + a.inFlight + a.tx
  }

  /** A dispatch is in order for the session if no earlier reply in flight still holds frames of it. */
  ghost predicate InOrder(w: World, step: Step) {
    Handed(w, step) == [] || Ahead(w, step) == []
  }

  ghost predicate AllInOrder(w: World, run: seq<(Step, real)>) {
    run == [] ||
    (AllInOrder(w, run[..|run| - 1]) && InOrder(After(w, run[..|run| - 1]), run[|run| - 1].0))
  }

  lemma MovesFifo(a: Places, b: Places, ahead: seq<Frame>, handed: seq<Frame>,
                  added: seq<Frame>, sent: seq<Frame>, behind: seq<Frame>)
    requires Moves(a, b, ahead, handed, added, sent, behind) && Fifo(a)
    requires handed == [] || ahead == []
    ensures Fifo(b)
  {
    var rest := ahead + behind;
    assert a.inFlight == handed + rest;
    calc {
      b.delivered + b.inFlight + b.tx;
      a.delivered + handed + (rest + sent) + b.tx;
      { assert (a.delivered + handed) + (rest + sent) + b.tx == a.delivered + (handed + rest) + (sent + b.tx); }
      a.delivered + a.inFlight + (a.tx + added);
      { assert a.delivered + a.inFlight + (a.tx + added) == a.delivered + a.inFlight + a.tx + added; }
      b.produced;
    }
  }

  /** What was delivered differs from what was produced at some position. */
  ghost predicate Diverged(a: Places) {
    exists d | 0 <= d < |a.delivered| && d < |a.produced| :: a.delivered[d] != a.produced[d]
  }

  lemma MovesDiverge(a: Places, b: Places, ahead: seq<Frame>, handed: seq<Frame>,
                     added: seq<Frame>, sent: seq<Frame>, behind: seq<Frame>)
    requires Moves(a, b, ahead, handed, added, sent, behind)
    requires Diverged(a) || (Fifo(a) && Distinct(a.produced) && handed != [] && ahead != [])
    ensures Diverged(b)
  {
    if Diverged(a) {
      var d :| 0 <= d < |a.delivered| && d < |a.produced| && a.delivered[d] != a.produced[d];
      assert b.delivered[d] != b.produced[d];
    } else {
      var d := |a.delivered|;
      assert b.delivered[d] == handed[0];
      assert b.produced[d] == a.produced[d] == ahead[0];
      assert a.produced[d + |ahead|] == handed[0];
      assert b.delivered[d] != b.produced[d];
    }
  }

  lemma ProducedDistinct(id: Bytes, h: History)
    ensures Distinct(Produced(id, h))
  {
    var p := Produced(id, h);
    forall i, j | 0 <= i < j < |p|
      ensures p[i] != p[j]
    {
      assert p[i] == DataFrame(id, i, h.chunks[i]);
    }
  }

  lemma {:induction false} OrderOrDivergence(w: World, run: seq<(Step, real)>)
    requires Running(w) && Initial(w)
    ensures AllInOrder(w, run) ==> Fifo(PlacesOf(After(w, run)))
    ensures !AllInOrder(w, run) ==> Diverged(PlacesOf(After(w, run)))
  {
    hide Next, PlacesOf, Moves, Fifo, Diverged, Running, Initial, Distinct, Ahead, Handed;
    if run == [] {
      StartConserved(w);
    } else {
      OrderOrDivergence(w, run[..|run| - 1]);
      var u := After(w, run[..|run| - 1]);
      var (step, now) := run[|run| - 1];
      AfterRuns(w, run[..|run| - 1]);
      var added, sent, behind := StepMoves(u, step, now);
      var a, b := PlacesOf(u), PlacesOf(Next(u, step, now));
      if AllInOrder(w, run) {
        MovesFifo(a, b, Ahead(u, step), Handed(u, step), added, sent, behind);
      } else {
        PlacesDistinct(u);
        MovesDiverge(a, b, Ahead(u, step), Handed(u, step), added, sent, behind);
      }
    }
  }

  lemma PlacesDistinct(w: World)
    ensures Distinct(PlacesOf(w).produced)
  {
    ProducedDistinct(w.id, w.h);
  }

  /**
   * What has reached the client is a prefix of what the upstream sent exactly when every reply
   * was dispatched after all replies drained before it that hold frames of the session.
   */
  lemma InOrderIffPrefix(w: World, run: seq<(Step, real)>)
    requires Running(w) && Initial(w)
    ensures var v := After(w, run);
            AllInOrder(w, run) <==> Delivered(v) <= Produced(w.id, v.h)
  {
    hide Delivered, InFlight, Tx, Produced, Running, Initial, After, AllInOrder;
    OrderOrDivergence(w, run);
    SameSession(w, run);
    var a := PlacesOf(After(w, run));
    if AllInOrder(w, run) {
      assert a.produced == a.delivered + (a.inFlight + a.tx);
    } else {
      var d :| 0 <= d < |a.delivered| && d < |a.produced| && a.delivered[d] != a.produced[d];
      assert !(a.delivered <= a.produced);
    }
  }

  lemma {:induction false} SameSession(w: World, run: seq<(Step, real)>)
    ensures After(w, run).id == w.id
  {
    hide OwnFrames, WellFormed;
    if run != [] {
      SameSession(w, run[..|run| - 1]);
    }
  }

  // ----- the end of the stream -----

  /** The reader has written the payloads it consumed before a FIN or RST, and is closed once it consumed one. */
  ghost predicate ReaderState(h: History) {
    && (!h.closed ==> h.written == Payloads(h.consumed) && forall f | f in h.consumed :: !Ends(f))
    && (h.closed ==> h.consumed != [] && h.written == Payloads(h.consumed[..|h.consumed| - 1])
                     && Ends(h.consumed[|h.consumed| - 1]))
  }

  lemma {:induction false} ReaderKeeps(w: World, run: seq<(Step, real)>)
    requires Initial(w)
    ensures ReaderState(After(w, run).h)
  {
    if run != [] {
      ReaderKeeps(w, run[..|run| - 1]);
      SameSession(w, run[..|run| - 1]);
      var u := After(w, run[..|run| - 1]);
      var (step, now) := run[|run| - 1];
      ReaderStep(u, step, now);
    }
  }

  lemma ReaderStep(w: World, step: Step, now: real)
    requires ReaderState(w.h)
    ensures ReaderState(Next(w, step, now).h)
  {
    hide SendOn, ReadOn, Exit.PollFrames, Exit.PollDrained, DispatchedAll, Consumed, Payloads, OwnFrames, WellFormed;
    if step.ClientRead? && !w.h.closed && Rx(w) != [] {
      ConsumedKeeps(w.h, Rx(w)[0]);
    }
  }

  lemma ConsumedKeeps(h: History, f: Frame)
    requires ReaderState(h) && !h.closed
    ensures ReaderState(Consumed(h, f))
  {
    PayloadsSnoc(h.consumed, f);
    hide Ends, Payloads;
    var fs := h.consumed + [f];
    assert fs[|fs| - 1] == f && fs[..|fs| - 1] == h.consumed;
  }

  /**
   * If every reply was dispatched in order, then a reader that has closed has written every byte
   * the upstream sent, in order, and nothing else; until then what it wrote is a prefix of that.  A
   * reader whose upstream could not be reached so closes without a byte, the error text included.
   */
  lemma EndOfStream(w: World, run: seq<(Step, real)>)
    requires Running(w) && Initial(w) && AllInOrder(w, run)
    ensures var h := After(w, run).h;
            && (h.closed ==> h.upstream != Open && h.consumed == Produced(w.id, h) && h.written == Concat(h.chunks))
            && h.written <= Concat(h.chunks)
  {
    var v := After(w, run);
    InOrderIffPrefix(w, run);
    ReaderKeeps(w, run);
    SameSession(w, run);
    ClosedMeansAll(v);
  }

  lemma ClosedMeansAll(v: World)
    requires Delivered(v) <= Produced(v.id, v.h) && ReaderState(v.h)
    ensures v.h.closed ==>
              v.h.upstream != Open && v.h.consumed == Produced(v.id, v.h) && v.h.written == Concat(v.h.chunks)
    ensures v.h.written <= Concat(v.h.chunks)
  {
    var h := v.h;
    var data := DataFrames(v.id, h.chunks);
    assert h.consumed <= Delivered(v);
    PayloadsOfChunks(v.id, h.chunks);
    PrefixOfProduced(v.id, h, h.consumed);
    hide Produced, Payloads, DataFrames, Delivered, Ends;
    if h.closed {
      assert h.consumed[|h.consumed| - 1] in h.consumed;
    } else {
      PayloadsPrefix(data, |h.consumed|);
    }
  }

  /** A prefix of what was produced is data alone, or everything with the frame that ends it. */
  lemma PrefixOfProduced(id: Bytes, h: History, fs: seq<Frame>)
    requires fs <= Produced(id, h)
    ensures var data := DataFrames(id, h.chunks);
            if |fs| <= |data| then fs == data[..|fs|] && forall f | f in fs :: !Ends(f)
            else h.upstream != Open && fs == Produced(id, h) && fs[..|fs| - 1] == data
                 && exists f | f in fs :: Ends(f)
  {
    var p, data := Produced(id, h), DataFrames(id, h.chunks);
    assert p[..|fs|] == fs;
    if |fs| > |data| {
      assert fs == p;
      EndsHaveFlags(id, if h.upstream.Unreachable? then h.upstream.error else [], fs[|fs| - 1]);
      assert fs[|fs| - 1] in fs && Ends(fs[|fs| - 1]);
    } else {
      assert p[..|fs|] == data[..|fs|];
      forall f | f in fs
        ensures !Ends(f)
      {
        EndsHaveFlags(id, [], f);
      }
    }
  }

  lemma PollOne(w: World, f: Frame, now: real)
    requires Running(w) && Tx(w) == [f]
    ensures var v := Next(w, PollDrain, now);
            && Running(v) && Tx(v) == [] && v.client == w.client && v.h == w.h && v.id == w.id
            && |v.flight| == |w.flight| + 1 && v.flight[..|w.flight|] == w.flight
            && OfSession(v.flight[|w.flight|], w.id) == [f]
  {
    hide OwnFrames, WellFormed, Exit.PollDrained, Exit.PollFrames, Drain, OfSession;
    var p := w.server;
    var i := IndexOf(p, w.id);
    Exit.PollShare(p, |p.order|, i);
    Exit.PollEntries(p, |p.order|);
    DrainTakesPrefix(p.sessions[w.id], Exit.POLL_DRAIN);
    assert Drained(p.sessions[w.id], Exit.POLL_DRAIN) == [f];
    if Exit.PollFrames(p, |p.order|) == [] {
      NothingOfNothing(w.id);
    }
    StepRuns(w, PollDrain, now);
  }

  lemma NothingOfNothing(id: Bytes)
    ensures OfSession([], id) == []
  {
  }

  /**
   * Two replies in flight suffice for the order to matter: when the one with the FIN is dispatched
   * first, the reader closes without having written the bytes sent before it.
   */
  lemma OvertakingLosesBytes(w: World, data: Bytes, now: real)
    requires Running(w) && Initial(w) && data != []
    ensures var w1 := Next(w, UpstreamRead(data), now);
            && Running(w1)
            && var w2 := Next(w1, PollDrain, now);
            && Running(w2)
            && var w3 := Next(w2, UpstreamEof, now);
            && Running(w3)
            && var w4 := Next(w3, PollDrain, now);
            && Running(w4)
            && var w5 := Next(w4, DispatchReply(1), now);
            && Running(w5)
            && var h := Next(w5, ClientRead, now).h;
            && h.chunks == [data] && h.closed && h.written == []
  {
    hide Next, Running, Tx, Exit.PollFrames, OfSession;
    InitialParts(w);
    var w1 := Next(w, UpstreamRead(data), now);
    SendOne(w, data, now);
    var w2 := Next(w1, PollDrain, now);
    PollOne(w1, DataFrame(w.id, 0, data), now);
    var w3 := Next(w2, UpstreamEof, now);
    SendOne(w2, [], now);
    PollOne(w3, FinFrame(w.id), now);
    var w4 := Next(w3, PollDrain, now);
    DispatchHands(w4, 1, now);
    var w5 := Next(w4, DispatchReply(1), now);
    assert w4.flight == [w2.flight[0], w4.flight[1]];
    ReadsFin(w5, now);
  }

  lemma InitialParts(w: World)
    requires Initial(w)
    ensures Tx(w) == [] && Delivered(w) == [] && w.flight == [] && w.h == History([], Open, [], [], false)
  {
  }

  /** One upstream read of data, or its end if data is empty, on an empty queue. */
  lemma SendOne(w: World, data: Bytes, now: real)
    requires Running(w) && Tx(w) == [] && w.h.upstream == Open
    ensures var f := if data == [] then FinFrame(w.id) else DataFrame(w.id, |w.h.chunks|, data);
            var v := Next(w, if data == [] then UpstreamEof else UpstreamRead(data), now);
            && Running(v) && Tx(v) == [f] && v.client == w.client && v.flight == w.flight && v.id == w.id
            && v.h == if data == [] then w.h.(upstream := Ended) else w.h.(chunks := w.h.chunks + [data])
  {
    hide OwnFrames, WellFormed;
    var f := if data == [] then FinFrame(w.id) else DataFrame(w.id, |w.h.chunks|, data);
    SendOnKeeps(w.server, w.id, f, now);
    assert [] + [f] == [f];
  }

  lemma ReadsFin(w: World, now: real)
    requires Running(w) && !w.h.closed && w.h.consumed == [] && Delivered(w) == [FinFrame(w.id)]
    ensures var h := Next(w, ClientRead, now).h;
            h.closed && h.chunks == w.h.chunks && h.written == w.h.written
  {
    hide OwnFrames, WellFormed, ReadOn;
    assert Rx(w) == [FinFrame(w.id)];
    EndsHaveFlags(w.id, [], FinFrame(w.id));
  }
}
