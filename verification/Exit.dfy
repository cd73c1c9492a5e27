/** The exit server's side of a poll: demultiplexing a batch, and draining the sessions for the reply. */
module Exit {
  import opened Octets
  import opened Wrappers
  import opened Frames
  import opened Chunks
  import opened Sessions
  import opened Pools
  import Carrier

  const POLL_DRAIN := 8

  /** b"busy" */
  const BUSY: Bytes := [0x62, 0x75, 0x73, 0x79]

  function BusyReply(id: Bytes): Frame {
    RstFrame(id, BUSY)
  }

  /** The pool, the sessions for which an upstream worker was spawned, and the replies so far. */
  datatype Demux = Demux(pool: PoolState, spawned: seq<Bytes>, replies: seq<Frame>)

  function SetSeq(p: PoolState, id: Bytes, n: nat): PoolState {
    if id in p.sessions then p.(sessions := p.sessions[id := p.sessions[id].(seqno := n)]) else p
  }

  /** One turn of the demultiplexing loop of `_handle_tunnel_post`. */
  function Handle(d: Demux, f: Frame, busy: bool, now: real): Demux {
    var p := d.pool;
    if f.Has(SYN) then
      var q := SetSeq(Created(p, f.sid, f.flags, f.target, now), f.sid, f.seqno + 1);
      if busy then Demux(q, d.spawned, d.replies + [BusyReply(f.sid)])
      else Demux(q, d.spawned + [f.sid], d.replies)
    else if f.Has(FIN) then d.(pool := Deliver(p, f, now))
    else if f.Has(ACK) then
      if f.sid in p.sessions then d.(pool := SetSeq(p, f.sid, Max(p.sessions[f.sid].seqno, f.seqno + 1))) else d
    else if f.Has(RST) then d.(pool := Removed(p, {f.sid}))
    else if f.flags == 0 then d.(pool := Deliver(p, f, now))
    else d
  }

  function HandleAll(d: Demux, fs: seq<Frame>, busy: bool, now: real): Demux {
    if fs == [] then d else Handle(HandleAll(d, fs[..|fs| - 1], busy, now), fs[|fs| - 1], busy, now)
  }

  method SetSessionSeq(pool: SessionPool, s: Session, n: nat)
    requires pool.Valid() && s.id in pool.sessions && pool.sessions[s.id] == s
    modifies s
    ensures pool.Valid() && pool.View() == SetSeq(old(pool.View()), s.id, n)
  {
    s.seqno := n;
    pool.OneChanged(s);
  }

  method DeliverTo(pool: SessionPool, f: Frame, now: real)
    requires pool.Valid()
    modifies if f.sid in pool.sessions then {pool.sessions[f.sid]} else {}
    ensures pool.Valid() && pool.View() == Deliver(old(pool.View()), f, now)
  {
    hide EnqueueRx;
    var s := pool.Get(f.sid);
    if s != null {
      s.EnqueueRx(f, now);
      pool.OneChanged(s);
    }
  }

  /** The body of the loop, in place. */
  method HandleFrame(pool: SessionPool, f: Frame, busy: bool, now: real, replies: seq<Frame>, spawned: seq<Bytes>)
    returns (replies': seq<Frame>, spawned': seq<Bytes>)
    requires pool.Valid()
    modifies pool, pool.sessions.Values
    ensures pool.Valid()
    ensures fresh(pool.sessions.Values - old(pool.sessions.Values))
    ensures Demux(pool.View(), spawned', replies') == Handle(Demux(old(pool.View()), spawned, replies), f, busy, now)
  {
    hide Created, SetSeq, Deliver, Removed, Frame.Has, Distinct, Fresh, Without;
    replies', spawned' := replies, spawned;
    if f.Has(SYN) {
      var session := pool.GetOrCreate(f.sid, f.flags, f.target, now);
      SetSessionSeq(pool, session, f.seqno + 1);
      if busy {
        replies' := replies + [BusyReply(f.sid)];
        return;
      }
      spawned' := spawned + [f.sid];
    } else if f.Has(FIN) {
      DeliverTo(pool, f, now);
    } else if f.Has(ACK) {
      var s := pool.Get(f.sid);
      if s != null {
        SetSessionSeq(pool, s, Max(s.seqno, f.seqno + 1));
      }
    } else if f.Has(RST) {
      pool.Remove(f.sid);
    } else if f.flags == 0 {
      DeliverTo(pool, f, now);
    }
  }

  /** The demultiplexing loop. */
  method HandleFrames(pool: SessionPool, fs: seq<Frame>, busy: bool, now: real)
    returns (replies: seq<Frame>, spawned: seq<Bytes>)
    requires pool.Valid()
    modifies pool, pool.sessions.Values
    ensures pool.Valid()
    ensures Demux(pool.View(), spawned, replies) == HandleAll(Demux(old(pool.View()), [], []), fs, busy, now)
  {
    hide Handle;
    replies, spawned := [], [];
    for i := 0 to |fs|
      invariant pool.Valid()
      invariant fresh(pool.sessions.Values - old(pool.sessions.Values))
      invariant Demux(pool.View(), spawned, replies) == HandleAll(Demux(old(pool.View()), [], []), fs[..i], busy, now)
    {
      assert fs[..i + 1][..i] == fs[..i];
      replies, spawned := HandleFrame(pool, fs[i], busy, now, replies, spawned);
    }
    assert fs[..|fs|] == fs;
  }

  // ----- one drain pass of the long poll -----

  /** Every session gives up to eight frames; the pass visits the first k sessions of the order. */
  function PollDrained(p: PoolState, k: nat): PoolState
    requires k <= |p.order|
  {
    if k == 0 then p else DrainedPool(PollDrained(p, k - 1), p.order[k - 1], POLL_DRAIN)
  }

  function PollFrames(p: PoolState, k: nat): seq<Frame>
    requires k <= |p.order|
  {
    if k == 0 then [] else PollFrames(p, k - 1) + SnapshotAt(p, p.order[k - 1], POLL_DRAIN).frames
  }

  lemma {:induction false} PollEntries(p: PoolState, k: nat)
    requires WellFormed(p) && k <= |p.order|
    ensures var q := PollDrained(p, k);
            && q.order == p.order && q.sessions.Keys == p.sessions.Keys
            && (forall i | 0 <= i < k :: q.sessions[p.order[i]] == Drain(p.sessions[p.order[i]], POLL_DRAIN))
            && (forall i | k <= i < |p.order| :: q.sessions[p.order[i]] == p.sessions[p.order[i]])
  {
    hide Drain, Distinct;
    if k > 0 {
      PollEntries(p, k - 1);
      Carrier.DistinctAt(p.order, k - 1);
    }
  }

  method DrainForReply(pool: SessionPool) returns (frames: seq<Frame>)
    requires pool.Valid()
    modifies pool.sessions.Values
    ensures pool.Valid()
    ensures var p := old(pool.View());
            && WellFormed(p)
            && pool.View() == PollDrained(p, |p.order|)
            && frames == PollFrames(p, |p.order|)
  {
    hide Drain, PayloadSum, PollDrained, PollFrames, DrainedPool, SnapshotAt, WellFormed, Distinct;
    ghost var p := pool.View();
    pool.ViewWellFormed();
    frames := [];
    PollStart(p);
    var sids := pool.order;
    for k := 0 to |sids|
      invariant pool.Valid() && pool.order == sids && pool.sessions == old(pool.sessions)
      invariant pool.View() == PollDrained(p, k)
      invariant frames == PollFrames(p, k)
    {
      PollTurn(p, k);
      var s := pool.sessions[sids[k]];
      assert s.View() == pool.View().sessions[sids[k]];
      if |s.txQ| > 0 {
        var snapshot := pool.DrainTxLimited(sids[k], POLL_DRAIN);
        frames := frames + snapshot.frames;
      }
    }
  }

  lemma PollStart(p: PoolState)
    requires WellFormed(p)
    ensures PollDrained(p, 0) == p && PollFrames(p, 0) == []
  {
  }

  lemma PollTurn(p: PoolState, k: nat)
    requires WellFormed(p) && k < |p.order|
    ensures var q, id := PollDrained(p, k), p.order[k];
            && id in q.sessions
            && PollDrained(p, k + 1) == DrainedPool(q, id, POLL_DRAIN)
            && PollFrames(p, k + 1) == PollFrames(p, k) + SnapshotAt(q, id, POLL_DRAIN).frames
            && (q.sessions[id].txQ == [] ==>
                  PollDrained(p, k + 1) == q && PollFrames(p, k + 1) == PollFrames(p, k))
  {
    PollEntries(p, k);
    var q, id := PollDrained(p, k), p.order[k];
    if q.sessions[id].txQ == [] {
      EmptyDrain(q.sessions[id]);
      assert q.sessions[id := Drain(q.sessions[id], POLL_DRAIN)] == q.sessions;
    }
  }

  lemma EmptyDrain(s: SessionState)
    requires s.txQ == []
    ensures Drain(s, POLL_DRAIN) == s && Drained(s, POLL_DRAIN) == []
  {
  }

  /** What the k-th visit adds for a session: its own frames when it is visited, else nothing. */
  lemma PollShareStep(p: PoolState, k: nat, id: Bytes)
    requires WellFormed(p) && Carrier.OwnFrames(p) && k < |p.order|
    ensures Carrier.OfSession(PollFrames(p, k + 1), id)
            == Carrier.OfSession(PollFrames(p, k), id)
               + if p.order[k] == id then Drained(p.sessions[id], POLL_DRAIN) else []
  {
    hide Carrier.OwnFrames, Carrier.AllFrom, Drained, Carrier.OfSession;
    var last := p.order[k];
    DrainedOwn(p, last);
    Carrier.OfSessionAppend(PollFrames(p, k), Drained(p.sessions[last], POLL_DRAIN), id);
    Carrier.OfSessionAllFrom(Drained(p.sessions[last], POLL_DRAIN), last, id);
  }

  lemma {:induction false} PollNothing(p: PoolState, k: nat, id: Bytes)
    requires WellFormed(p) && Carrier.OwnFrames(p) && k <= |p.order|
    requires forall i | 0 <= i < k :: p.order[i] != id
    ensures Carrier.OfSession(PollFrames(p, k), id) == []
  {
    hide Carrier.OwnFrames;
    if k > 0 {
      PollNothing(p, k - 1, id);
      PollShareStep(p, k - 1, id);
    }
  }

  lemma OthersBefore(p: PoolState, i: nat)
    requires WellFormed(p) && i < |p.order|
    ensures forall j | 0 <= j < |p.order| && j != i :: p.order[j] != p.order[i]
    ensures p.order[i] in p.sessions
  {
  }

  lemma DrainedLength(s: SessionState)
    ensures |Drained(s, POLL_DRAIN)| == Min(8, |s.txQ|)
  {
  }

  /** The reply holds, for every session, the frames its queue lost, in order: up to eight. */
  lemma {:induction false} PollShare(p: PoolState, k: nat, i: nat)
    requires WellFormed(p) && Carrier.OwnFrames(p) && i < k <= |p.order|
    ensures Carrier.OfSession(PollFrames(p, k), p.order[i]) == Drained(p.sessions[p.order[i]], POLL_DRAIN)
    ensures |Carrier.OfSession(PollFrames(p, k), p.order[i])| == Min(8, |p.sessions[p.order[i]].txQ|)
  {
    hide Carrier.OwnFrames, Drained, Carrier.OfSession, PollFrames, WellFormed;
    OthersBefore(p, i);
    DrainedLength(p.sessions[p.order[i]]);
    PollShareStep(p, k - 1, p.order[i]);
    if i == k - 1 {
      PollNothing(p, k - 1, p.order[i]);
    } else {
      PollShare(p, k - 1, i);
    }
  }

  lemma DrainedOwn(p: PoolState, id: Bytes)
    requires id in p.sessions && Carrier.OwnFrames(p)
    ensures Carrier.AllFrom(Drained(p.sessions[id], POLL_DRAIN), id)
  {
    assert Carrier.AllFrom(p.sessions[id].txQ, id);
  }

  // ----- isolation of sessions -----

  /** What concerns one session: its pool entry, its spawns and its replies. */
  datatype Share = Share(entry: Option<SessionState>, spawned: nat, replies: seq<Frame>)

  function Count(ids: seq<Bytes>, id: Bytes): nat {
    if ids == [] then 0 else Count(ids[..|ids| - 1], id) + if ids[|ids| - 1] == id then 1 else 0
  }

  function ShareOf(d: Demux, id: Bytes): Share {
    Share(EntryOf(d.pool, id), Count(d.spawned, id), Carrier.OfSession(d.replies, id))
  }

  function EntryOf(p: PoolState, id: Bytes): Option<SessionState> {
    if id in p.sessions then Some(p.sessions[id]) else None
  }

  /** What a frame does to the pool entry of its own session. */
  function EntryStep(e: Option<SessionState>, f: Frame, now: real): Option<SessionState> {
    if f.Has(SYN) then
      var s := if e.Some? then e.value else Fresh(f.sid, f.flags, f.target, now);
      Some(s.(seqno := f.seqno + 1))
    else if f.Has(FIN) || (f.flags == 0 && !f.Has(ACK) && !f.Has(RST)) then
      if e.Some? then Some(EnqueueRx(e.value, f, now)) else e
    else if f.Has(ACK) then
      if e.Some? then Some(e.value.(seqno := Max(e.value.seqno, f.seqno + 1))) else e
    else if f.Has(RST) then None
    else e
  }

  lemma HandleEntry(d: Demux, f: Frame, id: Bytes, busy: bool, now: real)
    ensures EntryOf(Handle(d, f, busy, now).pool, id)
            == if f.sid == id then EntryStep(EntryOf(d.pool, id), f, now) else EntryOf(d.pool, id)
  {
    hide EnqueueRx, Without, Fresh;
  }

  lemma HandleLogs(d: Demux, f: Frame, busy: bool, now: real)
    ensures var h := Handle(d, f, busy, now);
            && h.spawned == d.spawned + (if f.Has(SYN) && !busy then [f.sid] else [])
            && h.replies == d.replies + (if f.Has(SYN) && busy then [BusyReply(f.sid)] else [])
  {
    hide EnqueueRx, Without, Fresh, Created, SetSeq, Deliver;
  }

  lemma {:induction false} CountAppend(a: seq<Bytes>, b: seq<Bytes>, id: Bytes)
    ensures Count(a + b, id) == Count(a, id) + Count(b, id)
  {
    if b == [] {
      assert a + b == a;
    } else {
      assert (a + b)[..|a + b| - 1] == a + b[..|b| - 1];
      CountAppend(a, b[..|b| - 1], id);
    }
  }

  /** A frame changes the share of its own session only, and by that share only. */
  lemma HandleShares(d: Demux, e: Demux, f: Frame, id: Bytes, busy: bool, now: real)
    requires ShareOf(d, id) == ShareOf(e, id)
    ensures f.sid != id ==> ShareOf(Handle(d, f, busy, now), id) == ShareOf(d, id)
    ensures f.sid == id ==> ShareOf(Handle(d, f, busy, now), id) == ShareOf(Handle(e, f, busy, now), id)
  {
    hide Handle, EntryStep, Frame.Has, Count, Carrier.OfSession, EntryOf, BusyReply;
    HandleEntry(d, f, id, busy, now);
    HandleEntry(e, f, id, busy, now);
    HandleLogs(d, f, busy, now);
    HandleLogs(e, f, busy, now);
    var spawn := if f.Has(SYN) && !busy then [f.sid] else [];
    var reply := if f.Has(SYN) && busy then [BusyReply(f.sid)] else [];
    CountAppend(d.spawned, spawn, id);
    CountAppend(e.spawned, spawn, id);
    Carrier.OfSessionAppend(d.replies, reply, id);
    Carrier.OfSessionAppend(e.replies, reply, id);
    if f.sid != id {
      NothingOf(spawn, reply, f.sid, id);
    }
  }

  lemma NothingOf(spawn: seq<Bytes>, reply: seq<Frame>, owner: Bytes, id: Bytes)
    requires owner != id && (spawn == [] || spawn == [owner]) && (reply == [] || reply == [BusyReply(owner)])
    ensures Count(spawn, id) == 0 && Carrier.OfSession(reply, id) == []
  {
    assert Carrier.AllFrom(reply, owner);
    Carrier.OfSessionAllFrom(reply, owner, id);
  }

  /** A session fares in a whole batch exactly as if the batch held its own frames alone. */
  lemma {:induction false} SessionIsolation(d: Demux, fs: seq<Frame>, id: Bytes, busy: bool, now: real)
    ensures ShareOf(HandleAll(d, fs, busy, now), id)
            == ShareOf(HandleAll(d, Carrier.OfSession(fs, id), busy, now), id)
  {
    hide Handle, ShareOf;
    if fs != [] {
      var init, f := fs[..|fs| - 1], fs[|fs| - 1];
      SessionIsolation(d, init, id, busy, now);
      var own := Carrier.OfSession(init, id);
      HandleShares(HandleAll(d, init, busy, now), HandleAll(d, own, busy, now), f, id, busy, now);
      assert (own + [f])[..|own|] == own;
      assert own + [] == own;
    }
  }

  /** A batch in two parts is the two parts one after the other. */
  lemma {:induction false} BatchesCompose(d: Demux, a: seq<Frame>, b: seq<Frame>, busy: bool, now: real)
    ensures HandleAll(d, a + b, busy, now) == HandleAll(HandleAll(d, a, busy, now), b, busy, now)
  {
    hide Handle;
    if b == [] {
      assert a + b == a;
    } else {
      assert (a + b)[..|a + b| - 1] == a + b[..|b| - 1];
      BatchesCompose(d, a, b[..|b| - 1], busy, now);
    }
  }

  // ----- what a session receives -----

  /** The frame ends its session. */
  predicate Kills(f: Frame) {
    f.Has(RST) && !f.Has(SYN) && !f.Has(FIN) && !f.Has(ACK)
  }

  /** The frame goes to the rx queue. */
  predicate Delivers(f: Frame) {
    f.flags == 0 || (f.Has(FIN) && !f.Has(SYN))
  }

  function Delivered(fs: seq<Frame>): seq<Frame> {
    if fs == [] then []
    else Delivered(fs[..|fs| - 1]) + if Delivers(fs[|fs| - 1]) then [fs[|fs| - 1]] else []
  }

  function EntryAfter(e: Option<SessionState>, fs: seq<Frame>, now: real): Option<SessionState> {
    if fs == [] then e else EntryStep(EntryAfter(e, fs[..|fs| - 1], now), fs[|fs| - 1], now)
  }

  lemma {:induction false} EntryOfBatch(d: Demux, fs: seq<Frame>, id: Bytes, busy: bool, now: real)
    ensures EntryOf(HandleAll(d, fs, busy, now).pool, id)
            == EntryAfter(EntryOf(d.pool, id), Carrier.OfSession(fs, id), now)
  {
    hide Handle, EntryStep;
    if fs != [] {
      var init, f := fs[..|fs| - 1], fs[|fs| - 1];
      EntryOfBatch(d, init, id, busy, now);
      HandleEntry(HandleAll(d, init, busy, now), f, id, busy, now);
      var own := Carrier.OfSession(init, id);
      assert (own + [f])[..|own|] == own;
      assert own + [] == own;
    }
  }

  lemma {:induction false} EntryAfterAppend(e: Option<SessionState>, a: seq<Frame>, b: seq<Frame>, now: real)
    ensures EntryAfter(e, a + b, now) == EntryAfter(EntryAfter(e, a, now), b, now)
  {
    hide EntryStep;
    if b == [] {
      assert a + b == a;
    } else {
      assert (a + b)[..|a + b| - 1] == a + b[..|b| - 1];
      EntryAfterAppend(e, a, b[..|b| - 1], now);
    }
  }

  predicate NoKill(fs: seq<Frame>) {
    forall i | 0 <= i < |fs| :: !Kills(fs[i])
  }

  predicate NoSyn(fs: seq<Frame>) {
    forall i | 0 <= i < |fs| :: !fs[i].Has(SYN)
  }

  /** A session that is there and not killed gets every data and FIN frame, in order. */
  lemma {:induction false} LiveReceives(s: SessionState, fs: seq<Frame>, now: real)
    requires NoKill(fs)
    ensures var e := EntryAfter(Some(s), fs, now);
            && e.Some? && e.value.rxQ == s.rxQ + Delivered(fs) && e.value.target == s.target
            && Carrier.Gained(s.(seqno := e.value.seqno), e.value, Delivered(fs), now)
  {
    if fs == [] {
      NothingGained(s, now);
    } else {
      LiveReceives(s, fs[..|fs| - 1], now);
      LiveStep(s, fs, now);
    }
  }

  lemma NothingGained(s: SessionState, now: real)
    ensures Carrier.Gained(s, s, [], now)
  {
    assert s.rxQ + [] == s.rxQ;
  }

  lemma LiveStep(s: SessionState, fs: seq<Frame>, now: real)
    requires fs != [] && NoKill(fs)
    requires var e := EntryAfter(Some(s), fs[..|fs| - 1], now);
             e.Some? && Carrier.Gained(s.(seqno := e.value.seqno), e.value, Delivered(fs[..|fs| - 1]), now)
    ensures var e := EntryAfter(Some(s), fs, now);
            e.Some? && Carrier.Gained(s.(seqno := e.value.seqno), e.value, Delivered(fs), now)
  {
    hide PayloadSum;
    var got, f := Delivered(fs[..|fs| - 1]), fs[|fs| - 1];
    assert !Kills(f);
    SumOne(f);
    PayloadSumAppend(got, [f]);
    assert s.rxQ + (got + [f]) == s.rxQ + got + [f] && got + [] == got;
  }

  /** A session that is not there stays so until a SYN. */
  lemma {:induction false} AbsentWithoutSyn(fs: seq<Frame>, now: real)
    requires NoSyn(fs)
    ensures EntryAfter(None, fs, now) == None
  {
    if fs != [] {
      AbsentWithoutSyn(fs[..|fs| - 1], now);
    }
  }

  /**
   * What a session receives from its frames in a batch: only those after the last kill count
   * (a of them come before it, the kill included), and of those, if the session was not there,
   * only the ones after the first SYN, which also names its target for good.
   */
  lemma ReceivedFromBatch(e: Option<SessionState>, fs: seq<Frame>, a: nat, y: nat, now: real)
    requires a <= |fs| && NoKill(fs[a..]) && (a == 0 || Kills(fs[a - 1]))
    requires a <= y <= |fs| && NoSyn(fs[a..y]) && (y == |fs| || fs[y].Has(SYN))
    ensures var r := EntryAfter(e, fs, now);
            if a == 0 && e.Some? then
              r.Some? && r.value.rxQ == e.value.rxQ + Delivered(fs) && r.value.target == e.value.target
            else if y < |fs| then
              && r.Some? && r.value.rxQ == Delivered(fs[y + 1..]) && r.value.target == fs[y].target
              && r.value.flags == fs[y].flags && r.value.id == fs[y].sid && r.value.txQ == []
              && r.value.lastActivity == now
            else r.None?
  {
    hide EnqueueRx;
    var before := if a == 0 then e else None;
    assert fs == fs[..a] + fs[a..];
    EntryAfterAppend(e, fs[..a], fs[a..], now);
    assert a > 0 ==> fs[..a][..a - 1] == fs[..a - 1];
    assert EntryAfter(e, fs[..a], now) == before;
    if before.Some? {
      assert fs[a..] == fs;
      LiveReceives(before.value, fs, now);
    } else {
      AfterSyn(fs, a, y, now);
    }
  }

  lemma AfterSyn(fs: seq<Frame>, a: nat, y: nat, now: real)
    requires a <= y <= |fs| && NoKill(fs[a..])
    requires NoSyn(fs[a..y]) && (y == |fs| || fs[y].Has(SYN))
    ensures var r := EntryAfter(None, fs[a..], now);
            if y < |fs| then
              && r.Some? && r.value.rxQ == Delivered(fs[y + 1..]) && r.value.target == fs[y].target
              && r.value.flags == fs[y].flags && r.value.id == fs[y].sid && r.value.txQ == []
              && r.value.lastActivity == now
            else r.None?
  {
    AbsentWithoutSyn(fs[a..y], now);
    if y == |fs| {
      assert fs[a..] == fs[a..y];
    } else {
      assert fs[a..] == fs[a..y] + ([fs[y]] + fs[y + 1..]);
      EntryAfterAppend(None, fs[a..y], [fs[y]] + fs[y + 1..], now);
      EntryAfterAppend(None, [fs[y]], fs[y + 1..], now);
      var syn := fs[y];
      assert [syn][..0] == [];
      var s := Fresh(syn.sid, syn.flags, syn.target, now).(seqno := syn.seqno + 1);
      assert EntryAfter(None, [syn], now) == Some(s);
      var tail := fs[y + 1..];
      assert NoKill(tail) by {
        assert tail == fs[a..][y + 1 - a..];
      }
      LiveReceives(s, tail, now);
    }
  }

  // ----- spawns, replies and sequence numbers -----

  function SynCount(fs: seq<Frame>): nat {
    if fs == [] then 0 else SynCount(fs[..|fs| - 1]) + if fs[|fs| - 1].Has(SYN) then 1 else 0
  }

  /** One upstream worker for every SYN, or one "busy" reset for every SYN if the server is full. */
  lemma {:induction false} SpawnsAndReplies(d: Demux, fs: seq<Frame>, id: Bytes, busy: bool, now: real)
    ensures var h, n := HandleAll(d, fs, busy, now), SynCount(Carrier.OfSession(fs, id));
            && Count(h.spawned, id) == Count(d.spawned, id) + (if busy then 0 else n)
            && Carrier.OfSession(h.replies, id)
               == Carrier.OfSession(d.replies, id) + (if busy then BusyReplies(id, n) else [])
  {
    hide Handle, Frame.Has, SynCount, Count, Carrier.OfSession;
    if fs == [] {
      NoSyns(id);
      assert Carrier.OfSession(d.replies, id) + [] == Carrier.OfSession(d.replies, id);
    } else {
      var init, f := fs[..|fs| - 1], fs[|fs| - 1];
      SpawnsAndReplies(d, init, id, busy, now);
      OwnSnoc(fs, id);
      LogsStep(HandleAll(d, init, busy, now), Carrier.OfSession(init, id), f, id, busy, now);
      var r, n := Carrier.OfSession(d.replies, id), SynCount(Carrier.OfSession(init, id));
      assert r + BusyReplies(id, n) + [BusyReply(id)] == r + (BusyReplies(id, n) + [BusyReply(id)]);
      assert forall xs: seq<Frame> :: xs + [] == xs;
    }
  }

  const MAX_CONCURRENT_UPSTREAM := 256

  /** `Semaphore.locked`: no permit is left. */
  predicate Locked(permits: nat) {
    permits == 0
  }

  /**
   * Nothing ever takes a permit, so the semaphore keeps all 256: a batch starts as many upstream
   * workers as it has SYNs, however many, and none is answered "busy".
   */
  lemma {:induction false} EverySynSpawns(d: Demux, fs: seq<Frame>, now: real)
    ensures var h := HandleAll(d, fs, Locked(MAX_CONCURRENT_UPSTREAM), now);
            |h.spawned| == |d.spawned| + SynCount(fs) && h.replies == d.replies
  {
    hide Handle, Frame.Has;
    if fs != [] {
      EverySynSpawns(d, fs[..|fs| - 1], now);
      HandleLogs(HandleAll(d, fs[..|fs| - 1], false, now), fs[|fs| - 1], false, now);
    }
  }

  lemma NoSyns(id: Bytes)
    ensures SynCount(Carrier.OfSession([], id)) == 0
  {
  }

  lemma OwnSnoc(fs: seq<Frame>, id: Bytes)
    requires fs != []
    ensures Carrier.OfSession(fs, id)
            == Carrier.OfSession(fs[..|fs| - 1], id) + if fs[|fs| - 1].sid == id then [fs[|fs| - 1]] else []
  {
  }

  /** n resets with the text "busy". */
  function BusyReplies(id: Bytes, n: nat): seq<Frame> {
    if n == 0 then [] else BusyReplies(id, n - 1) + [Frame(id, 0, 8, "", [0x62, 0x75, 0x73, 0x79])]
  }

  /** What one frame adds to the logs of session id. */
  lemma LogsStep(g: Demux, own: seq<Frame>, f: Frame, id: Bytes, busy: bool, now: real)
    ensures var h := Handle(g, f, busy, now);
            var own' := own + (if f.sid == id then [f] else []);
            var hit := f.sid == id && f.Has(SYN);
            && SynCount(own') == SynCount(own) + (if hit then 1 else 0)
            && Count(h.spawned, id) == Count(g.spawned, id) + (if hit && !busy then 1 else 0)
            && Carrier.OfSession(h.replies, id)
               == Carrier.OfSession(g.replies, id) + (if hit && busy then [BusyReply(id)] else [])
  {
    hide Handle, Frame.Has;
    HandleLogs(g, f, busy, now);
    assert (own + [f])[..|own|] == own && own + [] == own;
    assert (g.spawned + [f.sid])[..|g.spawned|] == g.spawned && g.spawned + [] == g.spawned;
    assert (g.replies + [BusyReply(f.sid)])[..|g.replies|] == g.replies && g.replies + [] == g.replies;
    assert Carrier.OfSession(g.replies, id) + [] == Carrier.OfSession(g.replies, id);
  }

  /** The counter an acknowledgement in fs raises n to. */
  function Acked(n: nat, fs: seq<Frame>): nat {
    if fs == [] then n
    else
      var m, f := Acked(n, fs[..|fs| - 1]), fs[|fs| - 1];
      if f.Has(ACK) && !f.Has(FIN) then Max(m, f.seqno + 1) else m
  }

  /** Until a SYN or a kill, the counter is the largest it was or was acknowledged to be. */
  lemma {:induction false} CounterAfterBatch(s: SessionState, fs: seq<Frame>, now: real)
    requires NoKill(fs) && NoSyn(fs)
    ensures var e := EntryAfter(Some(s), fs, now); e.Some? && e.value.seqno == Acked(s.seqno, fs)
    ensures Acked(s.seqno, fs) >= s.seqno
    ensures forall i | 0 <= i < |fs| && fs[i].Has(ACK) && !fs[i].Has(FIN) :: Acked(s.seqno, fs) > fs[i].seqno
    ensures Acked(s.seqno, fs) == s.seqno
            || exists i | 0 <= i < |fs| && fs[i].Has(ACK) && !fs[i].Has(FIN) :: Acked(s.seqno, fs) == fs[i].seqno + 1
  {
    if fs != [] {
      CounterAfterBatch(s, fs[..|fs| - 1], now);
    }
  }

  /** A SYN sets the counter behind its own number, and acknowledgements raise it from there. */
  lemma CounterAfterSyn(e: Option<SessionState>, syn: Frame, fs: seq<Frame>, now: real)
    requires syn.Has(SYN) && NoKill(fs) && NoSyn(fs)
    ensures var r := EntryAfter(e, [syn] + fs, now); r.Some? && r.value.seqno == Acked(syn.seqno + 1, fs)
  {
    var one := [syn];
    assert one[..|one| - 1] == [] && EntryAfter(e, [], now) == e;
    var r := EntryAfter(e, one, now);
    assert r == EntryStep(e, one[0], now);
    EntryAfterAppend(e, one, fs, now);
    CounterAfterBatch(r.value, fs, now);
  }
}
