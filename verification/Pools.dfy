/** `SessionPool`: its operations on values, and the classes that carry them out in place. */
module Pools {
  import opened Octets
  import opened Frames
  import opened Sessions

  /** The dictionary of sessions, with its keys in insertion order. */
  datatype PoolState = PoolState(order: seq<Bytes>, sessions: map<Bytes, SessionState>) {
    function Put(s: SessionState): PoolState {
      this.(sessions := sessions[s.id := s])
    }
  }

  /** The order lists exactly the keys, each once, and every session is under its own id. */
  ghost predicate WellFormed(p: PoolState) {
    && Distinct(p.order)
    && (forall id :: id in p.order <==> id in p.sessions)
    && (forall id | id in p.sessions :: p.sessions[id].id == id)
  }

  function Created(p: PoolState, id: Bytes, flags: nat, target: string, now: real): PoolState {
    if id in p.sessions then p
    else PoolState(p.order + [id], p.sessions[id := Fresh(id, flags, target, now)])
  }

  /** The ids that are not gone, in their order. */
  function Without(ids: seq<Bytes>, gone: set<Bytes>): seq<Bytes> {
    if ids == [] then []
    else
      var init, last := Without(ids[..|ids| - 1], gone), ids[|ids| - 1];
      if last in gone then init else init + [last]
  }

  lemma {:induction false} WithoutKeeps(ids: seq<Bytes>, gone: set<Bytes>)
    ensures forall id :: id in Without(ids, gone) <==> id in ids && id !in gone
    ensures Distinct(ids) ==> Distinct(Without(ids, gone))
  {
    if ids != [] {
      WithoutKeeps(ids[..|ids| - 1], gone);
    }
  }

  lemma {:induction false} WithoutMore(ids: seq<Bytes>, a: set<Bytes>, b: set<Bytes>)
    ensures Without(Without(ids, a), b) == Without(ids, a + b)
  {
    if ids != [] {
      var init, last := ids[..|ids| - 1], ids[|ids| - 1];
      WithoutMore(init, a, b);
      if last !in a {
        assert (Without(init, a) + [last])[..|Without(init, a)|] == Without(init, a);
      }
    }
  }

  lemma {:induction false} WithoutNone(ids: seq<Bytes>)
    ensures Without(ids, {}) == ids
  {
    if ids != [] {
      WithoutNone(ids[..|ids| - 1]);
    }
  }

  function Removed(p: PoolState, gone: set<Bytes>): PoolState {
    PoolState(Without(p.order, gone), p.sessions - gone)
  }

  lemma RemovedMore(p: PoolState, a: set<Bytes>, b: set<Bytes>)
    ensures Removed(Removed(p, a), b) == Removed(p, a + b)
  {
    hide Without;
    WithoutMore(p.order, a, b);
  }

  lemma RemovedNone(p: PoolState)
    ensures Removed(p, {}) == p
  {
    hide Without;
    WithoutNone(p.order);
  }

  function DrainedPool(p: PoolState, id: Bytes, maxFrames: nat): PoolState {
    if id in p.sessions then p.(sessions := p.sessions[id := Drain(p.sessions[id], maxFrames)]) else p
  }

  function SnapshotAt(p: PoolState, id: Bytes, maxFrames: nat): Snapshot {
    if id in p.sessions then SnapshotOf(p.sessions[id], maxFrames) else Snapshot(id, [], 0)
  }

  function RolledBack(p: PoolState, snap: Snapshot, now: real): PoolState {
    if snap.id in p.sessions then
      p.(sessions := p.sessions[snap.id := Rollback(p.sessions[snap.id], snap, now)])
    else p
  }

  /** A frame goes to the rx queue of its session, if that is in the pool. */
  function Deliver(p: PoolState, f: Frame, now: real): PoolState {
    if f.sid in p.sessions then p.(sessions := p.sessions[f.sid := EnqueueRx(p.sessions[f.sid], f, now)]) else p
  }

  predicate Expired(s: SessionState, timeout: real, now: real) {
    now - s.lastActivity > timeout && s.txQ == []
  }

  function ExpiredIds(p: PoolState, timeout: real, now: real): set<Bytes> {
    set id | id in p.sessions && Expired(p.sessions[id], timeout, now)
  }

  function TotalTx(p: PoolState, ids: seq<Bytes>): int
    requires forall id | id in ids :: id in p.sessions
  {
    if ids == [] then 0 else TotalTx(p, ids[..|ids| - 1]) + p.sessions[ids[|ids| - 1]].txBytes
  }

  // ----- in place -----

  class Session {
    const id: Bytes
    var seqno: nat
    var flags: nat
    var target: string
    var rxQ: seq<Frame>
    var txQ: seq<Frame>
    var txBytes: int
    var rxBytes: int
    var lastActivity: real
    var txEvent: bool
    var rxEvent: bool

    constructor (id: Bytes, flags: nat, target: string, now: real)
      ensures this.id == id
      ensures View() == Fresh(id, flags, target, now)
    {
      this.id := id;
      seqno, this.flags, this.target := 0, flags, target;
      rxQ, txQ, txBytes, rxBytes := [], [], 0, 0;
      lastActivity, txEvent, rxEvent := now, false, false;
    }

    function View(): SessionState
      reads this
    {
      SessionState(id, seqno, flags, target, rxQ, txQ, txBytes, rxBytes, lastActivity, txEvent, rxEvent)
    }

    method EnqueueTx(f: Frame, now: real) returns (below: bool)
      modifies this
      ensures View() == Sessions.EnqueueTx(old(View()), f, now)
      ensures below <==> txBytes < 8 * 1024 * 1024
    {
      txQ := txQ + [f];
      txBytes := txBytes + |f.payload|;
      lastActivity := now;
      txEvent := true;
      below := txBytes < TX_HIGH_WATER;
    }

    method EnqueueRx(f: Frame, now: real)
      modifies this
      ensures View() == Sessions.EnqueueRx(old(View()), f, now)
    {
      rxQ := rxQ + [f];
      rxBytes := rxBytes + |f.payload|;
      lastActivity := now;
      rxEvent := true;
    }

    /** The part of `drain_tx_limited_txn` that works on the session it found. */
    method TakeTx(maxFrames: nat) returns (snap: Snapshot)
      modifies this
      ensures View() == Drain(old(View()), maxFrames)
      ensures snap == SnapshotOf(old(View()), maxFrames)
    {
      if |txQ| == 0 {
        return Snapshot(id, [], 0);
      }
      var take := Min(maxFrames, |txQ|);
      var frames: seq<Frame> := [];
      for i := 0 to take
        invariant txQ == old(txQ)[i..]
        invariant frames == old(txQ)[..i]
        invariant View() == old(View()).(txQ := txQ)
      {
        frames := frames + [txQ[0]];
        txQ := txQ[1..];
      }
      var totalPayload := SumPayloads(frames);
      txBytes := Max(0, txBytes - totalPayload);
      txEvent := |txQ| > 0;
      snap := Snapshot(id, frames, totalPayload);
    }

    /** The part of `rollback_drain` that works on the session it found. */
    method PutBackTx(snap: Snapshot, now: real)
      modifies this
      ensures View() == Rollback(old(View()), snap, now)
    {
      txQ := snap.frames + txQ;
      txBytes := txBytes + snap.totalPayload;
      lastActivity := now;
      if |snap.frames| > 0 {
        txEvent := true;
      }
    }
  }

  class SessionPool {
    var order: seq<Bytes>
    var sessions: map<Bytes, Session>

    constructor ()
      ensures Valid() && View() == PoolState([], map[])
    {
      order, sessions := [], map[];
    }

    ghost predicate Valid()
      reads this
    {
      && Distinct(order)
      && (forall id :: id in order <==> id in sessions)
      && (forall id | id in sessions :: sessions[id].id == id)
    }

    ghost function View(): PoolState
      reads this, sessions.Values
    {
      PoolState(order, map id | id in sessions :: sessions[id].View())
    }

    lemma ViewWellFormed()
      requires Valid()
      ensures WellFormed(View())
    {
    }

    /** Changing one session's fields changes its entry in the view and nothing else. */
    twostate lemma OneChanged(s: Session)
      requires old(Valid()) && unchanged(this)
      requires s.id in sessions && sessions[s.id] == s
      requires forall id | id in sessions && id != s.id :: unchanged(sessions[id])
      ensures View() == old(View()).Put(s.View())
    {
      assert View().sessions == old(View()).Put(s.View()).sessions;
    }

    method GetOrCreate(id: Bytes, flags: nat, target: string, now: real) returns (s: Session)
      requires Valid()
      modifies this
      ensures Valid() && View() == Created(old(View()), id, flags, target, now)
      ensures id in sessions && s == sessions[id]
      ensures sessions == old(sessions) || (fresh(s) && sessions == old(sessions)[id := s])
    {
      if id in sessions {
        return sessions[id];
      }
      hide Fresh;
      s := new Session(id, flags, target, now);
      sessions := sessions[id := s];
      order := order + [id];
      OneAdded(s);
    }

    twostate lemma OneAdded(new s: Session)
      requires old(Valid()) && s.id !in old(sessions)
      requires sessions == old(sessions)[s.id := s] && order == old(order) + [s.id]
      requires forall id | id in old(sessions) :: unchanged(old(sessions[id]))
      ensures Valid()
      ensures View() == PoolState(old(order) + [s.id], old(View()).sessions[s.id := s.View()])
    {
      assert View().sessions == old(View()).sessions[s.id := s.View()];
    }

    method Get(id: Bytes) returns (s: Session?)
      requires Valid()
      ensures s == if id in sessions then sessions[id] else null
    {
      s := if id in sessions then sessions[id] else null;
    }

    method Remove(id: Bytes)
      requires Valid()
      modifies this
      ensures Valid() && View() == Removed(old(View()), {id})
      ensures sessions == old(sessions) - {id}
    {
      hide Without;
      WithoutKeeps(order, {id});
      sessions := sessions - {id};
      order := Without(order, {id});
      assert View().sessions == Removed(old(View()), {id}).sessions;
    }

    method DrainTxLimited(id: Bytes, maxFrames: nat) returns (snap: Snapshot)
      requires Valid()
      modifies if id in sessions then {sessions[id]} else {}
      ensures Valid() && View() == DrainedPool(old(View()), id, maxFrames)
      ensures snap == SnapshotAt(old(View()), id, maxFrames)
    {
      hide Drain, SnapshotOf;
      if id !in sessions {
        return Snapshot(id, [], 0);
      }
      var s := sessions[id];
      snap := s.TakeTx(maxFrames);
      OneChanged(s);
    }

    method RollbackDrain(snap: Snapshot, now: real)
      requires Valid()
      modifies if snap.id in sessions then {sessions[snap.id]} else {}
      ensures Valid() && View() == RolledBack(old(View()), snap, now)
    {
      hide Rollback;
      if snap.id !in sessions {
        return;
      }
      var s := sessions[snap.id];
      s.PutBackTx(snap, now);
      OneChanged(s);
    }

    method ExpiredList(timeout: real, now: real) returns (expired: set<Bytes>)
      requires Valid()
      ensures expired == ExpiredIds(View(), timeout, now) <= sessions.Keys
    {
      expired := {};
      for i := 0 to |order|
        invariant expired == set id | id in order[..i] && Expired(sessions[id].View(), timeout, now)
      {
        var s := sessions[order[i]];
        if now - s.lastActivity > timeout && |s.txQ| == 0 {
          expired := expired + {order[i]};
        }
      }
    }

    method CleanupExpired(timeout: real, now: real) returns (purged: nat)
      requires Valid()
      modifies this, sessions.Values
      ensures Valid()
      ensures View() == Removed(old(View()), ExpiredIds(old(View()), timeout, now))
      ensures purged == |ExpiredIds(old(View()), timeout, now)|
    {
      hide ExpiredIds, Removed;
      var expired := ExpiredList(timeout, now);
      ghost var gone := expired;
      purged := |expired|;
      RemovedNone(View());
      assert gone - expired == {};
      while expired != {}
        invariant Valid() && expired <= gone && expired <= sessions.Keys
        invariant forall id | id in sessions :: id in old(sessions) && sessions[id] == old(sessions)[id]
        invariant View() == Removed(old(View()), gone - expired)
        decreases expired
      {
        var id :| id in expired;
        RemovedMore(old(View()), gone - expired, {id});
        assert gone - expired + {id} == gone - (expired - {id});
        expired := expired - {id};
        PopAndWake(id);
      }
      assert gone - expired == gone;
    }

    /** `pop` of an expired session, and the wake-up of whoever still waits on it. */
    method PopAndWake(id: Bytes)
      requires Valid() && id in sessions
      modifies this, sessions[id]
      ensures Valid() && View() == Removed(old(View()), {id})
      ensures sessions == old(sessions) - {id}
      ensures old(sessions[id]).txEvent && old(sessions[id]).rxEvent
    {
      hide Distinct, Removed;
      var s := sessions[id];
      Remove(id);
      label removed:
      s.txEvent := true;
      s.rxEvent := true;
      NoneChanged@removed();
    }

    twostate lemma NoneChanged()
      requires old(Valid()) && unchanged(this)
      requires forall id | id in sessions :: unchanged(sessions[id])
      ensures View() == old(View()) && Valid()
    {
      assert View().sessions == old(View()).sessions;
    }

    method TxBufferedBytes() returns (total: int)
      requires Valid()
      ensures total == TotalTx(View(), order)
    {
      total := 0;
      for i := 0 to |order|
        invariant total == TotalTx(View(), order[..i])
      {
        assert order[..i + 1][..i] == order[..i];
        total := total + sessions[order[i]].txBytes;
      }
      assert order[..|order|] == order;
    }
  }

  method SumPayloads(fs: seq<Frame>) returns (total: nat)
    ensures total == PayloadSum(fs)
  {
    total := 0;
    for i := 0 to |fs|
      invariant total == PayloadSum(fs[..i])
    {
      assert fs[..i + 1][..i] == fs[..i];
      total := total + |fs[i].payload|;
    }
    assert fs[..|fs|] == fs;
  }

  // ----- every run of the pool -----

  datatype Op =
    | Create(id: Bytes, flags: nat, target: string)
    | Enqueue(id: Bytes, frame: Frame)
    | Receive(id: Bytes, frame: Frame)
    | Consume(id: Bytes)
    | DrainFrom(id: Bytes, maxFrames: nat)
    | RollBack(k: nat)
    | Discard(id: Bytes)
    | Cleanup(timeout: real)

  /** The pool and every snapshot ever taken, any of which may still be rolled back. */
  datatype Run = Run(pool: PoolState, snaps: seq<Snapshot>)

  const START := Run(PoolState([], map[]), [])

  /** The reader's `popleft` on the rx queue. */
  function PopRx(s: SessionState): SessionState {
    if s.rxQ == [] then s else s.(rxQ := s.rxQ[1..])
  }

  function Apply(r: Run, op: Op, now: real): Run {
    var p := r.pool;
    match op
    case Create(id, flags, target) => r.(pool := Created(p, id, flags, target, now))
    case Enqueue(id, f) => if id in p.sessions then r.(pool := p.Put(EnqueueTx(p.sessions[id], f, now))) else r
    case Receive(id, f) => if id in p.sessions then r.(pool := p.Put(EnqueueRx(p.sessions[id], f, now))) else r
    case Consume(id) => if id in p.sessions then r.(pool := p.Put(PopRx(p.sessions[id]))) else r
    case DrainFrom(id, n) => Run(DrainedPool(p, id, n), r.snaps + [SnapshotAt(p, id, n)])
    case RollBack(k) => if k < |r.snaps| then r.(pool := RolledBack(p, r.snaps[k], now)) else r
    case Discard(id) => r.(pool := Removed(p, {id}))
    case Cleanup(timeout) => r.(pool := Removed(p, ExpiredIds(p, timeout, now)))
  }

  function After(ops: seq<(Op, real)>): Run {
    if ops == [] then START
    else var (op, now) := ops[|ops| - 1]; Apply(After(ops[..|ops| - 1]), op, now)
  }

  ghost predicate AllAccounted(r: Run) {
    && WellFormed(r.pool)
    && (forall id | id in r.pool.sessions :: Accounted(r.pool.sessions[id]))
    && SnapshotsCount(r.snaps)
  }

  lemma PutAccounted(r: Run, s: SessionState)
    requires AllAccounted(r) && s.id in r.pool.sessions && Accounted(s)
    ensures AllAccounted(r.(pool := r.pool.Put(s)))
  {
  }

  lemma RemovedAccounted(r: Run, gone: set<Bytes>)
    requires AllAccounted(r)
    ensures AllAccounted(r.(pool := Removed(r.pool, gone)))
  {
    WithoutKeeps(r.pool.order, gone);
  }

  lemma ApplyAccounted(r: Run, op: Op, now: real)
    requires AllAccounted(r)
    ensures AllAccounted(Apply(r, op, now))
  {
    hide Accounted, PayloadSum, Without;
    var p := r.pool;
    match op
    case Create(id, flags, target) =>
      FreshAccounted(id, flags, target, now);
    case Enqueue(id, f) =>
      if id in p.sessions {
        EnqueueAccounted(p.sessions[id], f, now);
        PutAccounted(r, EnqueueTx(p.sessions[id], f, now));
      }
    case Receive(id, f) =>
      if id in p.sessions {
        RxAccounted(p.sessions[id], f, now);
        PutAccounted(r, EnqueueRx(p.sessions[id], f, now));
      }
    case Consume(id) =>
      if id in p.sessions {
        PopAccounted(p.sessions[id]);
        PutAccounted(r, PopRx(p.sessions[id]));
      }
    case DrainFrom(id, n) =>
      var snap := SnapshotAt(p, id, n);
      SumNone();
      if id in p.sessions {
        DrainAccounted(p.sessions[id], n);
        PutAccounted(r.(snaps := r.snaps + [snap]), Drain(p.sessions[id], n));
      }
    case RollBack(k) =>
      if k < |r.snaps| && r.snaps[k].id in p.sessions {
        RollbackAccounted(p.sessions[r.snaps[k].id], r.snaps[k], now);
        PutAccounted(r, Rollback(p.sessions[r.snaps[k].id], r.snaps[k], now));
      }
    case Discard(id) =>
      RemovedAccounted(r, {id});
    case Cleanup(timeout) =>
      RemovedAccounted(r, ExpiredIds(p, timeout, now));
  }

  lemma FreshAccounted(id: Bytes, flags: nat, target: string, now: real)
    ensures Accounted(Fresh(id, flags, target, now))
  {
  }

  lemma EnqueueAccounted(s: SessionState, f: Frame, now: real)
    requires Accounted(s)
    ensures Accounted(EnqueueTx(s, f, now))
  {
    assert (s.txQ + [f])[..|s.txQ|] == s.txQ;
  }

  lemma RxAccounted(s: SessionState, f: Frame, now: real)
    requires Accounted(s)
    ensures Accounted(EnqueueRx(s, f, now))
  {
  }

  lemma PopAccounted(s: SessionState)
    requires Accounted(s)
    ensures Accounted(PopRx(s))
  {
  }

  /** After any run of the pool the books balance for every session in it. */
  lemma {:induction false} AccountingOverRuns(ops: seq<(Op, real)>)
    ensures AllAccounted(After(ops))
  {
    if ops != [] {
      AccountingOverRuns(ops[..|ops| - 1]);
      ApplyAccounted(After(ops[..|ops| - 1]), ops[|ops| - 1].0, ops[|ops| - 1].1);
    }
  }

  /** The payload bytes in the queues of the listed sessions. */
  function QueuedPayload(p: PoolState, ids: seq<Bytes>): nat
    requires forall id | id in ids :: id in p.sessions
  {
    if ids == [] then 0
    else QueuedPayload(p, ids[..|ids| - 1]) + PayloadSum(p.sessions[ids[|ids| - 1]].txQ)
  }

  lemma {:induction false} TotalIsQueued(p: PoolState, ids: seq<Bytes>)
    requires forall id | id in ids :: id in p.sessions && Accounted(p.sessions[id])
    ensures TotalTx(p, ids) == QueuedPayload(p, ids)
  {
    if ids != [] {
      TotalIsQueued(p, ids[..|ids| - 1]);
    }
  }

  /** `tx_buffered_bytes` is the payload queued anywhere in the pool, after any run. */
  lemma BufferedBytesOverRuns(ops: seq<(Op, real)>)
    ensures var p := After(ops).pool;
            && (forall id | id in p.order :: id in p.sessions)
            && TotalTx(p, p.order) == QueuedPayload(p, p.order)
  {
    AccountingOverRuns(ops);
    TotalIsQueued(After(ops).pool, After(ops).pool.order);
  }

  /** A new session is empty and last in order; one that is there is left as it is. */
  lemma NewSession(p: PoolState, id: Bytes, flags: nat, target: string, now: real)
    ensures var q := Created(p, id, flags, target, now);
            && (id in p.sessions ==> q == p)
            && (id !in p.sessions ==>
                  var s := SessionState(id, 0, flags, target, [], [], 0, 0, now, false, false);
                  q.order == p.order + [id] && q.sessions == p.sessions[id := s])
  {
  }

  /** What counts as a use of a session. */
  datatype Use = Sends(frame: Frame) | Gets(frame: Frame) | PutsBack(snap: Snapshot)

  function Used(s: SessionState, use: Use, at: real): SessionState {
    match use
    case Sends(f) => EnqueueTx(s, f, at)
    case Gets(f) => EnqueueRx(s, f, at)
    case PutsBack(snap) => Rollback(s, snap, at)
  }

  /** A session used within the timeout survives a cleanup, drained or not, and as it is. */
  lemma UsedSurvives(p: PoolState, id: Bytes, use: Use, at: real, drained: nat, timeout: real, now: real)
    requires WellFormed(p) && id in p.sessions && now - at <= timeout
    ensures var s := Drain(Used(p.sessions[id], use, at), drained);
            var q := p.(sessions := p.sessions[id := s]);
            var r := Removed(q, ExpiredIds(q, timeout, now));
            id in r.sessions && r.sessions[id] == s
  {
  }

  /** Expiry never discards a queued frame, and keeps exactly the sessions it may not discard. */
  lemma CleanupKeepsQueued(p: PoolState, timeout: real, now: real)
    requires WellFormed(p)
    ensures var q := Removed(p, ExpiredIds(p, timeout, now));
            && WellFormed(q)
            && (forall id | id in p.sessions ::
                  id in q.sessions <==> p.sessions[id].txQ != [] || now - p.sessions[id].lastActivity <= timeout)
            && (forall id | id in q.sessions :: id in p.sessions && q.sessions[id] == p.sessions[id])
  {
    WithoutKeeps(p.order, ExpiredIds(p, timeout, now));
  }
}
