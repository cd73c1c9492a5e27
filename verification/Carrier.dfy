/** The client's drain pass (`Carrier._drain_all`) and response dispatch. */
module Carrier {
  import opened Octets
  import opened Frames
  import opened Sessions
  import opened Pools

  const MAX_FRAME_PAYLOAD := 262144
  const WORKERS_PER_ENDPOINT := 3

  function SizeSum(fs: seq<Frame>): nat {
    if fs == [] then 0 else SizeSum(fs[..|fs| - 1]) + fs[|fs| - 1].EncodedLen()
  }

  lemma {:induction false} SizeSumAppend(a: seq<Frame>, b: seq<Frame>)
    ensures SizeSum(a + b) == SizeSum(a) + SizeSum(b)
  {
    if b == [] {
      assert a + b == a;
    } else {
      assert (a + b)[..|a + b| - 1] == a + b[..|b| - 1];
      SizeSumAppend(a, b[..|b| - 1]);
    }
  }

  lemma EmptySize()
    ensures SizeSum([]) == 0
  {
  }

  lemma SizeOne(f: Frame)
    ensures SizeSum([f]) == f.EncodedLen()
  {
    assert [f][..0] == [];
  }

  /** How many of the first k frames the byte budget admits before the first that it does not. */
  function Fit(fs: seq<Frame>, total: nat, k: nat): (n: nat)
    requires k <= |fs|
    ensures n <= k
  {
    if k == 0 then 0
    else
      var n := Fit(fs, total, k - 1);
      if n == k - 1 && total + SizeSum(fs[..k]) <= MAX_FRAME_PAYLOAD then k else n
  }

  /** The budget admits exactly the prefixes whose size fits it. */
  lemma {:induction false} FitIsLongestPrefix(fs: seq<Frame>, total: nat, k: nat)
    requires k <= |fs| && total <= MAX_FRAME_PAYLOAD
    ensures var n := Fit(fs, total, k);
            && total + SizeSum(fs[..n]) <= 262144
            && (n < k ==> total + SizeSum(fs[..n + 1]) > 262144)
    ensures Fit(fs, total, k) == k <==> total + SizeSum(fs[..k]) <= 262144
  {
    hide SizeSum, Frame.EncodedLen;
    if k == 0 {
      EmptySize();
      assert fs[..0] == [];
    } else {
      FitIsLongestPrefix(fs, total, k - 1);
      assert fs[..k] == fs[..k - 1] + [fs[k - 1]];
      SizeSumAppend(fs[..k - 1], [fs[k - 1]]);
    }
  }

  /** What one visit puts into the batch. */
  function Taken(s: SessionState, maxFrames: nat, total: nat): seq<Frame> {
    var snap := Drained(s, maxFrames);
    snap[..Fit(snap, total, |snap|)]
  }

  predicate Cut(s: SessionState, maxFrames: nat, total: nat) {
    Fit(Drained(s, maxFrames), total, |Drained(s, maxFrames)|) < |Drained(s, maxFrames)|
  }

  /** What one visit leaves of the session: a cut snapshot is rolled back whole. */
  function Visited(s: SessionState, maxFrames: nat, total: nat, now: real): SessionState {
    if Cut(s, maxFrames, total) then Rollback(Drain(s, maxFrames), SnapshotOf(s, maxFrames), now)
    else Drain(s, maxFrames)
  }

  /** The ids that worker w of an endpoint visits, in order. */
  function Stripe(ids: seq<Bytes>, w: nat): seq<Bytes> {
    seq(StripeLength(|ids|, w), j requires 0 <= j < StripeLength(|ids|, w) => ids[w + WORKERS_PER_ENDPOINT * j])
  }

  function StripeLength(n: nat, w: nat): (m: nat)
    ensures forall j | 0 <= j < m :: w + WORKERS_PER_ENDPOINT * j < n
    ensures w + WORKERS_PER_ENDPOINT * m >= n
  {
    if w >= n then 0 else (n - w + WORKERS_PER_ENDPOINT - 1) / WORKERS_PER_ENDPOINT
  }

  // ----- one pass over the sessions ids, none twice -----

  predicate Visitable(p: PoolState, ids: seq<Bytes>) {
    Distinct(ids) && forall i | 0 <= i < |ids| :: ids[i] in p.sessions && p.sessions[ids[i]].id == ids[i]
  }

  /** Bytes already in the batch when the j-th session is visited. */
  function TotalAt(p: PoolState, ids: seq<Bytes>, maxFrames: nat, j: nat): nat
    requires Visitable(p, ids) && j <= |ids|
  {
    if j == 0 then 0
    else
      var t := TotalAt(p, ids, maxFrames, j - 1);
      t + SizeSum(Taken(p.sessions[ids[j - 1]], maxFrames, t))
  }

  function TakenAt(p: PoolState, ids: seq<Bytes>, maxFrames: nat, j: nat): seq<Frame>
    requires Visitable(p, ids) && j < |ids|
  {
    Taken(p.sessions[ids[j]], maxFrames, TotalAt(p, ids, maxFrames, j))
  }

  function VisitedAt(p: PoolState, ids: seq<Bytes>, maxFrames: nat, j: nat, clock: Bytes -> real): SessionState
    requires Visitable(p, ids) && j < |ids|
  {
    Visited(p.sessions[ids[j]], maxFrames, TotalAt(p, ids, maxFrames, j), clock(ids[j]))
  }

  /** The batch after the first j visits. */
  function BatchAt(p: PoolState, ids: seq<Bytes>, maxFrames: nat, j: nat): seq<Frame>
    requires Visitable(p, ids) && j <= |ids|
  {
    if j == 0 then [] else BatchAt(p, ids, maxFrames, j - 1) + TakenAt(p, ids, maxFrames, j - 1)
  }

  /** The pool after the first j visits. */
  function PoolAt(p: PoolState, ids: seq<Bytes>, maxFrames: nat, j: nat, clock: Bytes -> real): PoolState
    requires Visitable(p, ids) && j <= |ids|
  {
    if j == 0 then p else PoolAt(p, ids, maxFrames, j - 1, clock).Put(VisitedAt(p, ids, maxFrames, j - 1, clock))
  }

  lemma DistinctAt(ids: seq<Bytes>, j: nat)
    requires Distinct(ids) && j < |ids|
    ensures forall i | 0 <= i < |ids| && i != j :: ids[i] != ids[j]
    ensures ids[j] in ids
  {
  }

  lemma VisitedAtId(p: PoolState, ids: seq<Bytes>, maxFrames: nat, j: nat, clock: Bytes -> real)
    requires Visitable(p, ids) && j < |ids|
    ensures VisitedAt(p, ids, maxFrames, j, clock).id == ids[j]
  {
  }

  /** Entries of sessions visited already, and of those not visited. */
  lemma {:induction false} PoolEntries(p: PoolState, ids: seq<Bytes>, maxFrames: nat, j: nat, clock: Bytes -> real)
    requires Visitable(p, ids) && j <= |ids|
    ensures var q := PoolAt(p, ids, maxFrames, j, clock);
            && q.order == p.order && q.sessions.Keys == p.sessions.Keys
            && (forall i | 0 <= i < j :: q.sessions[ids[i]] == VisitedAt(p, ids, maxFrames, i, clock))
            && (forall i | j <= i < |ids| :: q.sessions[ids[i]] == p.sessions[ids[i]])
            && (forall id | id in p.sessions && id !in ids :: q.sessions[id] == p.sessions[id])
  {
    hide Visited, TotalAt, VisitedAt;
    if j > 0 {
      PoolEntries(p, ids, maxFrames, j - 1, clock);
      VisitedAtId(p, ids, maxFrames, j - 1, clock);
      hide Distinct;
      DistinctAt(ids, j - 1);
    }
  }

  /** The running total is the size of the batch so far and never exceeds the budget. */
  lemma {:induction false} WithinBudget(p: PoolState, ids: seq<Bytes>, maxFrames: nat, j: nat)
    requires Visitable(p, ids) && j <= |ids|
    ensures TotalAt(p, ids, maxFrames, j) == SizeSum(BatchAt(p, ids, maxFrames, j)) <= MAX_FRAME_PAYLOAD
  {
    hide Fit, Frame.EncodedLen, Drained;
    if j > 0 {
      WithinBudget(p, ids, maxFrames, j - 1);
      var snap := Drained(p.sessions[ids[j - 1]], maxFrames);
      FitIsLongestPrefix(snap, TotalAt(p, ids, maxFrames, j - 1), |snap|);
      SizeSumAppend(BatchAt(p, ids, maxFrames, j - 1), TakenAt(p, ids, maxFrames, j - 1));
    }
  }

  // ----- the pass in place -----

  /** One session of the pass: drain, append while the budget lasts, roll back on the first excess. */
  method VisitSession(pool: SessionPool, sid: Bytes, maxFrames: nat, total: nat, clock: Bytes -> real)
    returns (taken: seq<Frame>, totalSize: nat)
    requires pool.Valid() && sid in pool.sessions && total <= MAX_FRAME_PAYLOAD
    modifies pool.sessions[sid]
    ensures pool.Valid()
    ensures var s := old(pool.View()).sessions[sid];
            && pool.View() == old(pool.View()).Put(Visited(s, maxFrames, total, clock(sid)))
            && taken == Taken(s, maxFrames, total)
            && totalSize == total + SizeSum(taken)
  {
    hide Drain, Rollback, Fit, SizeSum, Frame.EncodedLen, PayloadSum, DrainedPool, RolledBack, SnapshotAt;
    taken, totalSize := [], total;
    ghost var s := pool.View().sessions[sid];
    pool.ViewWellFormed();
    PoolOperations(pool.View(), sid, maxFrames, clock(sid));
    var snap := pool.DrainTxLimited(sid, maxFrames);
    FitStart(snap.frames, total);
    var i := 0;
    while i < |snap.frames|
      invariant i <= |snap.frames|
      invariant taken == snap.frames[..i]
      invariant totalSize == total + SizeSum(taken) <= MAX_FRAME_PAYLOAD
      invariant Fit(snap.frames, total, i) == i
      invariant pool.View() == DrainedPool(old(pool.View()), sid, maxFrames)
    {
      var f := snap.frames[i];
      FitStep(snap.frames, total, i);
      if totalSize + f.EncodedLen() > MAX_FRAME_PAYLOAD {
        pool.RollbackDrain(snap, clock(sid));
        return;
      }
      taken := taken + [f];
      totalSize := totalSize + f.EncodedLen();
      i := i + 1;
    }
    assert snap.frames[..|snap.frames|] == snap.frames;
  }

  lemma PoolOperations(p: PoolState, sid: Bytes, maxFrames: nat, now: real)
    requires WellFormed(p) && sid in p.sessions
    ensures var s, snap := p.sessions[sid], SnapshotAt(p, sid, maxFrames);
            && snap == SnapshotOf(s, maxFrames)
            && DrainedPool(p, sid, maxFrames) == p.Put(Drain(s, maxFrames))
            && RolledBack(DrainedPool(p, sid, maxFrames), snap, now)
               == p.Put(Rollback(Drain(s, maxFrames), snap, now))
  {
  }

  lemma FitStart(fs: seq<Frame>, total: nat)
    ensures Fit(fs, total, 0) == 0 && SizeSum([]) == 0
  {
  }

  lemma FitStep(fs: seq<Frame>, total: nat, i: nat)
    requires i < |fs| && total <= MAX_FRAME_PAYLOAD && Fit(fs, total, i) == i
    ensures fs[..i + 1] == fs[..i] + [fs[i]]
    ensures SizeSum(fs[..i + 1]) == SizeSum(fs[..i]) + fs[i].EncodedLen()
    ensures if total + SizeSum(fs[..i + 1]) <= MAX_FRAME_PAYLOAD then Fit(fs, total, i + 1) == i + 1
            else Fit(fs, total, |fs|) == i
  {
    assert fs[..i + 1] == fs[..i] + [fs[i]];
    SizeSumAppend(fs[..i], [fs[i]]);
    SizeOne(fs[i]);
    if total + SizeSum(fs[..i + 1]) > MAX_FRAME_PAYLOAD {
      FitStops(fs, total, i, |fs|);
    }
  }

  lemma {:induction false} FitStops(fs: seq<Frame>, total: nat, i: nat, k: nat)
    requires i < k <= |fs| && Fit(fs, total, i) == i && total + SizeSum(fs[..i + 1]) > MAX_FRAME_PAYLOAD
    ensures Fit(fs, total, k) == i
  {
    hide SizeSum;
    if k > i + 1 {
      FitStops(fs, total, i, k - 1);
    }
  }

  /** The state of the pass after j visits. */
  ghost predicate PassedTo(p: PoolState, ids: seq<Bytes>, n: nat, j: nat, clock: Bytes -> real,
                           q: PoolState, frames: seq<Frame>, total: nat)
  {
    && Visitable(p, ids) && j <= |ids|
    && q == PoolAt(p, ids, n, j, clock)
    && frames == BatchAt(p, ids, n, j)
    && total == TotalAt(p, ids, n, j)
  }

  /** `_drain_all`: worker w visits every third session from the w-th on. */
  method DrainAll(pool: SessionPool, batchSize: nat, workerId: nat, clock: Bytes -> real)
    returns (frames: seq<Frame>, awaitCount: nat)
    requires pool.Valid()
    modifies pool.sessions.Values
    ensures pool.Valid()
    ensures var p := old(pool.View());
            var ids := Stripe(p.order, workerId);
            && Visitable(p, ids)
            && frames == BatchAt(p, ids, batchSize, |ids|)
            && pool.View() == PoolAt(p, ids, batchSize, |ids|, clock)
            && awaitCount == |frames|
  {
    hide Visited, Taken, SizeSum, Stripe, PassedTo, WellFormed, PoolAt, BatchAt, TotalAt, Visitable, Distinct;
    ghost var p := pool.View();
    ghost var ids := Stripe(p.order, workerId);
    frames, awaitCount := [], 0;
    var totalSize := 0;
    var sids := pool.order;
    pool.ViewWellFormed();
    PassStart(p, workerId, batchSize, clock);
    var i := workerId;
    ghost var j := 0;
    while i < |sids|
      invariant i == workerId + WORKERS_PER_ENDPOINT * j && j <= |ids|
      invariant i >= |sids| ==> j == |ids|
      invariant PassedTo(p, ids, batchSize, j, clock, pool.View(), frames, totalSize)
      invariant awaitCount == |frames|
    {
      var sid := sids[i];
      StripeEntry(sids, workerId, j);
      PassStep(p, ids, batchSize, j, clock, pool.View(), frames, totalSize);
      var taken;
      taken, totalSize := VisitSession(pool, sid, batchSize, totalSize, clock);
      frames := frames + taken;
      awaitCount := awaitCount + |taken|;
      i := i + WORKERS_PER_ENDPOINT;
      j := j + 1;
    }
    PassEnd(p, ids, batchSize, clock, pool.View(), frames, totalSize);
  }

  lemma StripeEntry(ids: seq<Bytes>, w: nat, j: nat)
    requires w + WORKERS_PER_ENDPOINT * j < |ids|
    ensures j < |Stripe(ids, w)| && Stripe(ids, w)[j] == ids[w + WORKERS_PER_ENDPOINT * j]
    ensures w + WORKERS_PER_ENDPOINT * (j + 1) >= |ids| ==> j + 1 == |Stripe(ids, w)|
  {
  }

  lemma StripeVisitable(p: PoolState, w: nat)
    requires WellFormed(p)
    ensures Visitable(p, Stripe(p.order, w))
  {
  }

  lemma PassStart(p: PoolState, w: nat, n: nat, clock: Bytes -> real)
    requires WellFormed(p)
    ensures PassedTo(p, Stripe(p.order, w), n, 0, clock, p, [], 0)
    ensures w >= |p.order| ==> |Stripe(p.order, w)| == 0
  {
    StripeVisitable(p, w);
  }

  /** The next session is visited in the state it had before the pass. */
  lemma PassStep(p: PoolState, ids: seq<Bytes>, n: nat, j: nat, clock: Bytes -> real,
                 q: PoolState, frames: seq<Frame>, t: nat)
    requires PassedTo(p, ids, n, j, clock, q, frames, t) && j < |ids|
    ensures t <= MAX_FRAME_PAYLOAD && ids[j] in q.sessions
    ensures var s := q.sessions[ids[j]];
            PassedTo(p, ids, n, j + 1, clock, q.Put(Visited(s, n, t, clock(ids[j]))),
                     frames + Taken(s, n, t), t + SizeSum(Taken(s, n, t)))
  {
    hide Visited, Taken, PoolAt, BatchAt, TotalAt, SizeSum;
    PoolEntries(p, ids, n, j, clock);
    WithinBudget(p, ids, n, j);
    PassUnfolds(p, ids, n, j, clock);
  }

  lemma PassUnfolds(p: PoolState, ids: seq<Bytes>, n: nat, j: nat, clock: Bytes -> real)
    requires Visitable(p, ids) && j < |ids|
    ensures var s, t := p.sessions[ids[j]], TotalAt(p, ids, n, j);
            && PoolAt(p, ids, n, j + 1, clock) == PoolAt(p, ids, n, j, clock).Put(Visited(s, n, t, clock(ids[j])))
            && BatchAt(p, ids, n, j + 1) == BatchAt(p, ids, n, j) + Taken(s, n, t)
            && TotalAt(p, ids, n, j + 1) == t + SizeSum(Taken(s, n, t))
  {
    hide Visited, Taken, SizeSum;
  }

  lemma PassEnd(p: PoolState, ids: seq<Bytes>, n: nat, clock: Bytes -> real,
                q: PoolState, frames: seq<Frame>, t: nat)
    requires PassedTo(p, ids, n, |ids|, clock, q, frames, t)
    ensures Visitable(p, ids) && frames == BatchAt(p, ids, n, |ids|) && q == PoolAt(p, ids, n, |ids|, clock)
  {
  }

  // ----- what a pass does to each session -----

  /** The frames of one session, in order. */
  function OfSession(fs: seq<Frame>, id: Bytes): seq<Frame> {
    if fs == [] then []
    else OfSession(fs[..|fs| - 1], id) + if fs[|fs| - 1].sid == id then [fs[|fs| - 1]] else []
  }

  lemma {:induction false} OfSessionAppend(a: seq<Frame>, b: seq<Frame>, id: Bytes)
    ensures OfSession(a + b, id) == OfSession(a, id) + OfSession(b, id)
  {
    if b == [] {
      assert a + b == a;
    } else {
      assert (a + b)[..|a + b| - 1] == a + b[..|b| - 1];
      OfSessionAppend(a, b[..|b| - 1], id);
    }
  }

  predicate AllFrom(fs: seq<Frame>, id: Bytes) {
    forall i | 0 <= i < |fs| :: fs[i].sid == id
  }

  lemma {:induction false} OfSessionAllFrom(fs: seq<Frame>, owner: Bytes, id: Bytes)
    requires AllFrom(fs, owner)
    ensures OfSession(fs, id) == if owner == id then fs else []
  {
    if fs != [] {
      OfSessionAllFrom(fs[..|fs| - 1], owner, id);
    }
  }

  /** Every queued frame carries the id of the session it is queued in. */
  predicate OwnFrames(p: PoolState) {
    forall id | id in p.sessions :: AllFrom(p.sessions[id].txQ, id)
  }

  /** The share of a session in the batch is what its own visit took. */
  lemma {:induction false} BatchShares(p: PoolState, ids: seq<Bytes>, maxFrames: nat, j: nat, id: Bytes)
    requires Visitable(p, ids) && OwnFrames(p) && j <= |ids|
    ensures OfSession(BatchAt(p, ids, maxFrames, j), id) == ShareOf(p, ids, maxFrames, j, id)
  {
    hide TakenAt, OwnFrames, AllFrom;
    if j > 0 {
      BatchShares(p, ids, maxFrames, j - 1, id);
      var batch, taken := BatchAt(p, ids, maxFrames, j - 1), TakenAt(p, ids, maxFrames, j - 1);
      TakenOwn(p, ids, maxFrames, j - 1);
      OfSessionAppend(batch, taken, id);
      OfSessionAllFrom(taken, ids[j - 1], id);
    }
  }

  function ShareOf(p: PoolState, ids: seq<Bytes>, maxFrames: nat, j: nat, id: Bytes): seq<Frame>
    requires Visitable(p, ids) && j <= |ids|
  {
    if j == 0 then []
    else ShareOf(p, ids, maxFrames, j - 1, id) + if ids[j - 1] == id then TakenAt(p, ids, maxFrames, j - 1) else []
  }

  lemma {:induction false} ShareIsTaken(p: PoolState, ids: seq<Bytes>, maxFrames: nat, j: nat, id: Bytes)
    requires Visitable(p, ids) && j <= |ids|
    ensures (forall i | 0 <= i < j :: ids[i] != id) ==> ShareOf(p, ids, maxFrames, j, id) == []
    ensures forall i | 0 <= i < j && ids[i] == id :: ShareOf(p, ids, maxFrames, j, id) == TakenAt(p, ids, maxFrames, i)
  {
    hide TakenAt;
    if j > 0 {
      ShareIsTaken(p, ids, maxFrames, j - 1, id);
    }
  }

  lemma TakenOwn(p: PoolState, ids: seq<Bytes>, maxFrames: nat, j: nat)
    requires Visitable(p, ids) && OwnFrames(p) && j < |ids|
    ensures AllFrom(TakenAt(p, ids, maxFrames, j), ids[j])
  {
    hide TotalAt, Fit;
    assert AllFrom(p.sessions[ids[j]].txQ, ids[j]);
  }

  /** The snapshot of a visit reaches over the budget left, but its first frame does not. */
  predicate CutInside(s: SessionState, maxFrames: nat, total: nat) {
    var snap := s.txQ[..Min(maxFrames, |s.txQ|)];
    && snap != []
    && total + snap[0].EncodedLen() <= MAX_FRAME_PAYLOAD < total + SizeSum(snap)
  }

  /** One visit: a prefix is sent; the queue loses it if the whole snapshot fits, else it keeps everything. */
  lemma VisitEffect(s: SessionState, maxFrames: nat, total: nat, now: real)
    requires total <= MAX_FRAME_PAYLOAD
    ensures var snap, t, q := Drained(s, maxFrames), Taken(s, maxFrames, total), Visited(s, maxFrames, total, now).txQ;
            && t <= snap <= s.txQ && |t| <= maxFrames
            && (if total + SizeSum(snap) <= MAX_FRAME_PAYLOAD then t == snap && t + q == s.txQ
                else t < snap && q == s.txQ)
            && (t + q == s.txQ <==> !CutInside(s, maxFrames, total))
  {
    hide Fit, Frame.EncodedLen, SizeSum, PayloadSum;
    var snap, t := Drained(s, maxFrames), Taken(s, maxFrames, total);
    FitIsLongestPrefix(snap, total, |snap|);
    assert snap[..|snap|] == snap;
    assert snap + s.txQ[|snap|..] == s.txQ;
    EmptySize();
    if snap != [] {
      FirstFits(snap, total, |snap|);
    }
    assert |t + s.txQ| == |t| + |s.txQ|;
    assert [] + s.txQ == s.txQ;
  }

  /** What a visit does to the rest of a session whose books balance: a cut one only counts as used. */
  lemma VisitRest(s: SessionState, maxFrames: nat, total: nat, now: real)
    requires total <= MAX_FRAME_PAYLOAD && Accounted(s)
    ensures var v, snap := Visited(s, maxFrames, total, now), Drained(s, maxFrames);
            && Accounted(v)
            && if total + SizeSum(snap) > 262144 then v == s.(lastActivity := now)
               else v == s.(txQ := v.txQ, txBytes := s.txBytes - PayloadSum(snap), txEvent := v.txQ != [])
  {
    hide Fit, SizeSum, PayloadSum;
    var snap := Drained(s, maxFrames);
    FitIsLongestPrefix(snap, total, |snap|);
    assert snap[..|snap|] == snap;
    DrainAccounted(s, maxFrames);
    RollbackAccounted(Drain(s, maxFrames), SnapshotOf(s, maxFrames), now);
    DrainTakesPrefix(s, maxFrames);
    EmptySize();
    SumNone();
  }

  /** The budget admits some frame exactly when it admits the first. */
  lemma {:induction false} FirstFits(fs: seq<Frame>, total: nat, k: nat)
    requires 0 < k <= |fs|
    ensures Fit(fs, total, k) > 0 <==> total + fs[0].EncodedLen() <= MAX_FRAME_PAYLOAD
  {
    hide SizeSum, Frame.EncodedLen;
    if k == 1 {
      assert fs[..1] == [fs[0]];
      SizeOne(fs[0]);
      FitStart(fs, total);
    } else {
      FirstFits(fs, total, k - 1);
    }
  }

  /** What the pass does to the j-th session it visits, seen in the batch and in the pool. */
  ghost predicate PassEffect(p: PoolState, ids: seq<Bytes>, n: nat, j: nat, q: PoolState, batch: seq<Frame>)
    requires Visitable(p, ids) && j < |ids| && ids[j] in q.sessions
  {
    var s, t, q' := p.sessions[ids[j]], OfSession(batch, ids[j]), q.sessions[ids[j]].txQ;
    && t <= s.txQ && |t| <= n
    && (t + q' == s.txQ || (t < s.txQ && q' == s.txQ))
    && (t + q' == s.txQ <==> !CutInside(s, n, TotalAt(p, ids, n, j)))
  }

  lemma VisitedInPass(p: PoolState, ids: seq<Bytes>, n: nat, j: nat, clock: Bytes -> real)
    requires Visitable(p, ids) && OwnFrames(p) && j < |ids|
    ensures ids[j] in PoolAt(p, ids, n, |ids|, clock).sessions
    ensures PassEffect(p, ids, n, j, PoolAt(p, ids, n, |ids|, clock), BatchAt(p, ids, n, |ids|))
  {
    hide Visited, Taken, CutInside, TotalAt, Drained, ShareOf, OfSession, PoolAt, BatchAt, OwnFrames;
    PoolEntries(p, ids, n, |ids|, clock);
    BatchShares(p, ids, n, |ids|, ids[j]);
    ShareIsTaken(p, ids, n, |ids|, ids[j]);
    WithinBudget(p, ids, n, j);
    VisitEffect(p.sessions[ids[j]], n, TotalAt(p, ids, n, j), clock(ids[j]));
  }

  /**
   * One pass: what a visited session has in the batch and in its queue afterwards; unvisited
   * sessions keep everything; the batch is within the byte budget.
   */
  lemma DrainPass(p: PoolState, w: nat, n: nat, clock: Bytes -> real)
    requires WellFormed(p) && OwnFrames(p)
    ensures var ids := Stripe(p.order, w);
            && Visitable(p, ids)
            && var q, batch := PoolAt(p, ids, n, |ids|, clock), BatchAt(p, ids, n, |ids|);
            && SizeSum(batch) <= 262144
            && q.order == p.order && q.sessions.Keys == p.sessions.Keys
            && (forall id | id in p.sessions && id !in ids ::
                  q.sessions[id] == p.sessions[id] && OfSession(batch, id) == [])
            && (forall j | 0 <= j < |ids| :: PassEffect(p, ids, n, j, q, batch))
  {
    StripeVisitable(p, w);
    hide Visitable, VisitedAt, ShareOf, OfSession, PoolAt, BatchAt, PassEffect, OwnFrames, Stripe, SizeSum;
    var ids := Stripe(p.order, w);
    PoolEntries(p, ids, n, |ids|, clock);
    WithinBudget(p, ids, n, |ids|);
    forall id | id in p.sessions && id !in ids
      ensures OfSession(BatchAt(p, ids, n, |ids|), id) == []
    {
      BatchShares(p, ids, n, |ids|, id);
      ShareIsTaken(p, ids, n, |ids|, id);
    }
    forall j | 0 <= j < |ids|
      ensures PassEffect(p, ids, n, j, PoolAt(p, ids, n, |ids|, clock), BatchAt(p, ids, n, |ids|))
    {
      VisitedInPass(p, ids, n, j, clock);
    }
  }

  // ----- a snapshot that never fits -----

  /** The first m frames together exceed the whole budget. */
  predicate Blocked(q: seq<Frame>, m: nat) {
    m <= |q| && SizeSum(q[..m]) > MAX_FRAME_PAYLOAD
  }

  datatype Happening = Visit(maxFrames: nat, total: nat) | Push(frame: Frame)

  function Happens(s: SessionState, h: Happening, now: real): SessionState {
    match h
    case Visit(n, total) => Visited(s, n, total, now)
    case Push(f) => EnqueueTx(s, f, now)
  }

  function AfterAll(s: SessionState, hs: seq<Happening>, now: real): SessionState {
    if hs == [] then s else Happens(AfterAll(s, hs[..|hs| - 1], now), hs[|hs| - 1], now)
  }

  function Pushed(hs: seq<Happening>): seq<Frame> {
    if hs == [] then []
    else Pushed(hs[..|hs| - 1]) + match hs[|hs| - 1] case Push(f) => [f] case Visit(_, _) => []
  }

  lemma BlockedVisit(s: SessionState, m: nat, maxFrames: nat, total: nat, now: real)
    requires Blocked(s.txQ, m) && m <= maxFrames && total <= MAX_FRAME_PAYLOAD
    ensures Visited(s, maxFrames, total, now).txQ == s.txQ
  {
    hide Visited, Taken, Frame.EncodedLen;
    var snap := Drained(s, maxFrames);
    assert snap == s.txQ[..m] + snap[m..];
    SizeSumAppend(s.txQ[..m], snap[m..]);
    VisitEffect(s, maxFrames, total, now);
  }

  /**
   * Once the first m frames exceed the budget, no visit with a batch size of at least m ever
   * takes a frame off the queue, whatever is visited before it and whatever is queued after.
   */
  lemma {:induction false} BlockedForever(s: SessionState, m: nat, hs: seq<Happening>, now: real)
    requires Blocked(s.txQ, m)
    requires forall i | 0 <= i < |hs| && hs[i].Visit? :: hs[i].maxFrames >= m && hs[i].total <= MAX_FRAME_PAYLOAD
    ensures AfterAll(s, hs, now).txQ == s.txQ + Pushed(hs)
  {
    hide Visited, SizeSum;
    if hs == [] {
      assert s.txQ + [] == s.txQ;
    } else {
      var init, last := hs[..|hs| - 1], hs[|hs| - 1];
      BlockedForever(s, m, init, now);
      var t := AfterAll(s, init, now);
      assert t.txQ[..m] == s.txQ[..m];
      if last.Visit? {
        BlockedVisit(t, m, last.maxFrames, last.total, now);
        assert Pushed(init) + [] == Pushed(init);
      } else {
        assert s.txQ + Pushed(init) + [last.frame] == s.txQ + (Pushed(init) + [last.frame]);
      }
    }
  }

  /** With two large frames queued, every pass that reaches the session first sends one of them again. */
  lemma SentAgain(s: SessionState, a: Frame, b: Frame, maxFrames: nat, now: real)
    requires s.txQ == [a, b] && maxFrames >= 2
    requires a.EncodedLen() <= MAX_FRAME_PAYLOAD < a.EncodedLen() + b.EncodedLen()
    ensures CutInside(s, maxFrames, 0)
    ensures Taken(s, maxFrames, 0) == [a] && Visited(s, maxFrames, 0, now).txQ == [a, b]
  {
    hide Frame.EncodedLen, Visited;
    assert [a, b][..2] == [a, b] && [a, b][..1] == [a] && [a][..0] == [];
    assert SizeSum([a]) == a.EncodedLen();
    assert SizeSum([a, b]) == SizeSum([a]) + b.EncodedLen();
    VisitEffect(s, maxFrames, 0, now);
    FirstFits([a, b], 0, 2);
  }

  // ----- the workers of an endpoint -----

  lemma InStripe(ids: seq<Bytes>, k: nat)
    requires k < |ids|
    ensures k / WORKERS_PER_ENDPOINT < |Stripe(ids, k % WORKERS_PER_ENDPOINT)|
    ensures Stripe(ids, k % WORKERS_PER_ENDPOINT)[k / WORKERS_PER_ENDPOINT] == ids[k]
  {
    var w, j := k % WORKERS_PER_ENDPOINT, k / WORKERS_PER_ENDPOINT;
    assert w + WORKERS_PER_ENDPOINT * j == k;
    var m := StripeLength(|ids|, w);
    assert j < m;
  }

  lemma StripeIndex(ids: seq<Bytes>, w: nat, j: nat)
    requires w < WORKERS_PER_ENDPOINT && j < |Stripe(ids, w)|
    ensures var k := w + WORKERS_PER_ENDPOINT * j;
            k < |ids| && Stripe(ids, w)[j] == ids[k] && k % WORKERS_PER_ENDPOINT == w && k / WORKERS_PER_ENDPOINT == j
  {
  }

  lemma NotInStripe(ids: seq<Bytes>, w: nat, k: nat)
    requires Distinct(ids) && w < WORKERS_PER_ENDPOINT && k < |ids| && k % WORKERS_PER_ENDPOINT != w
    ensures ids[k] !in Stripe(ids, w)
  {
    forall j | 0 <= j < |Stripe(ids, w)|
      ensures Stripe(ids, w)[j] != ids[k]
    {
      assert (w + WORKERS_PER_ENDPOINT * j) % WORKERS_PER_ENDPOINT == w;
    }
  }

  lemma StripeDistinct(ids: seq<Bytes>, w: nat)
    requires Distinct(ids)
    ensures Distinct(Stripe(ids, w)) && forall j | 0 <= j < |Stripe(ids, w)| :: Stripe(ids, w)[j] in ids
  {
  }

  /** The workers visit disjoint sets of sessions, each once and in order, that together are exactly the list. */
  lemma StripesPartition(ids: seq<Bytes>)
    requires Distinct(ids)
    ensures forall k, w | 0 <= k < |ids| && 0 <= w < 3 :: ids[k] in Stripe(ids, w) <==> w == k % 3
    ensures forall w, j | 0 <= w < 3 && 0 <= j < |Stripe(ids, w)| :: Stripe(ids, w)[j] in ids
    ensures forall w | 0 <= w < 3 :: Distinct(Stripe(ids, w))
    ensures forall w, j | 0 <= w < 3 && 0 <= j < |Stripe(ids, w)| ::
              w + 3 * j < |ids| && Stripe(ids, w)[j] == ids[w + 3 * j]
  {
    forall w | 0 <= w < WORKERS_PER_ENDPOINT
      ensures Distinct(Stripe(ids, w)) && forall j | 0 <= j < |Stripe(ids, w)| :: Stripe(ids, w)[j] in ids
    {
      StripeDistinct(ids, w);
    }
    forall w, j | 0 <= w < 3 && 0 <= j < |Stripe(ids, w)|
      ensures w + 3 * j < |ids| && Stripe(ids, w)[j] == ids[w + 3 * j]
    {
      StripeIndex(ids, w, j);
    }
    hide Stripe, Distinct;
    forall k, w | 0 <= k < |ids| && 0 <= w < WORKERS_PER_ENDPOINT
      ensures ids[k] in Stripe(ids, w) <==> w == k % WORKERS_PER_ENDPOINT
    {
      if w == k % WORKERS_PER_ENDPOINT {
        InStripe(ids, k);
      } else {
        NotInStripe(ids, w, k);
      }
    }
  }

  ghost function PassOf(p: PoolState, w: nat, batchSize: nat, clock: Bytes -> real): (q: PoolState)
    requires WellFormed(p)
    ensures WellFormed(q) && q.order == p.order && q.sessions.Keys == p.sessions.Keys
  {
    var ids := Stripe(p.order, w);
    PoolEntries(p, ids, batchSize, |ids|, clock);
    PassKeepsIds(p, ids, batchSize, clock);
    PoolAt(p, ids, batchSize, |ids|, clock)
  }

  lemma PassKeepsIds(p: PoolState, ids: seq<Bytes>, batchSize: nat, clock: Bytes -> real)
    requires WellFormed(p) && Visitable(p, ids)
    ensures WellFormed(PoolAt(p, ids, batchSize, |ids|, clock))
  {
    hide PoolAt, VisitedAt;
    PoolEntries(p, ids, batchSize, |ids|, clock);
    forall j | 0 <= j < |ids|
      ensures VisitedAt(p, ids, batchSize, j, clock).id == ids[j]
    {
      VisitedAtId(p, ids, batchSize, j, clock);
    }
  }

  ghost function BatchOf(p: PoolState, w: nat, batchSize: nat): seq<Frame>
    requires WellFormed(p)
  {
    var ids := Stripe(p.order, w);
    BatchAt(p, ids, batchSize, |ids|)
  }

  /** The pool after the workers of ws made one pass each, in that order. */
  ghost function AfterWorkers(p: PoolState, ws: seq<nat>, batchSize: nat, clocks: nat -> (Bytes -> real))
    : (q: PoolState)
    requires WellFormed(p)
    ensures WellFormed(q) && q.order == p.order && q.sessions.Keys == p.sessions.Keys
  {
    if ws == [] then p
    else PassOf(AfterWorkers(p, ws[..|ws| - 1], batchSize, clocks), ws[|ws| - 1], batchSize, clocks(ws[|ws| - 1]))
  }

  /** A pass looks at nothing but the sessions it visits. */
  lemma {:induction false} PassDepends(p: PoolState, q: PoolState, ids: seq<Bytes>, n: nat, j: nat)
    requires Visitable(p, ids) && Visitable(q, ids) && j <= |ids|
    requires forall i | 0 <= i < |ids| :: p.sessions[ids[i]] == q.sessions[ids[i]]
    ensures TotalAt(p, ids, n, j) == TotalAt(q, ids, n, j)
    ensures BatchAt(p, ids, n, j) == BatchAt(q, ids, n, j)
  {
    hide Taken;
    if j > 0 {
      PassDepends(p, q, ids, n, j - 1);
    }
  }

  /** What the k-th session of the pool has become once the workers of ws have passed. */
  ghost function EntryAfter(p: PoolState, ws: seq<nat>, n: nat, clocks: nat -> (Bytes -> real), k: nat): SessionState
    requires WellFormed(p) && k < |p.order|
  {
    var w, ids := k % WORKERS_PER_ENDPOINT, Stripe(p.order, k % WORKERS_PER_ENDPOINT);
    InStripe(p.order, k);
    if w in ws then VisitedAt(p, ids, n, k / WORKERS_PER_ENDPOINT, clocks(w)) else p.sessions[p.order[k]]
  }

  predicate Workers(ws: seq<nat>) {
    && (forall i | 0 <= i < |ws| :: ws[i] < WORKERS_PER_ENDPOINT)
    && (forall i, j | 0 <= i < j < |ws| :: ws[i] != ws[j])
  }

  lemma {:induction false} WorkersEntries(p: PoolState, ws: seq<nat>, n: nat, clocks: nat -> (Bytes -> real))
    requires WellFormed(p) && Workers(ws)
    ensures forall k | 0 <= k < |p.order| ::
              AfterWorkers(p, ws, n, clocks).sessions[p.order[k]] == EntryAfter(p, ws, n, clocks, k)
  {
    hide PassOf, EntryAfter, BatchOf;
    if ws == [] {
      NoWorkers(p, n, clocks);
    } else {
      var init, w := ws[..|ws| - 1], ws[|ws| - 1];
      assert ws == init + [w];
      WorkersEntries(p, init, n, clocks);
      var q := AfterWorkers(p, init, n, clocks);
      forall k | 0 <= k < |p.order|
        ensures AfterWorkers(p, ws, n, clocks).sessions[p.order[k]] == EntryAfter(p, ws, n, clocks, k)
      {
        WorkerTurn(p, q, init, w, n, clocks, k);
      }
    }
  }

  lemma NoWorkers(p: PoolState, n: nat, clocks: nat -> (Bytes -> real))
    requires WellFormed(p)
    ensures forall k | 0 <= k < |p.order| :: p.sessions[p.order[k]] == EntryAfter(p, [], n, clocks, k)
  {
  }

  /** Worker w finds its stripe as it was, and leaves the others alone. */
  lemma WorkerTurn(p: PoolState, q: PoolState, init: seq<nat>, w: nat, n: nat, clocks: nat -> (Bytes -> real), k: nat)
    requires WellFormed(p) && WellFormed(q) && q.order == p.order && q.sessions.Keys == p.sessions.Keys
    requires k < |p.order| && w < WORKERS_PER_ENDPOINT && w !in init
    requires forall i | 0 <= i < |p.order| :: q.sessions[p.order[i]] == EntryAfter(p, init, n, clocks, i)
    ensures PassOf(q, w, n, clocks(w)).sessions[p.order[k]] == EntryAfter(p, init + [w], n, clocks, k)
    ensures BatchOf(q, w, n) == BatchOf(p, w, n)
  {
    hide TotalAt, PoolAt, Visited, BatchAt, Stripe;
    var ids := Stripe(p.order, w);
    StripeUntouched(p, q, init, w, n, clocks);
    PoolEntries(q, ids, n, |ids|, clocks(w));
    PassDepends(p, q, ids, n, |ids|);
    InStripe(p.order, k);
    if k % WORKERS_PER_ENDPOINT == w {
      PassDepends(p, q, ids, n, k / WORKERS_PER_ENDPOINT);
    } else {
      NotInStripe(p.order, w, k);
    }
  }

  lemma StripeUntouched(p: PoolState, q: PoolState, init: seq<nat>, w: nat, n: nat, clocks: nat -> (Bytes -> real))
    requires WellFormed(p) && WellFormed(q) && q.order == p.order && w < WORKERS_PER_ENDPOINT && w !in init
    requires forall i | 0 <= i < |p.order| :: q.sessions[p.order[i]] == EntryAfter(p, init, n, clocks, i)
    ensures var ids := Stripe(p.order, w);
            && Visitable(p, ids) && Visitable(q, ids)
            && forall j | 0 <= j < |ids| :: p.sessions[ids[j]] == q.sessions[ids[j]]
  {
    StripeVisitable(p, w);
    StripeVisitable(q, w);
    hide VisitedAt, Stripe, WellFormed, Visitable;
    var ids := Stripe(p.order, w);
    forall j | 0 <= j < |ids|
      ensures p.sessions[ids[j]] == q.sessions[ids[j]]
    {
      StripeIndex(p.order, w, j);
      var k := w + WORKERS_PER_ENDPOINT * j;
      assert q.sessions[p.order[k]] == EntryAfter(p, init, n, clocks, k);
    }
  }

  /**
   * The passes of an endpoint's workers commute: any two orders of the same workers leave the
   * same pool, and every worker sends the batch it would have sent alone.
   */
  lemma WorkersCommute(p: PoolState, ws: seq<nat>, vs: seq<nat>, n: nat, clocks: nat -> (Bytes -> real))
    requires WellFormed(p) && Workers(ws) && Workers(vs)
    requires forall w :: w in ws <==> w in vs
    ensures AfterWorkers(p, ws, n, clocks) == AfterWorkers(p, vs, n, clocks)
    ensures forall i | 0 <= i < |ws| ::
              BatchOf(AfterWorkers(p, ws[..i], n, clocks), ws[i], n) == BatchOf(p, ws[i], n)
  {
    hide BatchOf, AfterWorkers, WellFormed, EntryAfter;
    WorkersEntries(p, ws, n, clocks);
    WorkersEntries(p, vs, n, clocks);
    SameEntries(p, ws, vs, n, clocks);
    SameSessions(AfterWorkers(p, ws, n, clocks), AfterWorkers(p, vs, n, clocks));
    forall i | 0 <= i < |ws|
      ensures BatchOf(AfterWorkers(p, ws[..i], n, clocks), ws[i], n) == BatchOf(p, ws[i], n)
    {
      SameBatch(p, ws, i, n, clocks);
    }
  }

  lemma SameEntries(p: PoolState, ws: seq<nat>, vs: seq<nat>, n: nat, clocks: nat -> (Bytes -> real))
    requires WellFormed(p) && forall w :: w in ws <==> w in vs
    ensures forall k | 0 <= k < |p.order| :: EntryAfter(p, ws, n, clocks, k) == EntryAfter(p, vs, n, clocks, k)
  {
    hide VisitedAt;
  }

  lemma SameSessions(a: PoolState, b: PoolState)
    requires WellFormed(a) && a.order == b.order && a.sessions.Keys == b.sessions.Keys
    requires forall k | 0 <= k < |a.order| :: a.sessions[a.order[k]] == b.sessions[a.order[k]]
    ensures a == b
  {
    forall id | id in a.sessions
      ensures a.sessions[id] == b.sessions[id]
    {
      var k :| 0 <= k < |a.order| && a.order[k] == id;
    }
    assert a.sessions == b.sessions;
  }

  /** When its turn comes, a worker's batch is still the one it would send first. */
  lemma SameBatch(p: PoolState, ws: seq<nat>, i: nat, n: nat, clocks: nat -> (Bytes -> real))
    requires WellFormed(p) && Workers(ws) && i < |ws|
    ensures BatchOf(AfterWorkers(p, ws[..i], n, clocks), ws[i], n) == BatchOf(p, ws[i], n)
  {
    hide BatchOf, AfterWorkers, WellFormed, EntryAfter, PassOf;
    var q := AfterWorkers(p, ws[..i], n, clocks);
    WorkersEntries(p, ws[..i], n, clocks);
    if p.order != [] {
      WorkerTurn(p, q, ws[..i], ws[i], n, clocks, 0);
    } else {
      EmptyPool(p, q, ws[i], n);
    }
  }

  lemma EmptyPool(p: PoolState, q: PoolState, w: nat, n: nat)
    requires WellFormed(p) && WellFormed(q) && p.order == q.order == []
    ensures BatchOf(p, w, n) == BatchOf(q, w, n)
  {
  }

  // ----- dispatching a response -----

  function DispatchedAll(p: PoolState, fs: seq<Frame>, now: real): PoolState {
    if fs == [] then p else Deliver(DispatchedAll(p, fs[..|fs| - 1], now), fs[|fs| - 1], now)
  }

  /** `_dispatch_response_frames` */
  method DispatchResponseFrames(pool: SessionPool, fs: seq<Frame>, now: real)
    requires pool.Valid()
    modifies pool.sessions.Values
    ensures pool.Valid() && pool.View() == DispatchedAll(old(pool.View()), fs, now)
  {
    hide EnqueueRx;
    for i := 0 to |fs|
      invariant pool.Valid() && pool.View() == DispatchedAll(old(pool.View()), fs[..i], now)
    {
      assert fs[..i + 1][..i] == fs[..i];
      var s := pool.Get(fs[i].sid);
      if s != null {
        label before:
        s.EnqueueRx(fs[i], now);
        pool.OneChanged@before(s);
      }
    }
    assert fs[..|fs|] == fs;
  }

  /** Dispatching appends to each session in the pool its own frames in order, and nothing else. */
  lemma {:induction false} DispatchDelivers(p: PoolState, fs: seq<Frame>, now: real)
    ensures var q := DispatchedAll(p, fs, now);
            && q.order == p.order && q.sessions.Keys == p.sessions.Keys
            && (forall id | id in p.sessions :: Gained(p.sessions[id], q.sessions[id], OfSession(fs, id), now))
  {
    hide Gained, EnqueueRx, OfSession;
    if fs == [] {
      forall id | id in p.sessions
        ensures Gained(p.sessions[id], p.sessions[id], OfSession(fs, id), now)
      {
        GainedNone(p.sessions[id], id, now);
      }
    } else {
      var init, f := fs[..|fs| - 1], fs[|fs| - 1];
      DispatchDelivers(p, init, now);
      var q := DispatchedAll(p, init, now);
      forall id | id in p.sessions
        ensures Gained(p.sessions[id], Deliver(q, f, now).sessions[id], OfSession(fs, id), now)
      {
        GainedStep(p.sessions[id], q.sessions[id], fs, id, now);
      }
    }
  }

  /** s has become t by receiving the frames fs, and has changed in nothing else. */
  ghost predicate Gained(s: SessionState, t: SessionState, fs: seq<Frame>, now: real) {
    t == s.(rxQ := s.rxQ + fs,
            rxBytes := s.rxBytes + PayloadSum(fs),
            rxEvent := s.rxEvent || fs != [],
            lastActivity := if fs == [] then s.lastActivity else now)
  }

  lemma GainedNone(s: SessionState, id: Bytes, now: real)
    ensures Gained(s, s, OfSession([], id), now)
  {
    assert s.rxQ + [] == s.rxQ;
  }

  lemma GainedStep(s: SessionState, t: SessionState, fs: seq<Frame>, id: Bytes, now: real)
    requires fs != [] && Gained(s, t, OfSession(fs[..|fs| - 1], id), now)
    ensures Gained(s, if fs[|fs| - 1].sid == id then EnqueueRx(t, fs[|fs| - 1], now) else t, OfSession(fs, id), now)
  {
    hide PayloadSum;
    var own, f := OfSession(fs[..|fs| - 1], id), fs[|fs| - 1];
    SumOne(f);
    PayloadSumAppend(own, [f]);
    assert s.rxQ + (own + [f]) == s.rxQ + own + [f];
    assert own + [] == own;
  }

  // ----- a refused poll -----

  function SynIds(fs: seq<Frame>): set<Bytes> {
    set i | 0 <= i < |fs| && fs[i].Has(SYN) :: fs[i].sid
  }

  /** What is left of the pool: exactly the sessions without a SYN among the frames, as they were. */
  lemma RefusedPollDrops(p: PoolState, fs: seq<Frame>)
    requires WellFormed(p)
    ensures var q := Removed(p, SynIds(fs));
            && WellFormed(q)
            && (forall id :: id in q.sessions <==>
                  id in p.sessions && forall i | 0 <= i < |fs| && fs[i].sid == id :: !fs[i].Has(SYN))
            && (forall id | id in q.sessions :: q.sessions[id] == p.sessions[id])
  {
    hide Frame.Has;
    WithoutKeeps(p.order, SynIds(fs));
    forall id
      ensures id in SynIds(fs) <==> exists i | 0 <= i < |fs| && fs[i].sid == id :: fs[i].Has(SYN)
    {
    }
  }

  /** After a poll refused with neither 200, 302 nor 429, the sessions whose SYN it carried are dropped. */
  method DropFailedSessions(pool: SessionPool, fs: seq<Frame>)
    requires pool.Valid()
    modifies pool
    ensures pool.Valid() && pool.View() == Removed(old(pool.View()), SynIds(fs))
  {
    hide Removed, Frame.Has;
    var failed := SynIds(fs);
    ghost var all := failed;
    RemovedNone(pool.View());
    assert all - failed == {};
    while failed != {}
      invariant pool.Valid() && failed <= all
      invariant pool.View() == Removed(old(pool.View()), all - failed)
      decreases failed
    {
      var sid :| sid in failed;
      RemovedMore(old(pool.View()), all - failed, {sid});
      assert all - failed + {sid} == all - (failed - {sid});
      failed := failed - {sid};
      pool.Remove(sid);
    }
    assert all - failed == all;
  }
}
