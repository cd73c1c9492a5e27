/** Sessions as values: what each queue operation of `session.py` does to one session. */
module Sessions {
  import opened Octets
  import opened Frames

  const TX_HIGH_WATER := 8 * 1024 * 1024

  datatype SessionState = SessionState(
    id: Bytes, seqno: nat, flags: nat, target: string,
    rxQ: seq<Frame>, txQ: seq<Frame>, txBytes: int, rxBytes: int,
    lastActivity: real, txEvent: bool, rxEvent: bool)

  datatype Snapshot = Snapshot(id: Bytes, frames: seq<Frame>, totalPayload: int)

  function Fresh(id: Bytes, flags: nat, target: string, now: real): SessionState {
    SessionState(id, 0, flags, target, [], [], 0, 0, now, false, false)
  }

  function PayloadSum(fs: seq<Frame>): nat {
    if fs == [] then 0 else PayloadSum(fs[..|fs| - 1]) + |fs[|fs| - 1].payload|
  }

  lemma {:induction false} PayloadSumAppend(a: seq<Frame>, b: seq<Frame>)
    ensures PayloadSum(a + b) == PayloadSum(a) + PayloadSum(b)
  {
    if b == [] {
      assert a + b == a;
    } else {
      assert (a + b)[..|a + b| - 1] == a + b[..|b| - 1];
      PayloadSumAppend(a, b[..|b| - 1]);
    }
  }

  lemma SumNone()
    ensures PayloadSum([]) == 0
  {
  }

  lemma SumOne(f: Frame)
    ensures PayloadSum([f]) == |f.payload|
  {
    assert [f][..0] == [];
  }

  function EnqueueTx(s: SessionState, f: Frame, now: real): SessionState {
    s.(txQ := s.txQ + [f], txBytes := s.txBytes + |f.payload|, lastActivity := now, txEvent := true)
  }

  function EnqueueRx(s: SessionState, f: Frame, now: real): SessionState {
    s.(rxQ := s.rxQ + [f], rxBytes := s.rxBytes + |f.payload|, lastActivity := now, rxEvent := true)
  }

  function EnqueueAllTx(s: SessionState, fs: seq<Frame>, now: real): SessionState {
    if fs == [] then s else EnqueueTx(EnqueueAllTx(s, fs[..|fs| - 1], now), fs[|fs| - 1], now)
  }

  function Min(a: int, b: int): int {
    if a <= b then a else b
  }

  function Max(a: int, b: int): int {
    if a >= b then a else b
  }

  /** `drain_tx_limited_txn` on the session: up to maxFrames from the front of the queue. */
  function Drained(s: SessionState, maxFrames: nat): seq<Frame> {
    s.txQ[..Min(maxFrames, |s.txQ|)]
  }

  function Drain(s: SessionState, maxFrames: nat): SessionState {
    if s.txQ == [] then s
    else
      var taken := Drained(s, maxFrames);
      s.(txQ := s.txQ[|taken|..],
         txBytes := Max(0, s.txBytes - PayloadSum(taken)),
         txEvent := |taken| < |s.txQ|)
  }

  function SnapshotOf(s: SessionState, maxFrames: nat): Snapshot {
    var taken := Drained(s, maxFrames);
    Snapshot(s.id, taken, PayloadSum(taken))
  }

  /** `rollback_drain` on the session. */
  function Rollback(s: SessionState, snap: Snapshot, now: real): SessionState {
    s.(txQ := snap.frames + s.txQ,
       txBytes := s.txBytes + snap.totalPayload,
       lastActivity := now,
       txEvent := s.txEvent || snap.frames != [])
  }

  /** The byte counter is the payload queued, and the event says whether anything is. */
  predicate Accounted(s: SessionState) {
    && s.txBytes == PayloadSum(s.txQ)
    && (s.txEvent <==> s.txQ != [])
  }

  lemma DrainTakesPrefix(s: SessionState, maxFrames: nat)
    ensures Drained(s, maxFrames) + Drain(s, maxFrames).txQ == s.txQ
  {
  }

  lemma DrainAccounted(s: SessionState, maxFrames: nat)
    requires Accounted(s)
    ensures Accounted(Drain(s, maxFrames))
    ensures s.txBytes - PayloadSum(Drained(s, maxFrames)) >= 0
    ensures Drained(s, maxFrames) + Drain(s, maxFrames).txQ == s.txQ
    ensures |Drained(s, maxFrames)| == if maxFrames < |s.txQ| then maxFrames else |s.txQ|
  {
    var taken := Drained(s, maxFrames);
    assert s.txQ == taken + s.txQ[|taken|..];
    PayloadSumAppend(taken, s.txQ[|taken|..]);
  }

  lemma RollbackAccounted(s: SessionState, snap: Snapshot, now: real)
    requires Accounted(s) && snap.totalPayload == PayloadSum(snap.frames)
    ensures Accounted(Rollback(s, snap, now))
  {
    PayloadSumAppend(snap.frames, s.txQ);
  }

  /** s with the frames fs added to its tx queue in one go. */
  function Loaded(s: SessionState, fs: seq<Frame>, now: real): SessionState {
    s.(txQ := s.txQ + fs, txBytes := s.txBytes + PayloadSum(fs),
       lastActivity := if fs == [] then s.lastActivity else now,
       txEvent := s.txEvent || fs != [])
  }

  lemma LoadedStep(s: SessionState, fs: seq<Frame>, f: Frame, now: real)
    ensures EnqueueTx(Loaded(s, fs, now), f, now) == Loaded(s, fs + [f], now)
  {
    assert (fs + [f])[..|fs|] == fs;
    assert s.txQ + fs + [f] == s.txQ + (fs + [f]);
  }

  lemma LoadedNothing(s: SessionState, now: real)
    ensures Loaded(s, [], now) == s
  {
    assert s.txQ + [] == s.txQ;
  }

  lemma {:induction false} EnqueueAllIsLoaded(s: SessionState, fs: seq<Frame>, now: real)
    ensures EnqueueAllTx(s, fs, now) == Loaded(s, fs, now)
  {
    hide Loaded, EnqueueTx;
    if fs == [] {
      LoadedNothing(s, now);
    } else {
      EnqueueAllIsLoaded(s, fs[..|fs| - 1], now);
      LoadedStep(s, fs[..|fs| - 1], fs[|fs| - 1], now);
      assert fs[..|fs| - 1] + [fs[|fs| - 1]] == fs;
    }
  }

  // ----- drain and rollback as a transaction -----

  /** Something that happens to a session between the first drain and the last rollback. */
  datatype Event = Enqueued(frame: Frame) | DrainedBy(maxFrames: nat)

  function Happen(s: SessionState, snaps: seq<Snapshot>, e: Event, now: real): (SessionState, seq<Snapshot>) {
    match e
    case Enqueued(f) => (EnqueueTx(s, f, now), snaps)
    case DrainedBy(n) => (Drain(s, n), snaps + [SnapshotOf(s, n)])
  }

  /** The session and the snapshots outstanding, the latest last. */
  function Play(s: SessionState, events: seq<Event>, now: real): (SessionState, seq<Snapshot>) {
    if events == [] then (s, [])
    else
      var (t, snaps) := Play(s, events[..|events| - 1], now);
      Happen(t, snaps, events[|events| - 1], now)
  }

  /** Rolls the snapshots back, the latest first. */
  function Unwind(s: SessionState, snaps: seq<Snapshot>, now: real): SessionState
    decreases |snaps|
  {
    if snaps == [] then s
    else Unwind(Rollback(s, snaps[|snaps| - 1], now), snaps[..|snaps| - 1], now)
  }

  function FramesOf(e: Event): seq<Frame> {
    match e case Enqueued(f) => [f] case DrainedBy(_) => []
  }

  function EnqueuedFrames(events: seq<Event>): seq<Frame> {
    if events == [] then []
    else EnqueuedFrames(events[..|events| - 1]) + FramesOf(events[|events| - 1])
  }

  function AllFrames(snaps: seq<Snapshot>): seq<Frame> {
    if snaps == [] then [] else AllFrames(snaps[..|snaps| - 1]) + snaps[|snaps| - 1].frames
  }

  ghost predicate SnapshotsCount(snaps: seq<Snapshot>) {
    forall i | 0 <= i < |snaps| :: snaps[i].totalPayload == PayloadSum(snaps[i].frames)
  }

  /** The session without its tx queue and what goes with it. */
  function Rest(s: SessionState): SessionState {
    s.(txQ := [], txBytes := 0, txEvent := false, lastActivity := 0.0)
  }

  /** t and the snapshots hold the frames fs between them, in order; nothing else differs from s. */
  ghost predicate Holds(s: SessionState, fs: seq<Frame>, t: SessionState, snaps: seq<Snapshot>) {
    && Accounted(t)
    && SnapshotsCount(snaps)
    && AllFrames(snaps) + t.txQ == fs
    && Rest(t) == Rest(s)
  }

  lemma HappenHolds(s: SessionState, fs: seq<Frame>, t: SessionState, snaps: seq<Snapshot>, e: Event, now: real)
    requires Holds(s, fs, t, snaps)
    ensures var (t', snaps') := Happen(t, snaps, e, now); Holds(s, fs + FramesOf(e), t', snaps')
  {
    match e
    case Enqueued(f) =>
      EnqueueHolds(s, fs, t, snaps, f, now);
    case DrainedBy(n) =>
      DrainHolds(s, fs, t, snaps, n);
      assert fs + [] == fs;
  }

  lemma EnqueueHolds(s: SessionState, fs: seq<Frame>, t: SessionState, snaps: seq<Snapshot>, f: Frame, now: real)
    requires Holds(s, fs, t, snaps)
    ensures Holds(s, fs + [f], EnqueueTx(t, f, now), snaps)
  {
    hide PayloadSum, AllFrames, SnapshotsCount;
    PayloadSumAppend(t.txQ, [f]);
    SumOne(f);
    assert AllFrames(snaps) + (t.txQ + [f]) == fs + [f];
  }

  lemma DrainHolds(s: SessionState, fs: seq<Frame>, t: SessionState, snaps: seq<Snapshot>, n: nat)
    requires Holds(s, fs, t, snaps)
    ensures Holds(s, fs, Drain(t, n), snaps + [SnapshotOf(t, n)])
  {
    hide PayloadSum, Accounted, Drained;
    DrainAccounted(t, n);
    var snap := SnapshotOf(t, n);
    assert (snaps + [snap])[..|snaps|] == snaps;
    assert AllFrames(snaps) + snap.frames + Drain(t, n).txQ == AllFrames(snaps) + t.txQ;
  }

  lemma {:induction false} PlayHolds(s: SessionState, events: seq<Event>, now: real)
    requires Accounted(s)
    ensures var (t, snaps) := Play(s, events, now);
            Holds(s, s.txQ + EnqueuedFrames(events), t, snaps)
  {
    hide Happen, FramesOf, Accounted, Rest;
    if events == [] {
      assert [] + s.txQ == s.txQ == s.txQ + [];
    } else {
      var init := events[..|events| - 1];
      PlayHolds(s, init, now);
      var (t, snaps) := Play(s, init, now);
      HappenHolds(s, s.txQ + EnqueuedFrames(init), t, snaps, events[|events| - 1], now);
      assert s.txQ + EnqueuedFrames(init) + FramesOf(events[|events| - 1]) == s.txQ + EnqueuedFrames(events);
    }
  }

  lemma {:induction false} UnwindPrepends(s: SessionState, snaps: seq<Snapshot>, now: real)
    requires Accounted(s) && SnapshotsCount(snaps)
    ensures Accounted(Unwind(s, snaps, now))
    ensures var u := Unwind(s, snaps, now);
            u == s.(txQ := AllFrames(snaps) + s.txQ, txBytes := u.txBytes, txEvent := u.txEvent,
                    lastActivity := if snaps == [] then s.lastActivity else now)
    decreases |snaps|
  {
    if snaps == [] {
      assert [] + s.txQ == s.txQ;
    } else {
      var snap, init := snaps[|snaps| - 1], snaps[..|snaps| - 1];
      RollbackAccounted(s, snap, now);
      UnwindPrepends(Rollback(s, snap, now), init, now);
      assert AllFrames(init) + (snap.frames + s.txQ) == AllFrames(snaps) + s.txQ;
    }
  }

  /**
   * Drains are transactions: however many are interleaved with enqueues, rolling all of them
   * back, the latest first, leaves the session as the enqueues alone would have left it.
   */
  lemma DrainsRollBack(s: SessionState, events: seq<Event>, now: real)
    requires Accounted(s)
    ensures var (t, snaps) := Play(s, events, now);
            var u := Unwind(t, snaps, now);
            u.(lastActivity := s.lastActivity)
            == EnqueueAllTx(s, EnqueuedFrames(events), now).(lastActivity := s.lastActivity)
  {
    var (t, snaps) := Play(s, events, now);
    PlayHolds(s, events, now);
    UnwindPrepends(t, snaps, now);
    EnqueueAllIsLoaded(s, EnqueuedFrames(events), now);
    PayloadSumAppend(s.txQ, EnqueuedFrames(events));
  }

  /** Rolled back in the order they were drained, two snapshots come back swapped. */
  lemma RollbackOrderMatters(s: SessionState, a: Frame, b: Frame, now: real)
    requires s.txQ == [a, b] && a != b
    ensures var d1, d2 := Drain(s, 1), Drain(Drain(s, 1), 1);
            Rollback(Rollback(d2, SnapshotOf(s, 1), now), SnapshotOf(d1, 1), now).txQ == [b, a]
  {
    assert Drain(s, 1).txQ == [b];
    assert Drained(s, 1) == [a] && Drained(Drain(s, 1), 1) == [b];
  }
}
