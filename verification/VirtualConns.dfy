/** `VirtualConn`: from the bytes a SOCKS client writes to the frames in its session's tx queue. */
module VirtualConns {
  import opened Octets
  import opened Frames
  import opened Chunks
  import opened Sessions
  import P = Pools
  import Carrier
  import opened Targets

  const TX_QUEUE_MAX := 4096

  function SynFrame(id: Bytes, target: string): Frame {
    Frame(id, 0, SYN, target, [])
  }

  /**
   * A connection.  `waiting` are the chunks of writers that found the queue full; `finished` says
   * that the FIN is queued, `looping` that the drain loop is still at its `get`.
   */
  datatype Conn = Conn(session: SessionState, queue: seq<Bytes>, waiting: seq<Bytes>,
                       closed: bool, finished: bool, looping: bool)

  function Opened(id: Bytes, host: string, port: nat, now: real): Conn {
    var target := TargetOf(host, port);
    Conn(EnqueueTx(Fresh(id, SYN, target, now), SynFrame(id, target), now), [], [], false, false, true)
  }

  /** The pool once a connection has opened its session in it and queued the SYN. */
  function OpenedIn(p: P.PoolState, id: Bytes, host: string, port: nat, now: real): P.PoolState {
    var target := TargetOf(host, port);
    var q := P.Created(p, id, SYN, target, now);
    q.Put(EnqueueTx(q.sessions[id], SynFrame(id, target), now))
  }

  /** `write`: nothing once closed, and a wait on a full queue. */
  function Written(c: Conn, data: Bytes): Conn {
    if c.closed then c
    else if |c.queue| >= TX_QUEUE_MAX then c.(waiting := c.waiting + [data])
    else c.(queue := c.queue + [data])
  }

  /**
   * A waiting writer gets its turn, closed or not.  `asyncio.Queue` wakes the longest waiting one,
   * but a write that comes in between may take the place, and then the woken one queues again
   * behind the others; so any of them may be next.
   */
  function Admitted(c: Conn, k: nat): Conn {
    if k >= |c.waiting| || |c.queue| >= TX_QUEUE_MAX then c
    else c.(queue := c.queue + [c.waiting[k]], waiting := c.waiting[..k] + c.waiting[k + 1..])
  }

  /** One turn of `_tx_drain_loop`. */
  function TxTurned(c: Conn, now: real): Conn {
    if !c.looping || c.queue == [] then c
    else
      var s := c.session;
      var f := DataFrame(s.id, s.seqno, c.queue[0]);
      c.(session := EnqueueTx(s.(seqno := s.seqno + 1), f, now), queue := c.queue[1..], looping := !c.closed)
  }

  /** The second half of `close`, behind the wait for the read task: the FIN is queued, once. */
  function Finished(c: Conn, now: real): Conn {
    if !c.closed || c.finished then c
    else c.(finished := true, session := EnqueueTx(c.session, FinFrame(c.session.id), now).(rxEvent := true))
  }

  class VirtualConn {
    const session: P.Session
    var txQueue: seq<Bytes>
    var waiting: seq<Bytes>
    var closed: bool
    var finished: bool
    var looping: bool

    /** `open`: the session comes from the pool, which makes it if the id is new, and its SYN is queued. */
    constructor Open(pool: P.SessionPool, id: Bytes, host: string, port: nat, now: real)
      requires pool.Valid()
      modifies pool, pool.sessions.Values
      ensures pool.Valid() && pool.View() == OpenedIn(old(pool.View()), id, host, port, now)
      ensures id in pool.sessions && session == pool.sessions[id]
      ensures Now() == Conn(pool.View().sessions[id], [], [], false, false, true)
      ensures id !in old(pool.sessions) ==> Now() == Opened(id, host, port, now)
    {
      hide Fresh, EnqueueTx, TargetOf, Distinct, P.Created;
      var target := TargetOf(host, port);
      CreatedHas(pool.View(), id, target, now);
      var s := pool.GetOrCreate(id, SYN, target, now);
      session := s;
      txQueue, waiting, closed, finished, looping := [], [], false, false, true;
      QueueSyn(pool, s, target, now);
      new;
    }

    function Now(): Conn
      reads this, session
    {
      Conn(session.View(), txQueue, waiting, closed, finished, looping)
    }

    method Write(data: Bytes)
      modifies this
      ensures Now() == Written(old(Now()), data)
    {
      if closed {
        return;
      }
      if |txQueue| < TX_QUEUE_MAX {
        txQueue := txQueue + [data];
      } else {
        waiting := waiting + [data];
      }
    }

    /** What a waiting write does once it is woken. */
    method Admit(k: nat)
      modifies this
      ensures Now() == Admitted(old(Now()), k)
    {
      if k < |waiting| && |txQueue| < TX_QUEUE_MAX {
        txQueue := txQueue + [waiting[k]];
        waiting := waiting[..k] + waiting[k + 1..];
      }
    }

    method TxTurn(now: real)
      modifies this, session
      ensures Now() == TxTurned(old(Now()), now)
    {
      if !looping || txQueue == [] {
        return;
      }
      var data := txQueue[0];
      txQueue := txQueue[1..];
      var n := session.seqno;
      session.seqno := session.seqno + 1;
      var _ := session.EnqueueTx(DataFrame(session.id, n, data), now);
      looping := !closed;
    }

    /** `close` up to its wait for the read task; only the first call goes on to the second half. */
    method Close() returns (goesOn: bool)
      modifies this
      ensures Now() == old(Now()).(closed := true)
      ensures goesOn <==> !old(closed)
    {
      goesOn := !closed;
      closed := true;
    }

    /** The rest of `close`. */
    method Finish(now: real)
      modifies this, session
      ensures Now() == Finished(old(Now()), now)
    {
      if closed && !finished {
        var _ := session.EnqueueTx(FinFrame(session.id), now);
        session.rxEvent := true;
        finished := true;
      }
    }
  }

  method QueueSyn(pool: P.SessionPool, s: P.Session, target: string, now: real)
    requires pool.Valid() && s.id in pool.sessions && pool.sessions[s.id] == s
    modifies s
    ensures s.View() == EnqueueTx(old(s.View()), SynFrame(s.id, target), now)
    ensures pool.Valid() && pool.View() == old(pool.View()).Put(s.View())
  {
    var _ := s.EnqueueTx(SynFrame(s.id, target), now);
    pool.OneChanged(s);
  }

  lemma CreatedHas(p: P.PoolState, id: Bytes, target: string, now: real)
    ensures var q := P.Created(p, id, SYN, target, now);
            id in q.sessions && (id !in p.sessions ==> q.sessions[id] == Fresh(id, SYN, target, now))
  {
  }

  // ----- every run -----

  datatype Step = Write(data: Bytes) | Admit(k: nat) | TxTurn | Close | Finish | Visit(maxFrames: nat, total: nat)

  /**
   * A connection with its history: the chunks written before it closed, those that got into the
   * queue and those taken off it, every frame ever queued for the carrier, those that have left its
   * queue for good, and every frame that drain passes have put into batches.
   */
  datatype Trace = Trace(c: Conn, written: seq<Bytes>, accepted: seq<Bytes>, taken: seq<Bytes>,
                         log: seq<Frame>, gone: seq<Frame>, wire: seq<Frame>)

  function Begin(id: Bytes, host: string, port: nat, now: real): Trace {
    Trace(Opened(id, host, port, now), [], [], [], [SynFrame(id, TargetOf(host, port))], [], [])
  }

  /** The frames a visit takes off the queue for good: its snapshot, if all of it fits. */
  function Left(s: SessionState, n: nat, total: nat): seq<Frame> {
    if total + Carrier.SizeSum(Drained(s, n)) <= Carrier.MAX_FRAME_PAYLOAD then Drained(s, n) else []
  }

  function Next(t: Trace, step: Step, now: real): Trace {
    var c := t.c;
    match step
    case Write(data) =>
      var d := Written(c, data);
      t.(c := d, accepted := t.accepted + d.queue[|c.queue|..],
         written := if c.closed then t.written else t.written + [data])
    case Admit(k) =>
      var d := Admitted(c, k);
      t.(c := d, accepted := t.accepted + d.queue[|c.queue|..])
    case TxTurn =>
      if !c.looping || c.queue == [] then t
      else
        t.(c := TxTurned(c, now), taken := t.taken + [c.queue[0]],
           log := t.log + [DataFrame(c.session.id, c.session.seqno, c.queue[0])])
    case Close => t.(c := c.(closed := true))
    case Finish =>
      if !c.closed || c.finished then t else t.(c := Finished(c, now), log := t.log + [FinFrame(c.session.id)])
    case Visit(n, total) =>
      t.(c := c.(session := Carrier.Visited(c.session, n, total, now)),
         gone := t.gone + Left(c.session, n, total),
         wire := t.wire + Carrier.Taken(c.session, n, total))
  }

  /** The connection after a run, which takes each step at its time. */
  function After(t: Trace, run: seq<(Step, real)>): Trace {
    if run == [] then t
    else Next(After(t, run[..|run| - 1]), run[|run| - 1].0, run[|run| - 1].1)
  }

  /** The data frames of a list, those without flags. */
  function Data(fs: seq<Frame>): seq<Frame> {
    if fs == [] then []
    else Data(fs[..|fs| - 1]) + if fs[|fs| - 1].flags == 0 then [fs[|fs| - 1]] else []
  }

  lemma {:induction false} DataAppend(a: seq<Frame>, b: seq<Frame>)
    ensures Data(a + b) == Data(a) + Data(b)
  {
    if b == [] {
      assert a + b == a;
    } else {
      assert (a + b)[..|a + b| - 1] == a + b[..|b| - 1];
      DataAppend(a, b[..|b| - 1]);
    }
  }

  /** What every step keeps. */
  ghost predicate Kept(id: Bytes, t: Trace) {
    && t.c.session.id == id
    && t.c.session.seqno == |t.taken|
    && t.accepted == t.taken + t.c.queue
    && multiset(t.written) == multiset(t.accepted) + multiset(t.c.waiting)
    && Data(t.log) == DataFrames(id, t.taken)
    && t.log == t.gone + t.c.session.txQ
  }

  /** A connection starts with its SYN queued, number 0, and the counter of its data at 0. */
  lemma BeginIs(id: Bytes, host: string, port: nat, now: real)
    ensures var s := Begin(id, host, port, now).c.session;
            && s.txQ == [Frame(id, 0, 1, host + ":" + Decimal(port), [])] && s.seqno == 0 && s.rxQ == []
            && s.target == host + ":" + Decimal(port) && s.txEvent && s.lastActivity == now
  {
    hide Decimal;
    var f := SynFrame(id, TargetOf(host, port));
    assert [] + [f] == [f];
  }

  lemma BeginKept(id: Bytes, host: string, port: nat, now: real)
    ensures Kept(id, Begin(id, host, port, now))
  {
    var syn := SynFrame(id, TargetOf(host, port));
    assert [syn][..0] == [] && [] + [syn] == [syn];
  }

  lemma DataStep(log: seq<Frame>, f: Frame)
    ensures Data(log + [f]) == if f.flags == 0 then Data(log) + [f] else Data(log)
  {
    assert (log + [f])[..|log|] == log;
    assert Data(log) + [] == Data(log);
  }

  lemma WriteKept(id: Bytes, t: Trace, data: Bytes, now: real)
    requires Kept(id, t)
    ensures Kept(id, Next(t, Write(data), now))
  {
    hide Data, DataFrames;
    var a, b := t.accepted, t.c.waiting;
    assert a + [] == a;
    if !t.c.closed {
      assert a + [data] == t.taken + (t.c.queue + [data]);
      OneMore(t.written, a, b, data);
    }
  }

  lemma OneMore(w: seq<Bytes>, a: seq<Bytes>, b: seq<Bytes>, x: Bytes)
    requires multiset(w) == multiset(a) + multiset(b)
    ensures multiset(w + [x]) == multiset(a + [x]) + multiset(b)
    ensures multiset(w + [x]) == multiset(a) + multiset(b + [x])
  {
  }

  lemma AdmitKept(id: Bytes, t: Trace, k: nat, now: real)
    requires Kept(id, t)
    ensures Kept(id, Next(t, Admit(k), now))
  {
    hide Data, DataFrames;
    assert t.accepted + [] == t.accepted;
    if k < |t.c.waiting| && |t.c.queue| < TX_QUEUE_MAX {
      var x := t.c.waiting[k];
      assert t.accepted + [x] == t.taken + (t.c.queue + [x]);
      OneMoves(t.accepted, t.c.waiting, k);
    }
  }

  lemma OneMoves(a: seq<Bytes>, b: seq<Bytes>, k: nat)
    requires k < |b|
    ensures multiset(a + [b[k]]) + multiset(b[..k] + b[k + 1..]) == multiset(a) + multiset(b)
  {
    assert b == b[..k] + [b[k]] + b[k + 1..];
  }

  lemma TurnKept(id: Bytes, t: Trace, now: real)
    requires Kept(id, t) && t.c.looping && t.c.queue != []
    ensures Kept(id, Next(t, TxTurn, now))
  {
    hide Data, DataFrames;
    var s, data := t.c.session, t.c.queue[0];
    var f := DataFrame(id, s.seqno, data);
    assert t.gone + (s.txQ + [f]) == t.log + [f];
    DataStep(t.log, f);
    DataFramesSnoc(id, t.taken, data);
    assert t.taken + [data] + t.c.queue[1..] == t.taken + t.c.queue;
  }

  lemma FinishKept(id: Bytes, t: Trace, now: real)
    requires Kept(id, t) && t.c.closed && !t.c.finished
    ensures Kept(id, Next(t, Finish, now))
  {
    hide Data, DataFrames;
    assert t.gone + (t.c.session.txQ + [FinFrame(id)]) == t.log + [FinFrame(id)];
    DataStep(t.log, FinFrame(id));
  }

  lemma LeftAndQueue(s: SessionState, n: nat, total: nat, now: real)
    requires total <= Carrier.MAX_FRAME_PAYLOAD
    ensures Left(s, n, total) + Carrier.Visited(s, n, total, now).txQ == s.txQ
  {
    hide Carrier.Visited, Carrier.Taken, Carrier.CutInside, Carrier.SizeSum, Drained;
    Carrier.VisitEffect(s, n, total, now);
    var q := Carrier.Visited(s, n, total, now).txQ;
    assert [] + q == q;
  }

  lemma VisitKept(id: Bytes, t: Trace, n: nat, total: nat, now: real)
    requires Kept(id, t) && total <= Carrier.MAX_FRAME_PAYLOAD
    ensures Kept(id, Next(t, Visit(n, total), now))
  {
    hide Data, DataFrames, Carrier.Visited, Left;
    var s := t.c.session;
    VisitKeepsIdentity(s, n, total, now);
    LeftAndQueue(s, n, total, now);
    var q := Carrier.Visited(s, n, total, now).txQ;
    assert t.gone + Left(s, n, total) + q == t.gone + (Left(s, n, total) + q);
  }

  lemma NextKept(id: Bytes, t: Trace, step: Step, now: real)
    requires Kept(id, t)
    requires step.Visit? ==> step.total <= Carrier.MAX_FRAME_PAYLOAD
    ensures Kept(id, Next(t, step, now))
  {
    match step
    case Write(data) => WriteKept(id, t, data, now);
    case Admit(k) => AdmitKept(id, t, k, now);
    case TxTurn =>
      if t.c.looping && t.c.queue != [] {
        TurnKept(id, t, now);
      }
    case Close =>
    case Finish =>
      if t.c.closed && !t.c.finished {
        FinishKept(id, t, now);
      }
    case Visit(n, total) => VisitKept(id, t, n, total, now);
  }

  lemma VisitKeepsIdentity(s: SessionState, n: nat, total: nat, now: real)
    ensures Carrier.Visited(s, n, total, now).id == s.id
    ensures Carrier.Visited(s, n, total, now).seqno == s.seqno
  {
  }

  ghost predicate WithinBudget(run: seq<(Step, real)>) {
    forall i | 0 <= i < |run| && run[i].0.Visit? :: run[i].0.total <= Carrier.MAX_FRAME_PAYLOAD
  }

  lemma {:induction false} KeptOverRuns(id: Bytes, t: Trace, run: seq<(Step, real)>)
    requires Kept(id, t) && WithinBudget(run)
    ensures Kept(id, After(t, run))
  {
    hide Kept, Next;
    if run != [] {
      KeptOverRuns(id, t, run[..|run| - 1]);
      NextKept(id, After(t, run[..|run| - 1]), run[|run| - 1].0, run[|run| - 1].1);
    }
  }

  /** The data frames queued are consecutive, end before the counter and carry the last chunks taken. */
  ghost predicate NumberedTail(t: Trace) {
    var d, s := Data(t.c.session.txQ), t.c.session;
    && s.seqno == |t.taken| && t.accepted == t.taken + t.c.queue
    && multiset(t.written) == multiset(t.accepted) + multiset(t.c.waiting)
    && |d| <= |t.taken|
    && forall i | 0 <= i < |d| :: d[i] == Frame(s.id, s.seqno - |d| + i, 0, "", t.taken[|t.taken| - |d| + i])
  }

  lemma TailOfNumbered(id: Bytes, chunks: seq<Bytes>, before: seq<Frame>, d: seq<Frame>)
    requires before + d == DataFrames(id, chunks)
    ensures |d| <= |chunks|
    ensures forall i | 0 <= i < |d| :: d[i] == DataFrame(id, |chunks| - |d| + i, chunks[|chunks| - |d| + i])
  {
    hide DataFrame;
    forall i | 0 <= i < |d|
      ensures d[i] == DataFrame(id, |chunks| - |d| + i, chunks[|chunks| - |d| + i])
    {
      assert d[i] == DataFrames(id, chunks)[|before| + i];
    }
  }

  lemma KeptMeans(id: Bytes, t: Trace)
    requires Kept(id, t)
    ensures NumberedTail(t)
  {
    hide Data, DataFrames;
    var q := t.c.session.txQ;
    DataAppend(t.gone, q);
    TailOfNumbered(id, t.taken, Data(t.gone), Data(q));
  }

  /**
   * Over every run of writes, drain turns, drain passes (rolled back or not) and a close: the data
   * frames queued are numbered consecutively up to the session's counter, and carry the last
   * chunks taken, which are the chunks accepted, in order, but for those still queued; and no
   * chunk written is lost or doubled between the writers and the queue.
   */
  lemma ClientStream(id: Bytes, host: string, port: nat, start: real, run: seq<(Step, real)>)
    requires WithinBudget(run)
    ensures NumberedTail(After(Begin(id, host, port, start), run))
  {
    hide NumberedTail, Kept, Begin, After;
    BeginKept(id, host, port, start);
    KeptOverRuns(id, Begin(id, host, port, start), run);
    KeptMeans(id, After(Begin(id, host, port, start), run));
  }

  // ----- the order of the writers -----

  /** The step lets a chunk into the queue while another, written before it, still waits. */
  predicate Overtakes(c: Conn, step: Step) {
    match step
    case Write(data) => !c.closed && |c.queue| < TX_QUEUE_MAX && c.waiting != []
    case Admit(k) => 0 < k < |c.waiting| && |c.queue| < TX_QUEUE_MAX
    case _ => false
  }

  ghost predicate NeverOvertaken(t: Trace, run: seq<(Step, real)>) {
    run == [] ||
    (NeverOvertaken(t, run[..|run| - 1]) && !Overtakes(After(t, run[..|run| - 1]).c, run[|run| - 1].0))
  }

  /** Chunks are accepted in the order they were written, as long as no writer overtakes another. */
  lemma {:induction false} AcceptedInOrder(t: Trace, run: seq<(Step, real)>)
    requires t.written == t.accepted + t.c.waiting
    requires NeverOvertaken(t, run)
    ensures After(t, run).written == After(t, run).accepted + After(t, run).c.waiting
  {
    hide Carrier.Visited, Carrier.Taken;
    if run != [] {
      AcceptedInOrder(t, run[..|run| - 1]);
      StepInOrder(After(t, run[..|run| - 1]), run[|run| - 1].0, run[|run| - 1].1);
    }
  }

  lemma StepInOrder(t: Trace, step: Step, now: real)
    requires t.written == t.accepted + t.c.waiting && !Overtakes(t.c, step)
    ensures var u := Next(t, step, now); u.written == u.accepted + u.c.waiting
  {
    hide Carrier.Visited, Carrier.Taken, EnqueueTx;
    var a, b := t.accepted, t.c.waiting;
    assert a + [] == a;
    match step
    case Write(data) => FirstMoves(a, b, data);
    case Admit(k) =>
      if b != [] && k == 0 {
        FirstMoves(a, b, b[0]);
      }
    case _ =>
  }

  lemma FirstMoves(a: seq<Bytes>, b: seq<Bytes>, x: Bytes)
    ensures a + (b + [x]) == a + b + [x]
    ensures b == [] ==> a + [x] + b == a + b + [x]
    ensures b != [] ==> a + [b[0]] + (b[..0] + b[1..]) == a + b
  {
  }

  /** Some chunk accepted is not the one written in its place. */
  ghost predicate Disordered(t: Trace) {
    exists d | 0 <= d < |t.accepted| && d < |t.written| :: t.accepted[d] != t.written[d]
  }

  lemma HistoryGrows(t: Trace, step: Step, now: real)
    ensures t.written <= Next(t, step, now).written && t.accepted <= Next(t, step, now).accepted
  {
    hide Carrier.Visited, Carrier.Taken;
  }

  /** No write of the run finds the queue full: the drain loop keeps up. */
  ghost predicate NeverFull(t: Trace, run: seq<(Step, real)>) {
    run == [] ||
    (var u, step := After(t, run[..|run| - 1]), run[|run| - 1].0;
     NeverFull(t, run[..|run| - 1]) && (step.Write? ==> |u.c.queue| < 4096))
  }

  /** Then no writer ever waits, and everything written is accepted at once, in order. */
  lemma {:induction false} NobodyWaits(t: Trace, run: seq<(Step, real)>)
    requires t.written == t.accepted && t.c.waiting == [] && NeverFull(t, run)
    ensures After(t, run).c.waiting == [] && After(t, run).written == After(t, run).accepted
    ensures NeverOvertaken(t, run)
  {
    hide Carrier.Visited, Carrier.Taken, EnqueueTx;
    if run != [] {
      NobodyWaits(t, run[..|run| - 1]);
      var a := After(t, run[..|run| - 1]).accepted;
      assert a + [] == a;
    }
  }

  /**
   * If all chunks written are different, they are accepted in the order they were written exactly
   * if no writer overtook another.
   */
  lemma {:induction false} WritersInOrderIff(t: Trace, run: seq<(Step, real)>)
    requires t.written == t.accepted + t.c.waiting && Distinct(After(t, run).written)
    ensures var u := After(t, run);
            NeverOvertaken(t, run) <==> u.accepted <= u.written
  {
    if NeverOvertaken(t, run) {
      AcceptedInOrder(t, run);
    } else {
      OvertakenDisorders(t, run);
      var u := After(t, run);
      var d :| 0 <= d < |u.accepted| && d < |u.written| && u.accepted[d] != u.written[d];
    }
  }

  lemma {:induction false} OvertakenDisorders(t: Trace, run: seq<(Step, real)>)
    requires t.written == t.accepted + t.c.waiting && Distinct(After(t, run).written)
    requires !NeverOvertaken(t, run)
    ensures Disordered(After(t, run))
  {
    hide Next, Overtakes;
    var u := After(t, run[..|run| - 1]);
    var (step, now) := run[|run| - 1];
    HistoryGrows(u, step, now);
    if NeverOvertaken(t, run[..|run| - 1]) {
      AcceptedInOrder(t, run[..|run| - 1]);
      OvertakingReorders(u, step, now);
    } else {
      OvertakenDisorders(t, run[..|run| - 1]);
    }
  }

  lemma OvertakingReorders(t: Trace, step: Step, now: real)
    requires t.written == t.accepted + t.c.waiting && Overtakes(t.c, step)
    requires Distinct(Next(t, step, now).written)
    ensures var u := Next(t, step, now);
            var n := |t.accepted|;
            n < |u.accepted| && n < |u.written| && u.accepted[n] != u.written[n]
  {
    var u, n := Next(t, step, now), |t.accepted|;
    assert u.written[n] == t.c.waiting[0];
    match step
    case Write(data) =>
      assert u.accepted == t.accepted + [data] && u.written[|t.written|] == data;
    case Admit(k) =>
      assert u.accepted == t.accepted + [t.c.waiting[k]] && u.written[n + k] == t.c.waiting[k];
    case _ =>
  }

  // ----- closing -----

  /** A writer that waits gets in as soon as there is room, even behind a close; a new write no longer does. */
  lemma WaitingGetsIn(t: Trace, k: nat, data: Bytes, now: real)
    requires k < |t.c.waiting| && |t.c.queue| < 4096
    ensures Next(t, Admit(k), now).accepted == t.accepted + [t.c.waiting[k]]
    ensures |Next(t, Admit(k), now).c.waiting| == |t.c.waiting| - 1
    ensures t.c.closed ==> Next(t, Write(data), now) == t
  {
    assert t.accepted + [] == t.accepted;
  }

  /** After a close at most one more chunk is taken, whatever is still queued. */
  lemma {:induction false} CloseStopsTheLoop(t: Trace, run: seq<(Step, real)>)
    requires t.c.closed
    ensures var u := After(t, run);
            && u.c.closed && u.written == t.written
            && |u.taken| == |t.taken| + (if t.c.looping && !u.c.looping then 1 else 0)
            && (u.c.looping ==> t.c.looping)
  {
    hide Carrier.Visited, Carrier.Taken;
    if run != [] {
      CloseStopsTheLoop(t, run[..|run| - 1]);
    }
  }

  /**
   * That one chunk is queued behind the FIN, where the server no longer reads, or in front of it,
   * if it is taken while `close` waits for the read task.
   */
  lemma LateChunk(t: Trace, now: real)
    requires !t.c.closed && !t.c.finished && t.c.looping && t.c.queue != []
    ensures var id, n, u := t.c.session.id, t.c.session.seqno, Next(t, Close, now);
            var behind, before := Next(Next(u, Finish, now), TxTurn, now), Next(Next(u, TxTurn, now), Finish, now);
            && behind.c.session.txQ == t.c.session.txQ + [Frame(id, 0, 2, "", []), Frame(id, n, 0, "", t.c.queue[0])]
            && before.c.session.txQ == t.c.session.txQ + [Frame(id, n, 0, "", t.c.queue[0]), Frame(id, 0, 2, "", [])]
            && !behind.c.looping && !before.c.looping
            && behind.c.session.txEvent && behind.c.session.rxEvent
            && before.c.session.txEvent && before.c.session.rxEvent
            && behind.c.session.lastActivity == before.c.session.lastActivity == now
  {
    var q, fin := t.c.session.txQ, FinFrame(t.c.session.id);
    var f := DataFrame(t.c.session.id, t.c.session.seqno, t.c.queue[0]);
    assert q + [fin] + [f] == q + [fin, f] && q + [f] + [fin] == q + [f, fin];
  }
}
