/**
 * What the drain passes put on the wire for one connection: whether every frame goes out once and
 * in order, and what a pass that cuts the snapshot does to that.
 */
module Sending {
  import opened Octets
  import opened Frames
  import opened Chunks
  import opened Sessions
  import opened VirtualConns
  import Carrier
  import opened Targets

  // ----- the frames queued -----

  /** Everything queued so far: the SYN, the data of the first k chunks taken, and behind the FIN the rest. */
  ghost predicate Shape(t: Trace, syn: Frame, k: nat) {
    var id, data := t.c.session.id, DataFrames(t.c.session.id, t.taken);
    && |t.taken| - 1 <= k <= |t.taken|
    && syn == SynFrame(id, syn.target)
    && (t.c.looping || !t.c.finished ==> k == |t.taken|)
    && (!t.c.closed ==> t.c.looping && !t.c.finished)
    && t.log == [syn] + data[..k] + (if t.c.finished then [FinFrame(id)] + data[k..] else [])
  }

  lemma BeginShape(id: Bytes, host: string, port: nat, start: real)
    ensures Shape(Begin(id, host, port, start), SynFrame(id, TargetOf(host, port)), 0)
  {
    hide TargetOf;
    var syn := SynFrame(id, TargetOf(host, port));
    assert [syn] + [] + [] == [syn];
  }

  lemma TurnShape(t: Trace, syn: Frame, k: nat, now: real)
    requires Kept(t.c.session.id, t) && Shape(t, syn, k) && t.c.looping && t.c.queue != []
    ensures Shape(Next(t, TxTurn, now), syn, if t.c.finished then k else k + 1)
  {
    hide Data, SynFrame;
    var id, n, x := t.c.session.id, |t.taken|, t.c.queue[0];
    DataFramesSnoc(id, t.taken, x);
    var data, more := DataFrames(id, t.taken), DataFrames(id, t.taken + [x]);
    assert more[..n] == data == data[..n] && more[n..] == [DataFrame(id, n, x)] && data[n..] == [];
    assert more[..n + 1] == more;
    var u := Next(t, TxTurn, now);
    assert u.log == t.log + [DataFrame(id, n, x)] && u.taken == t.taken + [x];
    if t.c.finished {
      assert [FinFrame(id)] + [] + [DataFrame(id, n, x)] == [FinFrame(id)] + [DataFrame(id, n, x)];
      assert u.log == [syn] + data[..n] + ([FinFrame(id)] + more[n..]);
    } else {
      assert u.log == [syn] + (data + [DataFrame(id, n, x)]) + [];
    }
  }

  lemma FinishShape(t: Trace, syn: Frame, k: nat, now: real)
    requires Shape(t, syn, k) && t.c.closed && !t.c.finished
    ensures Shape(Next(t, Finish, now), syn, k)
  {
    var id := t.c.session.id;
    assert t.log + [FinFrame(id)] == [syn] + DataFrames(id, t.taken)[..k] + ([FinFrame(id)] + []);
  }

  lemma NextShape(t: Trace, syn: Frame, k: nat, step: Step, now: real) returns (k': nat)
    requires Kept(t.c.session.id, t) && Shape(t, syn, k)
    requires step.Visit? ==> step.total <= Carrier.MAX_FRAME_PAYLOAD
    ensures Shape(Next(t, step, now), syn, k')
  {
    hide Data, SynFrame, DataFrames, Carrier.Visited, Carrier.Taken;
    k' := k;
    match step
    case TxTurn =>
      if t.c.looping && t.c.queue != [] {
        TurnShape(t, syn, k, now);
        k' := if t.c.finished then k else k + 1;
      }
    case Finish =>
      if t.c.closed && !t.c.finished {
        FinishShape(t, syn, k, now);
      }
    case Visit(n, total) =>
      VisitKeepsIdentity(t.c.session, n, total, now);
    case Write(data) =>
    case Admit(i) =>
    case Close =>
  }

  /** Where the frames of the log come from. */
  lemma LogAt(t: Trace, syn: Frame, k: nat, i: nat)
    requires Shape(t, syn, k)
    requires i == 0 || i < |t.log|
    ensures i < |t.log| && syn.flags == SYN
    ensures i == 0 ==> t.log[i] == syn
    ensures 0 < i <= k ==> t.log[i] == DataFrame(t.c.session.id, i - 1, t.taken[i - 1])
    ensures i == k + 1 ==> t.c.finished && t.log[i] == FinFrame(t.c.session.id)
    ensures i > k + 1 ==> i == k + 2 && t.log[i] == DataFrame(t.c.session.id, k, t.taken[k])
  {
  }

  /** No frame is queued twice. */
  lemma LogDistinct(t: Trace, syn: Frame, k: nat)
    requires Shape(t, syn, k)
    ensures Distinct(t.log) && t.log[0] == syn
  {
    hide Shape, DataFrames;
    forall i, j | 0 <= i < j < |t.log|
      ensures t.log[i] != t.log[j]
    {
      LogAt(t, syn, k, i);
      LogAt(t, syn, k, j);
    }
    LogAt(t, syn, k, 0);
  }

  lemma FlagsOfFrames(id: Bytes, target: string, f: Frame)
    requires f.flags == 0 || f == FinFrame(id)
    ensures !f.Has(SYN) && !f.Has(RST) && !f.Has(ACK)
    ensures f.Has(FIN) <==> f == FinFrame(id)
    ensures var syn := SynFrame(id, target); syn.Has(SYN) && !syn.Has(RST) && !syn.Has(FIN)
  {
  }

  // ----- whether a pass cuts -----

  /** No pass of the run cuts the session's snapshot after its first frame. */
  ghost predicate NeverCutInside(t: Trace, run: seq<(Step, real)>) {
    run == [] ||
    (var u, step := After(t, run[..|run| - 1]), run[|run| - 1].0;
     && NeverCutInside(t, run[..|run| - 1])
     && (step.Visit? ==> !Carrier.CutInside(u.c.session, step.maxFrames, step.total)))
  }

  /** Frames sent and frames queued are the frames ever queued, or more than those. */
  ghost predicate Sent(t: Trace, exact: bool) {
    if exact then t.wire + t.c.session.txQ == t.log
    else |t.wire| + |t.c.session.txQ| > |t.log|
  }

  lemma NextSent(id: Bytes, t: Trace, exact: bool, step: Step, now: real)
    requires Sent(t, exact)
    requires step.Visit? ==> step.total <= Carrier.MAX_FRAME_PAYLOAD
    ensures Sent(Next(t, step, now),
                 exact && !(step.Visit? && Carrier.CutInside(t.c.session, step.maxFrames, step.total)))
  {
    hide Carrier.Visited, Carrier.Taken, Carrier.CutInside, Carrier.SizeSum;
    var s := t.c.session;
    match step
    case Write(data) =>
    case Admit(k) =>
    case TxTurn =>
      if t.c.looping && t.c.queue != [] {
        var f := DataFrame(s.id, s.seqno, t.c.queue[0]);
        assert t.wire + (s.txQ + [f]) == t.wire + s.txQ + [f];
      }
    case Close =>
    case Finish =>
      assert t.wire + (s.txQ + [FinFrame(s.id)]) == t.wire + s.txQ + [FinFrame(s.id)];
    case Visit(n, total) =>
      var x, q := Carrier.Taken(s, n, total), Carrier.Visited(s, n, total, now).txQ;
      VisitSends(s, n, total, now);
      assert t.wire + x + q == t.wire + (x + q);
  }

  lemma VisitSends(s: SessionState, n: nat, total: nat, now: real)
    requires total <= Carrier.MAX_FRAME_PAYLOAD
    ensures var x, q := Carrier.Taken(s, n, total), Carrier.Visited(s, n, total, now).txQ;
            && |x| + |q| >= |s.txQ|
            && if Carrier.CutInside(s, n, total) then |x| + |q| > |s.txQ| else x + q == s.txQ
  {
    hide Carrier.Visited, Carrier.Taken, Carrier.CutInside, Carrier.SizeSum;
    Carrier.VisitEffect(s, n, total, now);
    var x, q := Carrier.Taken(s, n, total), Carrier.Visited(s, n, total, now).txQ;
    assert |x + q| == |x| + |q|;
    assert [] + q == q;
  }

  lemma {:induction false} SentOverRuns(id: Bytes, t: Trace, run: seq<(Step, real)>)
    requires Sent(t, true) && WithinBudget(run)
    ensures Sent(After(t, run), NeverCutInside(t, run))
  {
    hide Next, Sent, Carrier.CutInside;
    if run != [] {
      SentOverRuns(id, t, run[..|run| - 1]);
      NextSent(id, After(t, run[..|run| - 1]), NeverCutInside(t, run[..|run| - 1]), run[|run| - 1].0, run[|run| - 1].1);
    }
  }

  /** Frames sent and frames still queued are together the frames ever queued exactly if no pass cut inside. */
  lemma WireIffNeverCut(id: Bytes, host: string, port: nat, start: real, run: seq<(Step, real)>)
    requires WithinBudget(run)
    ensures var b := Begin(id, host, port, start);
            var t := After(b, run);
            NeverCutInside(b, run) <==> t.wire + t.c.session.txQ == t.log
  {
    var b := Begin(id, host, port, start);
    var syn := SynFrame(id, TargetOf(host, port));
    assert [] + [syn] == [syn];
    SentOverRuns(id, b, run);
    var t := After(b, run);
    assert |t.wire + t.c.session.txQ| == |t.wire| + |t.c.session.txQ|;
  }

  // ----- whether a frame is sent again -----

  /** Once a pass has cut the snapshot inside, no later pass takes a frame. */
  ghost predicate NeverResent(t: Trace, run: seq<(Step, real)>) {
    run == [] ||
    (var u, step := After(t, run[..|run| - 1]), run[|run| - 1].0;
     && NeverResent(t, run[..|run| - 1])
     && (step.Visit? && Carrier.Taken(u.c.session, step.maxFrames, step.total) != [] ==>
           NeverCutInside(t, run[..|run| - 1])))
  }

  /** Of the frames still queued, the first n are on the wire, and nothing else was sent twice. */
  ghost predicate CutAt(t: Trace, n: nat) {
    0 < n < |t.c.session.txQ| && t.wire == t.gone + t.c.session.txQ[..n]
  }

  /** Some frame on the wire is not the one queued in its place. */
  ghost predicate Astray(t: Trace) {
    exists d | 0 <= d < |t.wire| && d < |t.log| :: t.wire[d] != t.log[d]
  }

  ghost predicate Status(t: Trace, cut: bool, resent: bool) {
    if !cut then !resent && t.wire == t.gone
    else if !resent then exists n: nat :: CutAt(t, n)
    else Astray(t)
  }

  /** What one visit takes, and what leaves the queue for good. */
  lemma VisitTakes(s: SessionState, n: nat, total: nat, now: real)
    requires total <= Carrier.MAX_FRAME_PAYLOAD
    ensures var x, y, q := Carrier.Taken(s, n, total), Left(s, n, total), Carrier.Visited(s, n, total, now).txQ;
            && x <= s.txQ && y + q == s.txQ
            && (x == [] ==> y == [] && q == s.txQ)
            && if Carrier.CutInside(s, n, total) then x != [] && |x| < |s.txQ| && y == [] && q == s.txQ else y == x
  {
    hide Carrier.Visited, Carrier.Taken, Carrier.CutInside, Carrier.SizeSum;
    Carrier.VisitEffect(s, n, total, now);
    VisitSends(s, n, total, now);
    LeftAndQueue(s, n, total, now);
  }

  /** The other steps put nothing on the wire and add to the end of the queue. */
  lemma OtherSteps(t: Trace, step: Step, now: real)
    requires !step.Visit?
    ensures var u := Next(t, step, now);
            && u.wire == t.wire && u.gone == t.gone
            && t.c.session.txQ <= u.c.session.txQ && t.log <= u.log
  {
  }

  lemma FirstCut(t: Trace, n: nat, total: nat, now: real)
    requires total <= Carrier.MAX_FRAME_PAYLOAD && t.wire == t.gone
    ensures var s, u := t.c.session, Next(t, Visit(n, total), now);
            if Carrier.CutInside(s, n, total) then CutAt(u, |Carrier.Taken(s, n, total)|) else u.wire == u.gone
  {
    hide Carrier.Visited, Carrier.Taken, Carrier.CutInside, Left;
    var x := Carrier.Taken(t.c.session, n, total);
    VisitTakes(t.c.session, n, total, now);
    assert x == t.c.session.txQ[..|x|];
    assert t.gone + [] == t.gone;
  }

  lemma AfterCut(t: Trace, m: nat, n: nat, total: nat, now: real)
    requires total <= Carrier.MAX_FRAME_PAYLOAD && CutAt(t, m)
    requires t.log == t.gone + t.c.session.txQ && Distinct(t.log)
    ensures var s, u := t.c.session, Next(t, Visit(n, total), now);
            if Carrier.Taken(s, n, total) == [] then CutAt(u, m) else Astray(u)
  {
    hide Carrier.Visited, Carrier.Taken, Carrier.CutInside, Left;
    var q, u, d := t.c.session.txQ, Next(t, Visit(n, total), now), |t.gone| + m;
    var x := Carrier.Taken(t.c.session, n, total);
    VisitTakes(t.c.session, n, total, now);
    if x == [] {
      assert t.gone + [] == t.gone && t.wire + [] == t.wire;
    } else {
      assert x[0] == q[0] == t.log[|t.gone|] && t.log[d] == q[m];
      assert |t.wire| == d && u.wire[d] == x[0];
      assert u.wire[d] != u.log[d];
    }
  }

  lemma StaysAstray(t: Trace, u: Trace)
    requires Astray(t) && t.wire <= u.wire && t.log <= u.log
    ensures Astray(u)
  {
    var d :| 0 <= d < |t.wire| && d < |t.log| && t.wire[d] != t.log[d];
    assert u.wire[d] != u.log[d];
  }

  lemma StatusVisit(t: Trace, syn: Frame, k: nat, cut: bool, resent: bool, n: nat, total: nat, now: real)
    requires Kept(t.c.session.id, t) && Shape(t, syn, k) && Status(t, cut, resent)
    requires total <= Carrier.MAX_FRAME_PAYLOAD
    ensures var s := t.c.session;
            Status(Next(t, Visit(n, total), now), cut || Carrier.CutInside(s, n, total),
                   resent || (cut && Carrier.Taken(s, n, total) != []))
  {
    LogDistinct(t, syn, k);
    hide Carrier.Visited, Carrier.Taken, Carrier.CutInside, Left, Shape, Data, DataFrames, CutAt, Astray, Distinct;
    if resent {
      StaysAstray(t, Next(t, Visit(n, total), now));
    } else if !cut {
      FirstCut(t, n, total, now);
    } else {
      var m: nat :| CutAt(t, m);
      AfterCut(t, m, n, total, now);
    }
  }

  lemma StatusOther(t: Trace, cut: bool, resent: bool, step: Step, now: real)
    requires Status(t, cut, resent) && !step.Visit?
    ensures Status(Next(t, step, now), cut, resent)
  {
    var u := Next(t, step, now);
    OtherSteps(t, step, now);
    hide Next;
    if resent {
      StaysAstray(t, u);
    } else if cut {
      var m: nat :| CutAt(t, m);
      assert u.c.session.txQ[..m] == t.c.session.txQ[..m];
      assert CutAt(u, m);
    }
  }

  lemma {:induction false} TraceOverRuns(id: Bytes, host: string, port: nat, start: real, run: seq<(Step, real)>)
    returns (k: nat)
    requires WithinBudget(run)
    ensures var t := After(Begin(id, host, port, start), run);
            Kept(id, t) && Shape(t, SynFrame(id, TargetOf(host, port)), k)
  {
    hide Shape, Begin, Next, Kept, SynFrame;
    var b, syn := Begin(id, host, port, start), SynFrame(id, TargetOf(host, port));
    if run == [] {
      BeginKept(id, host, port, start);
      BeginShape(id, host, port, start);
      k := 0;
    } else {
      k := TraceOverRuns(id, host, port, start, run[..|run| - 1]);
      var t := After(b, run[..|run| - 1]);
      var (step, now) := run[|run| - 1];
      SameId(id, t);
      NextKept(id, t, step, now);
      k := NextShape(t, syn, k, step, now);
    }
  }

  lemma SameId(id: Bytes, t: Trace)
    requires Kept(id, t)
    ensures t.c.session.id == id
  {
  }

  lemma {:induction false} StatusOverRuns(id: Bytes, host: string, port: nat, start: real, run: seq<(Step, real)>)
    requires WithinBudget(run)
    ensures var b := Begin(id, host, port, start);
            Status(After(b, run), !NeverCutInside(b, run), !NeverResent(b, run))
  {
    hide Shape, Begin, Next, Kept, SynFrame, Status, Carrier.CutInside, Carrier.Taken;
    var b, syn := Begin(id, host, port, start), SynFrame(id, TargetOf(host, port));
    if run == [] {
      BeginStatus(id, host, port, start);
    } else {
      var init := run[..|run| - 1];
      var t := After(b, init);
      var (step, now) := run[|run| - 1];
      StatusOverRuns(id, host, port, start, init);
      if step.Visit? {
        var k := TraceOverRuns(id, host, port, start, init);
        SameId(id, t);
        StatusVisit(t, syn, k, !NeverCutInside(b, init), !NeverResent(b, init), step.maxFrames, step.total, now);
      } else {
        StatusOther(t, !NeverCutInside(b, init), !NeverResent(b, init), step, now);
      }
    }
  }

  lemma BeginStatus(id: Bytes, host: string, port: nat, start: real)
    ensures Status(Begin(id, host, port, start), false, false)
  {
  }

  /**
   * The batches carry the frames queued once each and in order exactly if no pass takes a frame once
   * a pass before it has cut the session's snapshot after its first frame.
   */
  lemma SentOnceIff(id: Bytes, host: string, port: nat, start: real, run: seq<(Step, real)>)
    requires WithinBudget(run)
    ensures var b := Begin(id, host, port, start);
            NeverResent(b, run) <==> After(b, run).wire <= After(b, run).log
  {
    hide Shape, Begin, After, NeverResent, NeverCutInside, SynFrame;
    var b := Begin(id, host, port, start);
    var t := After(b, run);
    var k := TraceOverRuns(id, host, port, start, run);
    StatusOverRuns(id, host, port, start, run);
    if NeverResent(b, run) && !NeverCutInside(b, run) {
      var n: nat :| CutAt(t, n);
      assert t.log == t.wire + t.c.session.txQ[n..];
    }
  }

  // ----- which frames are sent again -----

  /** The frames but for SYNs: those a session receives. */
  function PastSyn(fs: seq<Frame>): seq<Frame> {
    if fs == [] then []
    else PastSyn(fs[..|fs| - 1]) + if fs[|fs| - 1].Has(SYN) then [] else [fs[|fs| - 1]]
  }

  lemma {:induction false} PastSynAppend(a: seq<Frame>, b: seq<Frame>)
    ensures PastSyn(a + b) == PastSyn(a) + PastSyn(b)
  {
    hide Frame.Has;
    if b == [] {
      assert a + b == a;
    } else {
      assert (a + b)[..|a + b| - 1] == a + b[..|b| - 1];
      PastSynAppend(a, b[..|b| - 1]);
    }
  }

  lemma PastSynPrefix(a: seq<Frame>, b: seq<Frame>)
    requires a <= b
    ensures PastSyn(a) <= PastSyn(b)
  {
    hide PastSyn;
    assert b == a + b[|a|..];
    PastSynAppend(a, b[|a|..]);
  }

  lemma {:induction false} PastSynOfOthers(fs: seq<Frame>)
    requires forall i | 0 <= i < |fs| :: !fs[i].Has(SYN)
    ensures PastSyn(fs) == fs
  {
    hide Frame.Has;
    if fs != [] {
      PastSynOfOthers(fs[..|fs| - 1]);
    }
  }

  lemma {:induction false} InPastSyn(fs: seq<Frame>, f: Frame)
    ensures f in PastSyn(fs) <==> f in fs && !f.Has(SYN)
  {
    hide Frame.Has;
    if fs != [] {
      InPastSyn(fs[..|fs| - 1], f);
      assert fs == fs[..|fs| - 1] + [fs[|fs| - 1]];
    }
  }

  /** No frame but a SYN is listed twice. */
  predicate OnlySynTwice(fs: seq<Frame>) {
    forall i, j | 0 <= i < j < |fs| :: fs[i] == fs[j] ==> fs[i].Has(SYN)
  }

  lemma {:induction false} OnlySynTwiceIff(fs: seq<Frame>)
    ensures OnlySynTwice(fs) <==> Distinct(PastSyn(fs))
  {
    hide Frame.Has;
    if fs != [] {
      var init, f := fs[..|fs| - 1], fs[|fs| - 1];
      OnlySynTwiceIff(init);
      InPastSyn(init, f);
      DistinctSnoc(PastSyn(init), f);
      hide PastSyn, Distinct;
      if OnlySynTwice(init) && (f.Has(SYN) || f !in init) {
        assert OnlySynTwice(fs);
      } else if f in init && !f.Has(SYN) {
        var i :| 0 <= i < |init| && init[i] == f;
        assert fs[i] == fs[|fs| - 1];
      }
    }
  }

  lemma DistinctSnoc(fs: seq<Frame>, f: Frame)
    ensures Distinct(fs + [f]) <==> Distinct(fs) && f !in fs
    ensures Distinct(fs + []) <==> Distinct(fs)
  {
    assert fs + [] == fs;
    if Distinct(fs + [f]) {
      assert forall i | 0 <= i < |fs| :: (fs + [f])[i] == fs[i] && fs[i] != (fs + [f])[|fs|];
    }
  }

  /**
   * Up to p the frames on the wire are those queued, SYNs aside; the next, if there is one, is on
   * the wire already.
   */
  ghost predicate Ahead(t: Trace, p: nat) {
    var w, l := PastSyn(t.wire), PastSyn(t.log);
    && p <= |w| && p <= |l| && w[..p] == l[..p]
    && if p < |w| then w[p] in w[..p] else |PastSyn(t.gone)| <= p
  }

  /** Every frame on the wire was queued, and the first is the first. */
  ghost predicate FromLog(t: Trace) {
    && (forall i | 0 <= i < |t.wire| :: t.wire[i] in t.log)
    && (if t.wire == [] then t.gone == [] else t.log != [] && t.wire[0] == t.log[0])
  }

  ghost predicate Tracked(t: Trace) {
    FromLog(t) && exists p: nat :: Ahead(t, p)
  }

  /** One visit: g frames had left, w are on the wire, the queue holds q and the batch gets y of it. */
  lemma AheadStep(l: seq<Frame>, g: nat, w: seq<Frame>, y: seq<Frame>, p: nat) returns (p': nat)
    requires p <= |w| && p <= |l| && w[..p] == l[..p] && (if p < |w| then w[p] in w[..p] else g <= p)
    requires g + |y| <= |l| && y == l[g..g + |y|]
    ensures p' <= |w + y| && p' <= |l| && (w + y)[..p'] == l[..p']
    ensures if p' < |w + y| then (w + y)[p'] in (w + y)[..p'] else g + |y| <= p'
  {
    p' := p;
    if p == |w| && y != [] {
      if g == p {
        p' := p + |y|;
        assert w + y == l[..p'];
      } else {
        assert (w + y)[p] == y[0] == l[g] == w[g];
        assert (w + y)[..p] == w;
      }
    } else {
      assert (w + y)[..p] == w[..p];
    }
  }

  lemma VisitAhead(t: Trace, p: nat, n: nat, total: nat, now: real) returns (p': nat)
    requires t.log == t.gone + t.c.session.txQ && total <= Carrier.MAX_FRAME_PAYLOAD && Ahead(t, p)
    ensures Ahead(Next(t, Visit(n, total), now), p')
  {
    hide Carrier.Visited, Carrier.Taken, Carrier.CutInside, Left, PastSyn;
    var s, u := t.c.session, Next(t, Visit(n, total), now);
    var x, y := Carrier.Taken(s, n, total), Left(s, n, total);
    VisitTakes(s, n, total, now);
    var l, g := PastSyn(t.log), |PastSyn(t.gone)|;
    PastSynAppend(t.gone, s.txQ);
    PastSynPrefix(x, s.txQ);
    PastSynAppend(t.wire, x);
    PastSynAppend(t.gone, y);
    PastSynPrefix(y, x);
    p' := AheadStep(l, g, PastSyn(t.wire), PastSyn(x), p);
  }

  lemma VisitFromLog(t: Trace, n: nat, total: nat, now: real)
    requires t.log == t.gone + t.c.session.txQ && total <= Carrier.MAX_FRAME_PAYLOAD && FromLog(t)
    ensures FromLog(Next(t, Visit(n, total), now))
  {
    hide Carrier.Visited, Carrier.Taken, Carrier.CutInside, Left;
    var s, u := t.c.session, Next(t, Visit(n, total), now);
    var x := Carrier.Taken(s, n, total);
    VisitTakes(s, n, total, now);
    OnlyFromLog(t.wire, x, s.txQ, t.gone);
    assert t.wire == [] && x != [] ==> x[0] == s.txQ[0] && t.log == s.txQ;
  }

  lemma OnlyFromLog(wire: seq<Frame>, x: seq<Frame>, q: seq<Frame>, gone: seq<Frame>)
    requires x <= q && forall i | 0 <= i < |wire| :: wire[i] in gone + q
    ensures forall i | 0 <= i < |wire + x| :: (wire + x)[i] in gone + q
  {
    forall i | 0 <= i < |wire + x|
      ensures (wire + x)[i] in gone + q
    {
      if i >= |wire| {
        assert (wire + x)[i] == x[i - |wire|] == q[i - |wire|] == (gone + q)[|gone| + i - |wire|];
      }
    }
  }

  lemma NextTracked(t: Trace, step: Step, now: real)
    requires Kept(t.c.session.id, t) && Tracked(t)
    requires step.Visit? ==> step.total <= Carrier.MAX_FRAME_PAYLOAD
    ensures Tracked(Next(t, step, now))
  {
    hide Next, PastSyn, Data, DataFrames;
    var p: nat :| Ahead(t, p);
    var u := Next(t, step, now);
    if step.Visit? {
      VisitFromLog(t, step.maxFrames, step.total, now);
      var p' := VisitAhead(t, p, step.maxFrames, step.total, now);
      hide Ahead, FromLog;
    } else {
      OtherSteps(t, step, now);
      PastSynPrefix(t.log, u.log);
      assert Ahead(u, p);
    }
  }

  lemma {:induction false} TrackedOverRuns(id: Bytes, host: string, port: nat, start: real, run: seq<(Step, real)>)
    requires WithinBudget(run)
    ensures Tracked(After(Begin(id, host, port, start), run))
  {
    hide Shape, Begin, Next, Kept, SynFrame, Tracked;
    var b := Begin(id, host, port, start);
    if run == [] {
      BeginTracked(id, host, port, start);
    } else {
      var t := After(b, run[..|run| - 1]);
      var (step, now) := run[|run| - 1];
      TrackedOverRuns(id, host, port, start, run[..|run| - 1]);
      var k := TraceOverRuns(id, host, port, start, run[..|run| - 1]);
      SameId(id, t);
      NextTracked(t, step, now);
    }
  }

  lemma BeginTracked(id: Bytes, host: string, port: nat, start: real)
    ensures Tracked(Begin(id, host, port, start))
  {
    assert Ahead(Begin(id, host, port, start), 0);
  }

  /** SYNs aside, the first a frames on the wire are the first ones queued exactly if none is there twice. */
  lemma PrefixIffDistinct(t: Trace, syn: Frame, k: nat, a: nat)
    requires Shape(t, syn, k) && Tracked(t) && a <= |t.wire|
    ensures t.log != [] && (PastSyn(t.wire[..a]) <= t.log[1..] <==> OnlySynTwice(t.wire[..a]))
  {
    LogDistinct(t, syn, k);
    PastSynOfLog(t, syn, k);
    OnlySynTwiceIff(t.wire[..a]);
    PastSynPrefix(t.wire[..a], t.wire);
    assert Distinct(t.log[1..]);
    hide Shape, FromLog, PastSyn, OnlySynTwice, Frame.Has, Distinct;
    var p: nat :| Ahead(t, p);
    PrefixOrTwice(PastSyn(t.wire), t.log[1..], p, PastSyn(t.wire[..a]));
  }

  lemma PrefixOrTwice(w: seq<Frame>, l: seq<Frame>, p: nat, x: seq<Frame>)
    requires p <= |w| && p <= |l| && w[..p] == l[..p] && (p < |w| ==> w[p] in w[..p])
    requires x <= w && Distinct(l)
    ensures x <= l <==> Distinct(x)
  {
    if |x| > p {
      var i :| 0 <= i < p && w[i] == w[p];
      assert x[i] == x[p];
    } else {
      assert x == w[..p][..|x|] == l[..|x|];
    }
  }

  lemma PastSynOfLog(t: Trace, syn: Frame, k: nat)
    requires Shape(t, syn, k)
    ensures |t.log| > 0 && PastSyn(t.log) == t.log[1..]
    ensures forall i | 1 <= i < |t.log| :: t.log[i].flags == 0 || t.log[i] == FinFrame(t.c.session.id)
  {
    LogAt(t, syn, k, 0);
    forall i | 1 <= i < |t.log|
      ensures !t.log[i].Has(SYN) && (t.log[i].flags == 0 || t.log[i] == FinFrame(t.c.session.id))
    {
      LogAt(t, syn, k, i);
      FlagsOfFrames(t.c.session.id, "", t.log[i]);
    }
    assert syn == SynFrame(t.c.session.id, syn.target);
    FlagsOfFrames(t.c.session.id, syn.target, FinFrame(t.c.session.id));
    hide Shape, Frame.Has;
    assert t.log == [syn] + t.log[1..];
    PastSynAppend([syn], t.log[1..]);
    PastSynOfOthers(t.log[1..]);
  }

  // ----- a SYN that is sent for ever -----

  /** The passes of a run that have room for f when they reach the session. */
  function Passes(run: seq<(Step, real)>, f: Frame): nat {
    if run == [] then 0
    else
      var step := run[|run| - 1].0;
      Passes(run[..|run| - 1], f)
      + if step.Visit? && step.total + f.EncodedLen() <= Carrier.MAX_FRAME_PAYLOAD then 1 else 0
  }

  /** The first two frames queued do not fit a batch together, and f is the first. */
  ghost predicate Stuck(t: Trace, f: Frame) {
    Carrier.Blocked(t.c.session.txQ, 2) && t.c.session.txQ[0] == f
  }

  lemma StuckVisit(t: Trace, f: Frame, n: nat, total: nat, now: real)
    requires Stuck(t, f) && n >= 2 && total <= Carrier.MAX_FRAME_PAYLOAD
    ensures var u := Next(t, Visit(n, total), now);
            && Stuck(u, f)
            && u.wire == t.wire + if total + f.EncodedLen() <= Carrier.MAX_FRAME_PAYLOAD then [f] else []
  {
    hide Carrier.Visited, Frame.EncodedLen, Carrier.SizeSum, Left;
    var s := t.c.session;
    var snap := Drained(s, n);
    Carrier.BlockedVisit(s, 2, n, total, now);
    Carrier.FitIsLongestPrefix(snap, total, |snap|);
    Carrier.FirstFits(snap, total, |snap|);
    var m := Carrier.Fit(snap, total, |snap|);
    if m >= 2 {
      assert snap[..m] == s.txQ[..2] + snap[2..m];
      Carrier.SizeSumAppend(s.txQ[..2], snap[2..m]);
    }
  }

  lemma StuckOther(t: Trace, f: Frame, step: Step, now: real)
    requires Stuck(t, f) && !step.Visit?
    ensures Stuck(Next(t, step, now), f) && Next(t, step, now).wire == t.wire
  {
    hide Carrier.SizeSum;
    OtherSteps(t, step, now);
    hide Next;
    var q, q' := t.c.session.txQ, Next(t, step, now).c.session.txQ;
    assert q'[..2] == q[..2];
  }

  /**
   * Then every pass with room for the first frame sends it, again and again, and nothing else of the
   * connection ever goes out, whatever is queued behind.
   */
  lemma {:induction false} SentForEver(t: Trace, f: Frame, run: seq<(Step, real)>)
    requires Stuck(t, f) && WithinBudget(run)
    requires forall i | 0 <= i < |run| && run[i].0.Visit? :: run[i].0.maxFrames >= 2
    ensures Stuck(After(t, run), f)
    ensures After(t, run).wire == t.wire + seq(Passes(run, f), _ => f)
  {
    hide Next, Stuck, Frame.EncodedLen;
    if run == [] {
      assert t.wire + [] == t.wire;
    } else {
      var u := After(t, run[..|run| - 1]);
      var (step, now) := run[|run| - 1];
      var m := Passes(run[..|run| - 1], f);
      SentForEver(t, f, run[..|run| - 1]);
      assert t.wire + seq(m, _ => f) + [f] == t.wire + seq(m + 1, _ => f);
      assert t.wire + seq(m, _ => f) + [] == t.wire + seq(m, _ => f);
      if step.Visit? {
        StuckVisit(u, f, step.maxFrames, step.total, now);
      } else {
        StuckOther(u, f, step, now);
      }
    }
  }

  /** A first chunk that does not fit a batch beside the SYN is enough. */
  lemma StuckBehindSyn(id: Bytes, host: string, port: nat, start: real, data: Bytes, now: real)
    requires SynFrame(id, TargetOf(host, port)).EncodedLen() + HEADER_LEN + |data| > Carrier.MAX_FRAME_PAYLOAD
    ensures var b, syn := Begin(id, host, port, start), SynFrame(id, TargetOf(host, port));
            var t := After(b, [(Write(data), now), (TxTurn, now)]);
            t.wire == [] && Stuck(t, syn) && t.c.session.txQ == [syn, DataFrame(id, 0, data)]
  {
    hide TargetOf, Frame.EncodedLen;
    var b, syn, f := Begin(id, host, port, start), SynFrame(id, TargetOf(host, port)), DataFrame(id, 0, data);
    var run := [(Write(data), now), (TxTurn, now)];
    assert run[..1] == [(Write(data), now)] && run[..1][..0] == [];
    var t := Next(Next(b, Write(data), now), TxTurn, now);
    assert After(b, run[..1]) == Next(b, Write(data), now);
    assert t.c.session.txQ == [] + [syn] + [f] == [syn, f];
    assert [syn, f][..2] == [syn] + [f];
    DataLength(id, 0, data);
    Carrier.SizeOne(syn);
    Carrier.SizeOne(f);
    Carrier.SizeSumAppend([syn], [f]);
  }

  lemma DataLength(id: Bytes, n: nat, data: Bytes)
    ensures DataFrame(id, n, data).EncodedLen() == HEADER_LEN + |data|
  {
  }
}
