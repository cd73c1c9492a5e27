/** `EndpointState` and what changes it: polls, the health loop, revivals, the watchdog. */
module Endpoints {

  const MAX_CONSECUTIVE_FAILURES := 5
  const BACKOFF_BASE: real := 3.0
  const BACKOFF_MAX: real := 3600.0
  const BATCH_SIZE_MIN := 1
  const BATCH_SIZE_MAX := 64
  const BATCH_SIZE_DEFAULT := 8
  const RTT_WINDOW := 20
  const QUALITY_MIN_SAMPLES := 3

  // ----- the median -----

  function Insert(x: real, xs: seq<real>): seq<real> {
    if xs == [] || x <= xs[0] then [x] + xs else [xs[0]] + Insert(x, xs[1..])
  }

  function Sort(xs: seq<real>): (ys: seq<real>)
    ensures |ys| == |xs|
  {
    if xs == [] then [] else InsertLength(xs[0], Sort(xs[1..])); Insert(xs[0], Sort(xs[1..]))
  }

  lemma InsertLength(x: real, xs: seq<real>)
    ensures |Insert(x, xs)| == |xs| + 1
  {
  }

  /** `statistics.median` */
  function Median(xs: seq<real>): real
    requires xs != []
  {
    var ys, n := Sort(xs), |xs|;
    if n % 2 == 1 then ys[n / 2] else (ys[n / 2 - 1] + ys[n / 2]) / 2.0
  }

  predicate Ascending(xs: seq<real>) {
    forall i, j | 0 <= i < j < |xs| :: xs[i] <= xs[j]
  }

  predicate AllWithin(xs: seq<real>, lo: real, hi: real) {
    forall i | 0 <= i < |xs| :: lo <= xs[i] <= hi
  }

  lemma {:induction false} InsertWithin(x: real, xs: seq<real>, lo: real, hi: real)
    requires AllWithin(xs, lo, hi) && lo <= x <= hi
    ensures AllWithin(Insert(x, xs), lo, hi)
  {
    if xs != [] && x > xs[0] {
      InsertWithin(x, xs[1..], lo, hi);
    }
  }

  lemma {:induction false} InsertKeeps(x: real, xs: seq<real>)
    ensures multiset(Insert(x, xs)) == multiset(xs) + multiset{x}
  {
    if xs != [] && x > xs[0] {
      InsertKeeps(x, xs[1..]);
      assert xs == [xs[0]] + xs[1..];
    }
  }

  lemma {:induction false} InsertSorts(x: real, xs: seq<real>)
    requires Ascending(xs)
    ensures Ascending(Insert(x, xs))
  {
    if xs != [] && x > xs[0] {
      var hi := if x >= xs[|xs| - 1] then x else xs[|xs| - 1];
      InsertSorts(x, xs[1..]);
      InsertWithin(x, xs[1..], xs[0], hi);
      hide Insert;
    }
  }

  lemma {:induction false} SortSorts(xs: seq<real>)
    ensures Ascending(Sort(xs)) && multiset(Sort(xs)) == multiset(xs)
  {
    if xs != [] {
      SortSorts(xs[1..]);
      InsertSorts(xs[0], Sort(xs[1..]));
      InsertKeeps(xs[0], Sort(xs[1..]));
      assert xs == [xs[0]] + xs[1..];
    }
  }

  /** The median has half of the samples on either side, and the two innermost at equal distance. */
  lemma MedianSplits(xs: seq<real>)
    requires xs != []
    ensures var ys := Sort(xs);
            && multiset(ys) == multiset(xs)
            && (forall i | 0 <= i < (|xs| + 1) / 2 :: ys[i] <= Median(xs))
            && (forall i | |xs| / 2 <= i < |xs| :: Median(xs) <= ys[i])
            && Median(xs) - ys[(|xs| - 1) / 2] == ys[|xs| / 2] - Median(xs)
  {
    SortSorts(xs);
    hide Sort;
    var ys, n := Sort(xs), |xs|;
    var lo, hi := ys[(n + 1) / 2 - 1], ys[n / 2];
    assert lo <= Median(xs) <= hi;
    hide Median;
    forall i | 0 <= i < (n + 1) / 2
      ensures ys[i] <= Median(xs)
    {
      assert ys[i] <= lo;
    }
    forall i | n / 2 <= i < n
      ensures Median(xs) <= ys[i]
    {
      assert hi <= ys[i];
    }
  }

  /** It lies between any bounds of the samples. */
  lemma MedianWithin(xs: seq<real>, lo: real, hi: real)
    requires xs != [] && forall i | 0 <= i < |xs| :: lo <= xs[i] <= hi
    ensures lo <= Median(xs) <= hi
  {
    SortSorts(xs);
    var ys := Sort(xs);
    forall j | 0 <= j < |ys|
      ensures lo <= ys[j] <= hi
    {
      assert ys[j] in multiset(ys);
      assert ys[j] in xs;
    }
  }

  // ----- the endpoint -----

  datatype View = View(failures: nat, dead: bool, backoff: real, batchSize: nat,
                       samples: seq<real>, score: real, avg: real)

  const FRESH := View(0, false, BACKOFF_BASE, BATCH_SIZE_DEFAULT, [], 100.0, 0.0)

  function Larger(a: real, b: real): real {
    if a >= b then a else b
  }

  function Smaller(a: real, b: real): real {
    if a <= b then a else b
  }

  function MaxInt(a: int, b: int): int {
    if a >= b then a else b
  }

  function Window(xs: seq<real>): seq<real> {
    if |xs| <= RTT_WINDOW then xs else xs[|xs| - RTT_WINDOW..]
  }

  /** One sample is dropped from the front when there are more than twenty. */
  function Pushed(samples: seq<real>, rtt: real): seq<real> {
    if |samples| + 1 > RTT_WINDOW then (samples + [rtt])[1..] else samples + [rtt]
  }

  function Recorded(v: View, rtt: real): View {
    var samples := Pushed(v.samples, rtt);
    v.(samples := samples,
       score := if |samples| >= QUALITY_MIN_SAMPLES then Larger(10.0, 100.0 - Median(samples) / 10.0) else v.score,
       avg := 0.9 * v.avg + 0.1 * rtt)
  }

  /** What came back from a poll: HTTP 200 with a body that decodes, none, or one that does not; 302 or 429; else. */
  datatype Answer = Frames(n: nat) | NoBody | Undecodable | Throttled | Refused {
    predicate Succeeds() {
      Frames? || NoBody? || Undecodable?
    }
  }

  function Resized(batchSize: nat, n: nat): nat {
    if n > 0 && n as real >= batchSize as real * 0.8 then
      if batchSize + 2 <= BATCH_SIZE_MAX then batchSize + 2 else BATCH_SIZE_MAX
    else if n == 0 && batchSize > BATCH_SIZE_MIN then batchSize - 1
    else batchSize
  }

  function Polled(v: View, rtt: real, a: Answer): View {
    var r := Recorded(v, rtt);
    match a
    case Frames(n) => r.(failures := 0, batchSize := Resized(v.batchSize, n))
    case NoBody => r.(failures := 0)
    case Undecodable => r.(failures := 0)
    case Throttled => r.(failures := v.failures + 1)
    case Refused => r.(failures := v.failures + 1)
  }

  /** The health loop's visit, and whether it starts a revival. */
  function Checked(v: View): View {
    if v.failures >= MAX_CONSECUTIVE_FAILURES && !v.dead then v.(dead := true) else v
  }

  predicate StartsRevival(v: View) {
    v.failures >= MAX_CONSECUTIVE_FAILURES || v.dead
  }

  function Revived(v: View): View {
    v.(dead := false, failures := 0, backoff := Smaller(v.backoff * 2.0, BACKOFF_MAX))
  }

  function Alarmed(v: View): View {
    if v.dead then v else v.(failures := MAX_CONSECUTIVE_FAILURES)
  }

  class Endpoint {
    var consecutiveFailures: nat
    var isDead: bool
    var backoff: real
    var batchSize: nat
    var rttSamples: seq<real>
    var qualityScore: real
    var avgRtt: real

    constructor ()
      ensures Now() == FRESH
    {
      consecutiveFailures, isDead, backoff := 0, false, BACKOFF_BASE;
      batchSize, rttSamples := BATCH_SIZE_DEFAULT, [];
      qualityScore, avgRtt := 100.0, 0.0;
    }

    function Now(): View
      reads this
    {
      View(consecutiveFailures, isDead, backoff, batchSize, rttSamples, qualityScore, avgRtt)
    }

    /** `record_rtt` */
    method RecordRtt(rtt: real)
      modifies this
      ensures Now() == Recorded(old(Now()), rtt)
    {
      rttSamples := rttSamples + [rtt];
      if |rttSamples| > RTT_WINDOW {
        rttSamples := rttSamples[1..];
      }
      if |rttSamples| >= QUALITY_MIN_SAMPLES {
        var m := Median(rttSamples);
        qualityScore := Larger(10.0, 100.0 - m / 10.0);
      }
      avgRtt := 0.9 * avgRtt + 0.1 * rtt;
    }

    /**
     * What `_worker_loop` does with the answer to a poll.  Nothing catches the exception of a body
     * that does not decode, so it ends the worker, but only after the failures were forgotten.
     */
    method HandleAnswer(rtt: real, a: Answer) returns (goesOn: bool)
      modifies this
      ensures Now() == Polled(old(Now()), rtt, a)
      ensures goesOn <==> a != Undecodable
    {
      hide Median, Pushed;
      RecordRtt(rtt);
      goesOn := true;
      match a
      case Frames(n) =>
        consecutiveFailures := 0;
        if n > 0 && n as real >= batchSize as real * 0.8 {
          batchSize := if batchSize + 2 <= BATCH_SIZE_MAX then batchSize + 2 else BATCH_SIZE_MAX;
        } else if n == 0 && batchSize > BATCH_SIZE_MIN {
          batchSize := MaxInt(BATCH_SIZE_MIN, batchSize - 1);
        }
      case NoBody =>
        consecutiveFailures := 0;
      case Undecodable =>
        consecutiveFailures := 0;
        goesOn := false;
      case Throttled =>
        consecutiveFailures := consecutiveFailures + 1;
      case Refused =>
        consecutiveFailures := consecutiveFailures + 1;
    }

    /** `_revive_endpoint` once its sleep is over and the carrier still runs. */
    method Revive()
      modifies this
      ensures Now() == Revived(old(Now()))
    {
      isDead := false;
      consecutiveFailures := 0;
      backoff := Smaller(backoff * 2.0, BACKOFF_MAX);
    }
  }

  /** One round of `_health_loop`; `started` lists the endpoints given a revival. */
  method HealthRound(eps: seq<Endpoint>) returns (started: seq<nat>)
    requires forall i, j | 0 <= i < j < |eps| :: eps[i] != eps[j]
    modifies eps
    ensures forall i | 0 <= i < |eps| :: eps[i].Now() == Checked(old(eps[i].Now()))
    ensures forall i | 0 <= i < |eps| && old(eps[i].consecutiveFailures) < 5 :: eps[i].Now() == old(eps[i].Now())
    ensures forall i :: i in started <==> 0 <= i < |eps| && StartsRevival(old(eps[i].Now()))
    ensures forall i, j | 0 <= i < j < |started| :: started[i] < started[j]
  {
    started := [];
    for k := 0 to |eps|
      invariant forall i | 0 <= i < k :: eps[i].Now() == Checked(old(eps[i].Now()))
      invariant forall i | k <= i < |eps| :: eps[i].Now() == old(eps[i].Now())
      invariant forall i :: i in started <==> 0 <= i < k && StartsRevival(old(eps[i].Now()))
      invariant forall j | 0 <= j < |started| :: started[j] < k
      invariant forall i, j | 0 <= i < j < |started| :: started[i] < started[j]
    {
      var ep := eps[k];
      if ep.consecutiveFailures >= MAX_CONSECUTIVE_FAILURES && !ep.isDead {
        ep.isDead := true;
        started := started + [k];
      } else if ep.isDead {
        started := started + [k];
      }
    }
  }

  /** One round of `_watchdog_loop` that found the carrier idle for too long. */
  method WatchdogRound(eps: seq<Endpoint>)
    requires forall i, j | 0 <= i < j < |eps| :: eps[i] != eps[j]
    modifies eps
    ensures forall i | 0 <= i < |eps| :: eps[i].Now() == Alarmed(old(eps[i].Now()))
    ensures forall i | 0 <= i < |eps| && old(eps[i].isDead) :: eps[i].Now() == old(eps[i].Now())
  {
    for k := 0 to |eps|
      invariant forall i | 0 <= i < k :: eps[i].Now() == Alarmed(old(eps[i].Now()))
      invariant forall i | k <= i < |eps| :: eps[i].Now() == old(eps[i].Now())
    {
      if !eps[k].isDead {
        eps[k].consecutiveFailures := MAX_CONSECUTIVE_FAILURES;
      }
    }
  }

  // ----- every interleaving -----

  datatype Event = Answered(rtt: real, answer: Answer) | HealthTick | RevivalDone | Alarm

  /**
   * An endpoint with its pending revivals, and a record of its life: revivals completed,
   * deaths, health ticks that found it dead already, failed polls since the last success,
   * revival or alarm, and whether that was an alarm.
   */
  datatype Life = Life(v: View, pending: nat, revivals: nat, deaths: nat, redundant: nat, streak: nat, alarmed: bool)

  const BORN := Life(FRESH, 0, 0, 0, 0, 0, false)

  function Live(l: Life, e: Event): Life {
    match e
    case Answered(rtt, a) =>
      var v := Polled(l.v, rtt, a);
      if a.Succeeds() then l.(v := v, streak := 0, alarmed := false)
      else l.(v := v, streak := l.streak + 1)
    case HealthTick =>
      var m := l.(v := Checked(l.v));
      if StartsRevival(l.v) then
        m.(pending := l.pending + 1,
           deaths := l.deaths + (if l.v.dead then 0 else 1),
           redundant := l.redundant + (if l.v.dead then 1 else 0))
      else m
    case RevivalDone =>
      if l.pending == 0 then l
      else l.(v := Revived(l.v), pending := l.pending - 1, revivals := l.revivals + 1, streak := 0, alarmed := false)
    case Alarm =>
      var m := l.(v := Alarmed(l.v));
      if l.v.dead then m else m.(streak := 0, alarmed := true)
  }

  function After(es: seq<Event>): Life {
    if es == [] then BORN else Live(After(es[..|es| - 1]), es[|es| - 1])
  }

  function Pow2(n: nat): nat {
    if n == 0 then 1 else 2 * Pow2(n - 1)
  }

  /** The advertised schedule: 3 s doubled each time, up to an hour. */
  function Backoff(n: nat): real {
    Smaller(BACKOFF_BASE * Pow2(n) as real, BACKOFF_MAX)
  }

  ghost predicate Healthy(l: Life) {
    && (l.v.dead ==> l.pending >= 1)
    && l.v.backoff == Backoff(l.revivals)
    && 1 <= l.v.batchSize <= 64
    && l.pending + l.revivals == l.deaths + l.redundant
    && l.v.failures == l.streak + (if l.alarmed then 5 else 0)
  }

  lemma LiveHealthy(l: Life, e: Event)
    requires Healthy(l)
    ensures Healthy(Live(l, e))
  {
    hide Median, Pushed, Backoff;
    if e.RevivalDone? {
      BackoffDoubles(l.revivals);
    }
  }

  lemma BackoffDoubles(n: nat)
    ensures Smaller(Backoff(n) * 2.0, BACKOFF_MAX) == Backoff(n + 1)
  {
    assert Pow2(n + 1) as real == 2.0 * Pow2(n) as real;
  }

  /** Whatever the interleaving: a dead endpoint has a revival coming, and the back-off follows its schedule. */
  lemma {:induction false} HealthOverRuns(es: seq<Event>)
    ensures Healthy(After(es))
  {
    if es != [] {
      HealthOverRuns(es[..|es| - 1]);
      LiveHealthy(After(es[..|es| - 1]), es[|es| - 1]);
    }
  }

  /** An endpoint dies only in a health tick, after five failed polls in a row or a watchdog alarm. */
  lemma DeathNeedsFailures(es: seq<Event>, e: Event)
    requires !After(es).v.dead && After(es + [e]).v.dead
    ensures e == HealthTick && After(es).v.failures >= 5
    ensures After(es).streak >= 5 || After(es).alarmed
  {
    hide Median, Pushed;
    HealthOverRuns(es);
    assert (es + [e])[..|es|] == es;
  }

  lemma {:induction false} Pow2Grows(m: nat, n: nat)
    requires m <= n
    ensures Pow2(m) <= Pow2(n) && (m < n ==> Pow2(m) < Pow2(n))
    ensures Pow2(m) >= 1
    decreases n
  {
    if m < n {
      Pow2Grows(m, n - 1);
    } else if n > 0 {
      Pow2Grows(m - 1, n - 1);
    }
  }

  /**
   * When no revival is pending the back-off is the one scheduled for the number of deaths exactly
   * when no health tick found the endpoint already dead, or the hour is reached anyway.
   */
  lemma BackoffCountsTicks(es: seq<Event>)
    requires After(es).pending == 0
    ensures var l := After(es);
            l.v.backoff == Backoff(l.deaths) <==> l.redundant == 0 || Backoff(l.deaths) == BACKOFF_MAX
  {
    HealthOverRuns(es);
    var l := After(es);
    Pow2Grows(l.deaths, l.revivals);
  }

  // ----- batch size -----

  function Resizes(batchSize: nat, counts: seq<nat>): nat {
    if counts == [] then batchSize else Resized(Resizes(batchSize, counts[..|counts| - 1]), counts[|counts| - 1])
  }

  /** Answers that fill the batch raise its size by two each, to 64; empty ones lower it by one, to 1. */
  lemma {:induction false} BatchSizeRuns(batchSize: nat, counts: seq<nat>)
    requires BATCH_SIZE_MIN <= batchSize <= BATCH_SIZE_MAX
    ensures (forall i | 0 <= i < |counts| :: counts[i] >= BATCH_SIZE_MAX) ==>
              Resizes(batchSize, counts)
              == if batchSize + 2 * |counts| <= BATCH_SIZE_MAX then batchSize + 2 * |counts| else BATCH_SIZE_MAX
    ensures (forall i | 0 <= i < |counts| :: counts[i] == 0) ==>
              Resizes(batchSize, counts)
              == if batchSize - |counts| >= BATCH_SIZE_MIN then batchSize - |counts| else BATCH_SIZE_MIN
    ensures BATCH_SIZE_MIN <= Resizes(batchSize, counts) <= BATCH_SIZE_MAX
  {
    if counts != [] {
      BatchSizeRuns(batchSize, counts[..|counts| - 1]);
      ResizedExactly(Resizes(batchSize, counts[..|counts| - 1]), counts[|counts| - 1]);
      hide Resized;
    }
  }

  /** The numbers of frames in the answers that decoded, in order. */
  function Counts(es: seq<Event>): seq<nat> {
    if es == [] then []
    else
      Counts(es[..|es| - 1])
      + match es[|es| - 1] case Answered(_, Frames(n)) => [n] case _ => []
  }

  /**
   * Over every run the batch size follows from those numbers alone: round-trip times, other answers,
   * ticks, revivals and alarms make no difference to it.
   */
  lemma {:induction false} BatchSizeOfRun(es: seq<Event>)
    ensures After(es).v.batchSize == Resizes(BATCH_SIZE_DEFAULT, Counts(es))
  {
    hide Median, Pushed, Resized;
    if es != [] {
      BatchSizeOfRun(es[..|es| - 1]);
      var counts := Counts(es[..|es| - 1]);
      assert counts + [] == counts;
      assert forall n: nat :: (counts + [n])[..|counts|] == counts;
    }
  }

  /** In whole numbers: four fifths of the batch size, at least, raise it. */
  lemma ResizedExactly(b: nat, n: nat)
    requires BATCH_SIZE_MIN <= b <= BATCH_SIZE_MAX
    ensures Resized(b, n) > b <==> 5 * n >= 4 * b && b < BATCH_SIZE_MAX
    ensures Resized(b, n) < b <==> n == 0 && b > BATCH_SIZE_MIN
    ensures Resized(b, n) > b ==> Resized(b, n) == if b + 2 <= BATCH_SIZE_MAX then b + 2 else BATCH_SIZE_MAX
    ensures Resized(b, n) < b ==> Resized(b, n) == b - 1
  {
  }

  // ----- round-trip times -----

  function RecordAll(v: View, xs: seq<real>): View {
    if xs == [] then v else Recorded(RecordAll(v, xs[..|xs| - 1]), xs[|xs| - 1])
  }

  lemma WindowStep(xs: seq<real>, x: real)
    ensures Pushed(Window(xs), x) == Window(xs + [x])
    ensures |Window(xs)| == if |xs| <= RTT_WINDOW then |xs| else RTT_WINDOW
    ensures |Window(xs + [x])| == if |xs| + 1 <= RTT_WINDOW then |xs| + 1 else RTT_WINDOW
  {
  }

  lemma EmptyWindow()
    ensures Window([]) == []
  {
  }

  /** After any samples the window holds the last twenty, and from the third on the score is theirs. */
  lemma {:induction false} RttWindow(xs: seq<real>)
    ensures var v := RecordAll(FRESH, xs);
            && v.samples == Window(xs)
            && (|xs| >= QUALITY_MIN_SAMPLES ==> v.score == Larger(10.0, 100.0 - Median(Window(xs)) / 10.0))
            && (|xs| < QUALITY_MIN_SAMPLES ==> v.score == 100.0)
  {
    hide Window, Median, Pushed;
    if xs == [] {
      EmptyWindow();
    } else {
      var init, x := xs[..|xs| - 1], xs[|xs| - 1];
      RttWindow(init);
      assert xs == init + [x];
      WindowStep(init, x);
    }
  }

  /** The round-trip times of all polls answered, whatever the answers. */
  function Rtts(es: seq<Event>): seq<real> {
    if es == [] then []
    else Rtts(es[..|es| - 1]) + match es[|es| - 1] case Answered(rtt, _) => [rtt] case _ => []
  }

  /** v and r agree on what answers record. */
  predicate SameRecord(v: View, r: View) {
    v.samples == r.samples && v.score == r.score && v.avg == r.avg
  }

  lemma EventRecords(l: Life, e: Event, r: View)
    requires SameRecord(l.v, r)
    ensures SameRecord(Live(l, e).v, if e.Answered? then Recorded(r, e.rtt) else r)
  {
    hide Median, Pushed, Resized, Window;
  }

  lemma RecordAllSnoc(v: View, xs: seq<real>, x: real)
    ensures RecordAll(v, xs + [x]) == Recorded(RecordAll(v, xs), x) && xs + [] == xs
  {
    assert (xs + [x])[..|xs|] == xs;
  }

  /** Every answer records its round-trip time, and nothing else touches what is recorded. */
  lemma {:induction false} EveryAnswerRecorded(es: seq<Event>)
    ensures SameRecord(After(es).v, RecordAll(FRESH, Rtts(es)))
  {
    hide Recorded, Live, RecordAll, SameRecord;
    if es == [] {
      BornRecord();
    } else {
      var init, e := es[..|es| - 1], es[|es| - 1];
      EveryAnswerRecorded(init);
      EventRecords(After(init), e, RecordAll(FRESH, Rtts(init)));
      RecordAllSnoc(FRESH, Rtts(init), if e.Answered? then e.rtt else 0.0);
    }
  }

  lemma BornRecord()
    ensures SameRecord(BORN.v, RecordAll(FRESH, []))
  {
  }

  /**
   * Over every run of answers, ticks, revivals and alarms: the samples are the last twenty round-trip
   * times, the score from the third on is that of their median, and the average is the weighted sum
   * of all of them.
   */
  lemma RttOfRun(es: seq<Event>)
    ensures var v, xs := After(es).v, Rtts(es);
            && v.samples == (if |xs| <= 20 then xs else xs[|xs| - 20..])
            && v.score == (if |xs| < 3 then 100.0
                           else if Median(v.samples) <= 900.0 then 100.0 - Median(v.samples) / 10.0
                           else 10.0)
            && v.avg == WeightedSum(xs)
  {
    hide After, Median, RecordAll;
    EveryAnswerRecorded(es);
    RttWindow(Rtts(es));
    AverageIsWeighted(Rtts(es));
  }

  /** Round-trip times are not negative: the score stays in 10..100 and the average below the largest. */
  lemma {:induction false} ScoreAndAverageBounds(xs: seq<real>, hi: real)
    requires forall i | 0 <= i < |xs| :: 0.0 <= xs[i] <= hi
    requires hi >= 0.0
    ensures var v := RecordAll(FRESH, xs); 10.0 <= v.score <= 100.0 && 0.0 <= v.avg <= hi
  {
    RttWindow(xs);
    hide Median, Recorded;
    if |xs| >= QUALITY_MIN_SAMPLES {
      MedianWithin(Window(xs), 0.0, hi);
    }
    AverageBounds(xs, hi);
  }

  function Decay(n: nat): real {
    if n == 0 then 1.0 else 0.9 * Decay(n - 1)
  }

  /** Each sample weighs a tenth, and nine tenths of that for every later one. */
  function WeightedSum(xs: seq<real>): real {
    if xs == [] then 0.0 else 0.1 * Decay(|xs| - 1) * xs[0] + WeightedSum(xs[1..])
  }

  lemma {:induction false} WeightedSumSnoc(xs: seq<real>, x: real)
    ensures WeightedSum(xs + [x]) == 0.9 * WeightedSum(xs) + 0.1 * x
  {
    if xs == [] {
      assert [x][1..] == [];
    } else {
      WeightedSumSnoc(xs[1..], x);
      assert (xs + [x])[1..] == xs[1..] + [x];
      assert Decay(|xs|) == 0.9 * Decay(|xs| - 1);
      assert 0.1 * Decay(|xs|) * xs[0] == 0.9 * (0.1 * Decay(|xs| - 1) * xs[0]);
    }
  }

  /** The moving average is the exponentially weighted sum of all samples. */
  lemma {:induction false} AverageIsWeighted(xs: seq<real>)
    ensures RecordAll(FRESH, xs).avg == WeightedSum(xs)
  {
    hide Median, Pushed;
    if xs != [] {
      AverageIsWeighted(xs[..|xs| - 1]);
      WeightedSumSnoc(xs[..|xs| - 1], xs[|xs| - 1]);
      assert xs[..|xs| - 1] + [xs[|xs| - 1]] == xs;
    }
  }

  lemma {:induction false} AverageBounds(xs: seq<real>, hi: real)
    requires forall i | 0 <= i < |xs| :: 0.0 <= xs[i] <= hi
    requires hi >= 0.0
    ensures 0.0 <= RecordAll(FRESH, xs).avg <= hi
  {
    if xs != [] {
      AverageBounds(xs[..|xs| - 1], hi);
      hide Median, Pushed;
    }
  }
}
