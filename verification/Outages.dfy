/**
 * Outages against the clock: the health loop ticks every 30 seconds and a revival sleeps for the
 * back-off, so whether a tick finds the endpoint dead already is a matter of the back-off.
 */
module Outages {
  import opened Endpoints

  const HEALTH_INTERVAL: real := 30.0

  /** No sleep ends early, and none ends this many seconds late. */
  const LAG: real := 6.0

  /**
   * An endpoint with its clock: the last health tick, when each pending revival is due, when the
   * endpoint died last, and how many ticks have found it failing since, that one included.  A
   * revival reads its back-off when its task first runs, right behind the tick that started it;
   * that another revival completes between the two is left out.
   */
  datatype Clocked = Clocked(l: Life, now: real, lastTick: real, due: seq<real>, diedAt: real, seen: nat)

  const STARTED := Clocked(BORN, 0.0, 0.0, [], 0.0, 0)

  /** An event at its time; k says which of the pending revivals is done. */
  datatype Stamped = Stamped(e: Event, at: real, k: nat)

  /** The event may happen at its time. */
  predicate Timely(c: Clocked, s: Stamped) {
    && c.now <= s.at < c.lastTick + HEALTH_INTERVAL + LAG
    && (forall i | 0 <= i < |c.due| :: s.at < c.due[i] + LAG)
    && (s.e.HealthTick? ==> s.at >= c.lastTick + HEALTH_INTERVAL)
    && (s.e.RevivalDone? ==> s.k < |c.due| && s.at >= c.due[s.k])
  }

  function Next(c: Clocked, s: Stamped): Clocked {
    var d := c.(l := Live(c.l, s.e), now := s.at);
    match s.e
    case HealthTick =>
      if !StartsRevival(c.l.v) then d.(lastTick := s.at)
      else
        var e := d.(lastTick := s.at, due := c.due + [s.at + c.l.v.backoff]);
        if c.l.v.dead then e.(seen := c.seen + 1) else e.(diedAt := s.at, seen := 1)
    case RevivalDone => if s.k < |c.due| then d.(due := c.due[..s.k] + c.due[s.k + 1..]) else c
    case _ => d
  }

  function Reached(ss: seq<Stamped>): Clocked {
    if ss == [] then STARTED else Next(Reached(ss[..|ss| - 1]), ss[|ss| - 1])
  }

  ghost predicate TimelyRun(ss: seq<Stamped>) {
    ss == [] || (TimelyRun(ss[..|ss| - 1]) && Timely(Reached(ss[..|ss| - 1]), ss[|ss| - 1]))
  }

  // ----- what every timely run keeps -----

  /** A dead endpoint has a revival due, and its outage has lasted as long as its ticks took. */
  ghost predicate Outage(c: Clocked) {
    && c.seen >= 1
    && c.l.pending >= c.seen
    && c.diedAt + c.l.v.backoff in c.due
    && (c.l.pending == c.seen ==> forall i | 0 <= i < |c.due| :: c.due[i] >= c.diedAt + c.l.v.backoff)
    && HEALTH_INTERVAL * (c.seen - 1) as real <= c.lastTick - c.diedAt
    && c.lastTick - c.diedAt <= (HEALTH_INTERVAL + LAG) * (c.seen - 1) as real
  }

  /** No tick has found it dead already; this lasts until the fifth outage and no longer. */
  ghost predicate SeenOnce(c: Clocked) {
    && c.l.pending == (if c.l.v.dead then 1 else 0)
    && (c.l.v.dead ==> c.seen == 1)
    && (c.l.deaths <= 4 || (c.l.deaths == 5 && c.l.v.dead))
  }

  ghost predicate Punctual(c: Clocked) {
    && Healthy(c.l)
    && |c.due| == c.l.pending
    && (c.l.v.dead ==> Outage(c))
    && (c.l.redundant == 0 ==> SeenOnce(c))
    && (c.l.deaths <= 4 ==> c.l.redundant == 0)
  }

  lemma BackoffValues()
    ensures Backoff(0) == 3.0 && Backoff(1) == 6.0 && Backoff(2) == 12.0 && Backoff(3) == 24.0 && Backoff(4) == 48.0
    ensures Backoff(6) == 192.0 && Backoff(10) == 3072.0 && Backoff(11) == BACKOFF_MAX == 3600.0
  {
    assert Pow2(4) == 16;
    assert Pow2(8) == 16 * Pow2(4);
    assert Pow2(11) == 8 * Pow2(8);
  }

  lemma TickKeeps(c: Clocked, s: Stamped)
    requires Punctual(c) && Timely(c, s) && s.e.HealthTick?
    ensures Punctual(Next(c, s))
  {
    hide Backoff, Healthy;
    LiveHealthy(c.l, s.e);
    BackoffValues();
    OnSchedule(c.l);
    var d := Next(c, s);
    if StartsRevival(c.l.v) {
      assert d.due[|c.due|] == s.at + c.l.v.backoff;
      if c.l.v.dead {
        var i :| 0 <= i < |c.due| && c.due[i] == c.diedAt + c.l.v.backoff;
        assert d.due[i] == c.due[i];
      }
    }
  }

  lemma OnSchedule(l: Life)
    requires Healthy(l)
    ensures l.v.backoff == Backoff(l.revivals) && l.pending + l.revivals == l.deaths + l.redundant
  {
  }

  lemma RevivalKeeps(c: Clocked, s: Stamped)
    requires Punctual(c) && Timely(c, s) && s.e.RevivalDone?
    ensures Punctual(Next(c, s))
  {
    hide Backoff, Healthy;
    LiveHealthy(c.l, s.e);
    BackoffValues();
    OnSchedule(c.l);
  }

  lemma OthersKeep(c: Clocked, s: Stamped)
    requires Punctual(c) && (s.e.Answered? || s.e.Alarm?)
    ensures Punctual(Next(c, s))
  {
    hide Healthy, Median, Pushed;
    LiveHealthy(c.l, s.e);
  }

  lemma {:induction false} PunctualOverRuns(ss: seq<Stamped>)
    requires TimelyRun(ss)
    ensures Punctual(Reached(ss))
  {
    hide Punctual, Next;
    if ss == [] {
      StartPunctual();
    } else {
      var c, s := Reached(ss[..|ss| - 1]), ss[|ss| - 1];
      PunctualOverRuns(ss[..|ss| - 1]);
      match s.e
      case HealthTick => TickKeeps(c, s);
      case RevivalDone => RevivalKeeps(c, s);
      case _ => OthersKeep(c, s);
    }
  }

  lemma StartPunctual()
    ensures Punctual(STARTED)
  {
    BackoffValues();
  }

  /**
   * Up to the fourth outage every outage is seen by one tick, and the back-off is the one scheduled
   * for the outages over; the fifth is always seen again before its revival.
   */
  lemma SeenOnceUntilFifth(ss: seq<Stamped>)
    requires TimelyRun(ss)
    ensures var l := Reached(ss).l;
            && (l.v.dead ==> l.deaths >= 1)
            && (l.deaths <= 4 ==>
                  l.redundant == 0 && l.v.backoff == Backoff(if l.v.dead then l.deaths - 1 else l.deaths))
            && (l.pending == 0 ==> (l.redundant == 0 <==> l.deaths <= 4))
  {
    hide Punctual, TimelyRun, Reached, Backoff;
    PunctualOverRuns(ss);
    PunctualMeans(Reached(ss));
  }

  lemma PunctualMeans(c: Clocked)
    requires Punctual(c)
    ensures var l := c.l;
            && (l.v.dead ==> l.deaths >= 1)
            && (l.deaths <= 4 ==>
                  l.redundant == 0 && l.v.backoff == Backoff(if l.v.dead then l.deaths - 1 else l.deaths))
            && (l.pending == 0 ==> (l.redundant == 0 <==> l.deaths <= 4))
  {
    hide Backoff, Healthy;
    OnSchedule(c.l);
  }

  /**
   * With no revival pending the back-off is the one scheduled for the number of outages exactly up
   * to the fourth, and again from the eleventh on, when it is an hour either way.
   */
  lemma BackoffPerDeath(ss: seq<Stamped>)
    requires TimelyRun(ss) && Reached(ss).l.pending == 0
    ensures var l := Reached(ss).l;
            l.v.backoff == Backoff(l.deaths) <==> l.deaths <= 4 || l.deaths >= 11
  {
    PunctualOverRuns(ss);
    SeenOnceUntilFifth(ss);
    BackoffValues();
    var l := Reached(ss).l;
    Pow2Grows(l.deaths, l.revivals);
    if l.deaths <= 10 {
      Pow2Grows(l.deaths, 10);
    } else {
      Pow2Grows(11, l.deaths);
    }
  }

  /** How many ticks an outage can be seen by, from its back-off; at least that many if no older revival ends it. */
  lemma TicksPerOutage(ss: seq<Stamped>, s: Stamped)
    requires TimelyRun(ss) && Reached(ss).l.v.dead && Timely(Reached(ss), s)
    ensures var c := Reached(ss);
            && (s.e.HealthTick? ==> HEALTH_INTERVAL * c.seen as real < c.l.v.backoff + LAG)
            && (s.e.RevivalDone? && c.l.pending == c.seen ==>
                  c.l.v.backoff < (HEALTH_INTERVAL + LAG) * c.seen as real)
  {
    PunctualOverRuns(ss);
  }

  // ----- runs that can happen -----

  lemma Snoc(ss: seq<Stamped>, s: Stamped)
    ensures Reached(ss + [s]) == Next(Reached(ss), s)
    ensures TimelyRun(ss + [s]) <==> TimelyRun(ss) && Timely(Reached(ss), s)
  {
    assert (ss + [s])[..|ss|] == ss;
  }

  /** Alive, nothing pending, and the next tick has not passed. */
  ghost predicate Quiet(c: Clocked) {
    !c.l.v.dead && c.l.pending == 0 && c.due == [] && c.lastTick <= c.now <= c.lastTick + HEALTH_INTERVAL
  }

  /** After k ticks of an outage that began at t with back-off b. */
  ghost predicate Ticked(c: Clocked, t: real, b: real, k: nat, deaths: nat, revivals: nat) {
    && c.l.v.dead && c.l.v.backoff == b && c.l.deaths == deaths && c.l.revivals == revivals
    && c.l.pending == k == |c.due|
    && (forall i | 0 <= i < k :: c.due[i] == t + HEALTH_INTERVAL * i as real + b)
    && c.now == c.lastTick == t + HEALTH_INTERVAL * (k - 1) as real
  }

  lemma {:induction false} TicksOfOutage(ss: seq<Stamped>, k: nat) returns (run: seq<Stamped>)
    requires TimelyRun(ss) && Quiet(Reached(ss)) && Reached(ss).l.v.failures >= MAX_CONSECUTIVE_FAILURES
    requires k > 0 && HEALTH_INTERVAL * (k - 1) as real < Reached(ss).l.v.backoff
    ensures var c := Reached(ss);
            && TimelyRun(run)
            && Ticked(Reached(run), c.lastTick + HEALTH_INTERVAL, c.l.v.backoff, k, c.l.deaths + 1, c.l.revivals)
    decreases k
  {
    hide TimelyRun, Reached;
    var c := Reached(ss);
    if k == 1 {
      var s := Stamped(HealthTick, c.lastTick + HEALTH_INTERVAL, 0);
      Snoc(ss, s);
      run := ss + [s];
    } else {
      var before := TicksOfOutage(ss, k - 1);
      var d := Reached(before);
      var s := Stamped(HealthTick, d.lastTick + HEALTH_INTERVAL, 0);
      Snoc(before, s);
      run := before + [s];
    }
  }

  /** After j of the n revivals of that outage, and a tick after each but the last. */
  ghost predicate Recovering(c: Clocked, t: real, b: real, n: nat, j: nat, deaths: nat, revivals: nat)
    requires j <= n
  {
    && (if j == 0 then c.l.v.dead else !c.l.v.dead && c.l.v.failures == 0)
    && c.l.deaths == deaths && c.l.revivals == revivals + j
    && c.l.pending == n - j == |c.due|
    && (forall i | 0 <= i < n - j :: c.due[i] == t + HEALTH_INTERVAL * (j + i) as real + b)
    && (if j < n then c.now == c.lastTick == t + HEALTH_INTERVAL * (n - 1 + j) as real
        else c.lastTick <= c.now <= c.lastTick + HEALTH_INTERVAL)
  }

  lemma RecoversOnce(ss: seq<Stamped>, t: real, b: real, n: nat, j: nat, deaths: nat, revivals: nat)
    returns (run: seq<Stamped>)
    requires j < n && HEALTH_INTERVAL * (n - 1) as real < b <= HEALTH_INTERVAL * n as real
    requires TimelyRun(ss) && Recovering(Reached(ss), t, b, n, j, deaths, revivals)
    ensures TimelyRun(run) && Recovering(Reached(run), t, b, n, j + 1, deaths, revivals)
  {
    hide TimelyRun, Reached;
    var c := Reached(ss);
    var s := Stamped(RevivalDone, t + HEALTH_INTERVAL * j as real + b, 0);
    Snoc(ss, s);
    run := ss + [s];
    if j + 1 < n {
      var d := Reached(run);
      assert d.due == c.due[1..];
      var tick := Stamped(HealthTick, c.lastTick + HEALTH_INTERVAL, 0);
      Snoc(run, tick);
      run := run + [tick];
      IdleTick(d, tick);
      hide Next;
    }
  }

  /** A tick that finds the endpoint well does nothing. */
  lemma IdleTick(c: Clocked, s: Stamped)
    requires s.e.HealthTick? && !c.l.v.dead && c.l.v.failures == 0
    ensures Next(c, s) == c.(now := s.at, lastTick := s.at)
  {
  }

  lemma {:induction false} RecoversAll(ss: seq<Stamped>, t: real, b: real, n: nat, j: nat, deaths: nat, revivals: nat)
    returns (run: seq<Stamped>)
    requires j <= n && HEALTH_INTERVAL * (n - 1) as real < b <= HEALTH_INTERVAL * n as real
    requires TimelyRun(ss) && Recovering(Reached(ss), t, b, n, j, deaths, revivals)
    ensures TimelyRun(run) && Recovering(Reached(run), t, b, n, n, deaths, revivals)
    decreases n - j
  {
    hide TimelyRun, Reached, Recovering;
    run := ss;
    if j < n {
      run := RecoversOnce(run, t, b, n, j, deaths, revivals);
      run := RecoversAll(run, t, b, n, j + 1, deaths, revivals);
    }
  }

  /**
   * One outage with a back-off of more than 30 * (n - 1) and up to 30 * n seconds is seen by n ticks
   * and counts as n on the schedule, though the endpoint died once.
   */
  lemma OneOutage(ss: seq<Stamped>, n: nat) returns (run: seq<Stamped>)
    requires TimelyRun(ss) && Quiet(Reached(ss)) && Reached(ss).l.v.failures >= MAX_CONSECUTIVE_FAILURES
    requires var b := Reached(ss).l.v.backoff;
             n > 0 && HEALTH_INTERVAL * (n - 1) as real < b <= HEALTH_INTERVAL * n as real
    ensures var c, d := Reached(ss), Reached(run);
            && TimelyRun(run) && Quiet(d) && d.l.v.failures == 0
            && d.l.deaths == c.l.deaths + 1
            && d.l.revivals == c.l.revivals + n && d.l.v.backoff == Backoff(c.l.revivals + n)
  {
    hide TimelyRun, Reached, Backoff, Healthy;
    var c := Reached(ss);
    var t, b := c.lastTick + HEALTH_INTERVAL, c.l.v.backoff;
    run := TicksOfOutage(ss, n);
    run := RecoversAll(run, t, b, n, 0, c.l.deaths + 1, c.l.revivals);
    PunctualOverRuns(run);
    OnSchedule(Reached(run).l);
  }

  /** Failed polls can come at any time. */
  lemma {:induction false} Failures(ss: seq<Stamped>, n: nat) returns (run: seq<Stamped>)
    requires TimelyRun(ss) && Quiet(Reached(ss))
    ensures var c, d := Reached(ss), Reached(run);
            && TimelyRun(run) && Quiet(d) && d.l.v.failures == c.l.v.failures + n
            && d.l.deaths == c.l.deaths && d.l.revivals == c.l.revivals && d.l.v.backoff == c.l.v.backoff
    decreases n
  {
    hide TimelyRun, Reached, Median, Pushed;
    run := ss;
    if n > 0 {
      run := Failures(ss, n - 1);
      var s := Stamped(Answered(100.0, Refused), Reached(run).now, 0);
      Snoc(run, s);
      run := run + [s];
    }
  }

  lemma {:induction false} FirstOutages(m: nat) returns (run: seq<Stamped>)
    requires m <= 4
    ensures var c := Reached(run);
            TimelyRun(run) && Quiet(c) && c.l.deaths == c.l.revivals == m && c.l.v.backoff == Backoff(m)
    decreases m
  {
    hide TimelyRun, Reached, Backoff, Quiet;
    if m == 0 {
      run := [];
      StartQuiet();
    } else {
      run := FirstOutages(m - 1);
      run := Failures(run, MAX_CONSECUTIVE_FAILURES);
      ShortBackoff(m - 1);
      run := OneOutage(run, 1);
    }
  }

  lemma StartQuiet()
    ensures TimelyRun([]) && Quiet(Reached([])) && Reached([]) == STARTED
    ensures STARTED.l.deaths == STARTED.l.revivals == 0 && STARTED.l.v.backoff == Backoff(0)
  {
    BackoffValues();
  }

  lemma ShortBackoff(m: nat)
    requires m <= 3
    ensures HEALTH_INTERVAL * 0 as real < Backoff(m) <= HEALTH_INTERVAL * 1 as real
  {
    BackoffValues();
  }

  /** A run that can happen: five outages, the last with a back-off of 48 s and two ticks, then 192 s. */
  lemma FifthOutageCountsTwice()
    ensures exists ss ::
              && TimelyRun(ss)
              && var l := Reached(ss).l; l.deaths == 5 && l.pending == 0 && l.v.backoff == 192.0 && Backoff(5) == 96.0
  {
    BackoffValues();
    assert Pow2(5) == 32;
    hide TimelyRun, Reached, Backoff;
    var run := FirstOutages(4);
    run := Failures(run, MAX_CONSECUTIVE_FAILURES);
    run := OneOutage(run, 2);
    assert Reached(run).l.deaths == 5;
  }
}
