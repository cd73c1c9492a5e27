/** The long-poll loop of `_handle_tunnel_post`: how often it sleeps and when it ends. */
module LongPoll {
  import opened Octets
  import opened Frames
  import opened Sessions
  import opened Pools

  const LONG_POLL_WINDOW: real := 8.0
  const ACTIVE_DRAIN_WINDOW: real := 0.350
  const COALESCE: real := 0.025
  const COALESCE_POLL: real := 0.100
  const GC_INTERVAL: real := 30.0
  const IDLE_SESSION_TIMEOUT: real := 600.0
  const MAX_SLEEPS := 91
  const MAX_SHORT_SLEEPS := 14

  function Least(a: real, b: real): real {
    if a <= b then a else b
  }

  /**
   * What the loop reads and finds in pass i: the clock at its top and after its drain, the frames
   * the drain took, and the pool after its sleep.  Other coroutines run between the passes, so
   * these are inputs.
   */
  datatype Surroundings = Surroundings(start: real, top: nat -> real, mid: nat -> real,
                                       drained: nat -> seq<Frame>, pool: nat -> PoolState)

  predicate ShortSleep(s: Surroundings, i: nat) {
    s.mid(i) - s.start < ACTIVE_DRAIN_WINDOW
  }

  function Remaining(s: Surroundings, i: nat): real {
    s.start + LONG_POLL_WINDOW - s.top(i)
  }

  /** The sleep that follows an idle pass. */
  function SleepFor(s: Surroundings, i: nat): real {
    Least(if ShortSleep(s, i) then COALESCE else COALESCE_POLL, Remaining(s, i))
  }

  /** The clock does not go back, and a sleep takes at least the time asked for. */
  ghost predicate ClockAdvances(s: Surroundings) {
    && s.start <= s.top(0)
    && (forall i: nat :: s.top(i) <= s.mid(i))
    && (forall i: nat :: s.top(i) < s.start + LONG_POLL_WINDOW ==> s.mid(i) + SleepFor(s, i) <= s.top(i + 1))
  }

  /** The time that must have passed before pass i, were the window endless. */
  function Floor(i: nat): real {
    if i <= MAX_SHORT_SLEEPS then COALESCE * i as real
    else ACTIVE_DRAIN_WINDOW + COALESCE_POLL * (i - MAX_SHORT_SLEEPS) as real
  }

  lemma FloorStep(i: nat, elapsed: real, sleep: real)
    requires elapsed >= Floor(i)
    requires sleep == if elapsed < ACTIVE_DRAIN_WINDOW then COALESCE else COALESCE_POLL
    ensures elapsed + sleep >= Floor(i + 1)
  {
  }

  lemma {:induction false} ElapsedAtPass(s: Surroundings, i: nat)
    requires ClockAdvances(s)
    requires forall j: nat | j < i :: s.top(j) < s.start + LONG_POLL_WINDOW
    ensures s.top(i) - s.start >= Least(Floor(i), LONG_POLL_WINDOW)
  {
    if i > 0 {
      ElapsedAtPass(s, i - 1);
      var elapsed := s.mid(i - 1) - s.start;
      FloorStep(i - 1, elapsed, if ShortSleep(s, i - 1) then COALESCE else COALESCE_POLL);
    }
  }

  /** How many of the first n sleeps were short ones. */
  function ShortSleeps(s: Surroundings, n: nat): nat {
    if n == 0 then 0 else ShortSleeps(s, n - 1) + if ShortSleep(s, n - 1) then 1 else 0
  }

  lemma EarlyFloor(i: nat)
    requires Floor(i) < ACTIVE_DRAIN_WINDOW
    ensures i < MAX_SHORT_SLEEPS
  {
  }

  lemma {:induction false} ShortSleepsBound(s: Surroundings, n: nat)
    requires ClockAdvances(s)
    requires forall j: nat | j < n :: s.top(j) < s.start + LONG_POLL_WINDOW
    ensures ShortSleeps(s, n) <= if n <= MAX_SHORT_SLEEPS then n else MAX_SHORT_SLEEPS
    ensures n - ShortSleeps(s, n) > 0 ==>
              s.top(n) - s.start
              >= Least(ACTIVE_DRAIN_WINDOW + COALESCE_POLL * (n - ShortSleeps(s, n)) as real, LONG_POLL_WINDOW)
  {
    hide Floor;
    if n > 0 {
      ShortSleepsBound(s, n - 1);
      if ShortSleep(s, n - 1) {
        ElapsedAtPass(s, n - 1);
        EarlyFloor(n - 1);
      }
    }
  }

  /** A loop that has slept n times before its deadline kept within all three bounds. */
  lemma SleepLimits(s: Surroundings, n: nat)
    requires ClockAdvances(s)
    requires forall j: nat | j < n :: s.top(j) < s.start + LONG_POLL_WINDOW
    ensures n <= MAX_SLEEPS
    ensures ShortSleeps(s, n) <= MAX_SHORT_SLEEPS && n - ShortSleeps(s, n) <= MAX_SLEEPS - MAX_SHORT_SLEEPS
  {
    ShortSleepsBound(s, n);
    if n > 0 {
      ElapsedAtPass(s, n - 1);
      ShortSleepsBound(s, n - 1);
    }
  }

  /** The outcome of a poll: the reply frames, the idle passes before it ended, what each collection purged. */
  datatype Outcome = Outcome(reply: seq<Frame>, sleeps: nat, purged: seq<set<Bytes>>)

  /** The loop ends in pass n: no earlier pass found anything, and this one does or comes too late. */
  predicate EndsAt(s: Surroundings, pending: seq<Frame>, n: nat) {
    && (forall j: nat | j < n :: s.top(j) < s.start + LONG_POLL_WINDOW && pending + s.drained(j) == [])
    && (s.top(n) >= s.start + LONG_POLL_WINDOW || pending + s.drained(n) != [])
  }

  /**
   * What a poll of n idle passes purges: the sessions expired in its last pass, if that one's drain
   * was over 30 seconds after the start, and else nothing.
   */
  function Purged(s: Surroundings, n: nat): seq<set<Bytes>> {
    if n > 0 && s.mid(n - 1) - s.start >= GC_INTERVAL
    then [ExpiredIds(s.pool(n - 1), IDLE_SESSION_TIMEOUT, s.mid(n - 1))]
    else []
  }

  /** A pass late enough to collect is the last. */
  lemma PastDeadline(s: Surroundings, i: nat)
    requires ClockAdvances(s) && s.top(i) < s.start + LONG_POLL_WINDOW && s.mid(i) - s.start >= GC_INTERVAL
    ensures s.top(i + 1) >= s.start + LONG_POLL_WINDOW
  {
  }

  /** A poll collects exactly if some idle pass of it ends 30 seconds after the start; that pass takes over 22. */
  lemma PurgesWhen(s: Surroundings, pending: seq<Frame>, n: nat)
    requires ClockAdvances(s) && EndsAt(s, pending, n)
    ensures Purged(s, n) != [] <==> exists i: nat | i < n :: s.mid(i) - s.start >= GC_INTERVAL
    ensures Purged(s, n) != [] ==> s.mid(n - 1) - s.top(n - 1) > GC_INTERVAL - LONG_POLL_WINDOW
  {
    if i: nat :| i < n && s.mid(i) - s.start >= GC_INTERVAL {
      PastDeadline(s, i);
      assert i == n - 1;
    }
  }

  /**
   * The loop.  It sleeps at most 91 times, at most 14 of them for 25 ms and at most 77 for up to
   * 100 ms; it replies in the first pass that drains a frame, and it collects expired sessions,
   * once, exactly if an idle pass ends 30 seconds after the start.
   */
  method LongPoll(s: Surroundings, pending: seq<Frame>) returns (o: Outcome)
    requires ClockAdvances(s)
    ensures o.sleeps <= 91
    ensures ShortSleeps(s, o.sleeps) <= 14
    ensures o.sleeps - ShortSleeps(s, o.sleeps) <= 77
    ensures EndsAt(s, pending, o.sleeps)
    ensures o.reply == if s.top(o.sleeps) >= s.start + LONG_POLL_WINDOW then pending else pending + s.drained(o.sleeps)
    ensures o.purged == Purged(s, o.sleeps)
    ensures |o.purged| > 0 <==> exists i: nat | i < o.sleeps :: s.mid(i) - s.start >= 30.0
    ensures |o.purged| > 0 ==>
              exists i: nat | i < o.sleeps :: s.mid(i) - s.top(i) > 22.0
  {
    hide ShortSleeps, ClockAdvances, ExpiredIds;
    var deadline := s.start + LONG_POLL_WINDOW;
    var lastGc := s.start;
    var i: nat := 0;
    o := Outcome(pending, 0, []);
    while true
      invariant o.sleeps == i && o.reply == pending
      invariant forall j: nat | j < i :: s.top(j) < deadline && pending + s.drained(j) == []
      invariant o.purged == Purged(s, i)
      invariant if o.purged == [] then lastGc == s.start else s.top(i) >= deadline
      decreases MAX_SLEEPS - i
    {
      SleepLimits(s, i);
      var remaining := deadline - s.top(i);
      if remaining <= 0.0 {
        break;
      }
      ElapsedAtPass(s, i);
      var frames := pending + s.drained(i);
      var now := s.mid(i);
      if frames != [] {
        o := o.(reply := frames);
        break;
      }
      if now - lastGc >= GC_INTERVAL {
        PastDeadline(s, i);
        o := o.(purged := o.purged + [ExpiredIds(s.pool(i), IDLE_SESSION_TIMEOUT, now)]);
        lastGc := now;
      }
      o := o.(sleeps := o.sleeps + 1);
      i := i + 1;
    }
    PurgesWhen(s, pending, i);
  }

  /** A clock on which nothing but the sleeps takes time. */
  function IdleClock(i: nat): real {
    Least(Floor(i), LONG_POLL_WINDOW)
  }

  function Idle(pool: nat -> PoolState): Surroundings {
    Surroundings(0.0, IdleClock, IdleClock, (_: nat) => [], pool)
  }

  /** The bound is reached: an idle poll on such a clock sleeps 91 times, 14 of them for 25 ms. */
  lemma BoundReached(pool: nat -> PoolState)
    ensures ClockAdvances(Idle(pool)) && EndsAt(Idle(pool), [], 91)
    ensures ShortSleeps(Idle(pool), 91) == 14
  {
    var s := Idle(pool);
    forall i: nat | s.top(i) < s.start + LONG_POLL_WINDOW
      ensures s.mid(i) + SleepFor(s, i) <= s.top(i + 1)
    {
    }
    ShortIffEarly(pool, MAX_SLEEPS);
  }

  lemma {:induction false} ShortIffEarly(pool: nat -> PoolState, n: nat)
    ensures ShortSleeps(Idle(pool), n) == if n <= MAX_SHORT_SLEEPS then n else MAX_SHORT_SLEEPS
  {
    if n > 0 {
      ShortIffEarly(pool, n - 1);
    }
  }

  /** A pool with one session that nobody has used for a thousand seconds. */
  function Stale(id: Bytes): PoolState {
    PoolState([id], map[id := Fresh(id, SYN, "", -1000.0)])
  }

  /**
   * So sessions outlive their expiry: an idle poll over the full window purges nothing, though the
   * pool holds an expired session in every pass.
   */
  lemma ExpiredStay(id: Bytes)
    ensures var s := Idle(_ => Stale(id));
            && ClockAdvances(s) && EndsAt(s, [], 91)
            && (forall i: nat :: ExpiredIds(s.pool(i), 600.0, s.mid(i)) == {id})
            && Purged(s, 91) == []
  {
    BoundReached(_ => Stale(id));
  }
}
