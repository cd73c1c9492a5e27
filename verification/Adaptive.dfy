/**
 * The adaptive-compression state both encoders keep, and what it does over any run of
 * encodes.  One encode is described by the size of its plaintext and, were it compressed,
 * the size of the compressed form with its flags byte.
 */
module Adaptive {

  const COMPRESS_MIN_SIZE := 512
  const SKIP_AFTER := 3
  const RECHECK_AFTER := 10

  datatype Skip = Skip(counter: nat, active: bool)

  const INITIAL := Skip(0, false)

  datatype Encode = Encode(rawSize: nat, packedSize: nat) {
    predicate Large() {
      rawSize - 1 >= COMPRESS_MIN_SIZE
    }

    predicate Shrinks() {
      packedSize < rawSize
    }
  }

  predicate Attempts(st: Skip, e: Encode) {
    e.Large() && (!st.active || st.counter % RECHECK_AFTER == 0)
  }

  function Advance(st: Skip, e: Encode): Skip {
    if Attempts(st, e) then
      if e.Shrinks() then Skip(0, false)
      else Skip(st.counter + 1, st.active || st.counter + 1 >= SKIP_AFTER)
    else if st.active then st.(counter := st.counter + 1)
    else st
  }

  /** The state after a run of encodes. */
  function Run(st: Skip, es: seq<Encode>): Skip {
    if es == [] then st else Advance(Run(st, es[..|es| - 1]), es[|es| - 1])
  }

  /** Whether the i-th encode of a run tries to compress. */
  predicate AttemptsAt(st: Skip, es: seq<Encode>, i: nat)
    requires i < |es|
  {
    Attempts(Run(st, es[..i]), es[i])
  }

  function AttemptCount(st: Skip, es: seq<Encode>): nat {
    if es == [] then 0
    else AttemptCount(st, es[..|es| - 1]) + if AttemptsAt(st, es, |es| - 1) then 1 else 0
  }

  /** Skipping is on exactly when the counter has reached three. */
  predicate Consistent(st: Skip) {
    st.active <==> st.counter >= SKIP_AFTER
  }

  lemma {:induction false} SkipIffThreeFailures(es: seq<Encode>)
    ensures Consistent(Run(INITIAL, es))
  {
    if es != [] {
      SkipIffThreeFailures(es[..|es| - 1]);
    }
  }

  /** How many large encodes since the last that shrank have not. */
  function Trailing(es: seq<Encode>): nat {
    if es == [] then 0
    else
      var n, e := Trailing(es[..|es| - 1]), es[|es| - 1];
      if !e.Large() then n else if e.Shrinks() then 0 else n + 1
  }

  /**
   * While skipping is off the counter is the number of failures in a row, small bodies aside; the third
   * in a row turns skipping on, and nothing else does.
   */
  lemma {:induction false} ThreeInARow(es: seq<Encode>, e: Encode)
    requires !Run(INITIAL, es).active
    ensures Run(INITIAL, es).counter == Trailing(es) < 3
    ensures Run(INITIAL, es + [e]).active <==> e.Large() && !e.Shrinks() && Trailing(es) == 2
    ensures e.Large() && e.Shrinks() ==> Run(INITIAL, es + [e]) == INITIAL
  {
    CounterIsTrailing(es);
    assert (es + [e])[..|es|] == es;
    hide Run, Trailing;
  }

  lemma {:induction false} CounterIsTrailing(es: seq<Encode>)
    ensures !Run(INITIAL, es).active ==> Run(INITIAL, es).counter == Trailing(es) < 3
  {
    if es != [] {
      CounterIsTrailing(es[..|es| - 1]);
    }
  }

  /** While skipping is on, an attempt that shrinks the body is what turns it off, and starts the count anew. */
  lemma GainEndsSkipping(es: seq<Encode>, e: Encode)
    requires Run(INITIAL, es).active
    ensures var st, next := Run(INITIAL, es), Run(INITIAL, es + [e]);
            if e.Large() && st.counter % 10 == 0 && e.Shrinks() then next == INITIAL
            else next == Skip(st.counter + 1, true)
  {
    assert (es + [e])[..|es|] == es;
  }

  /** No encode from lo on both tries to compress and gains by it. */
  predicate NoGain(st: Skip, es: seq<Encode>) {
    forall i | 0 <= i < |es| :: AttemptsAt(st, es, i) ==> !es[i].Shrinks()
  }

  lemma PrefixRuns(st: Skip, es: seq<Encode>, k: nat)
    requires k <= |es|
    ensures forall i | 0 <= i < k :: AttemptsAt(st, es[..k], i) == AttemptsAt(st, es, i)
    ensures NoGain(st, es) ==> NoGain(st, es[..k])
  {
    forall i | 0 <= i < k
      ensures AttemptsAt(st, es[..k], i) == AttemptsAt(st, es, i)
    {
      assert es[..k][..i] == es[..i];
    }
  }

  /** While skipping is on and nothing is gained, every encode counts, attempted or not. */
  lemma {:induction false} SkipCountsEncodes(st: Skip, es: seq<Encode>)
    requires st.active && NoGain(st, es)
    ensures Run(st, es) == Skip(st.counter + |es|, true)
  {
    if es != [] {
      PrefixRuns(st, es, |es| - 1);
      SkipCountsEncodes(st, es[..|es| - 1]);
      assert AttemptsAt(st, es, |es| - 1) ==> !es[|es| - 1].Shrinks();
    }
  }

  /** While skipping, the i-th encode is tried exactly when the count is a multiple of ten and it is large. */
  lemma AttemptIffTurn(st: Skip, es: seq<Encode>, i: nat)
    requires st.active && i < |es| && NoGain(st, es[..i])
    ensures AttemptsAt(st, es, i) <==> (st.counter + i) % RECHECK_AFTER == 0 && es[i].Large()
  {
    SkipCountsEncodes(st, es[..i]);
  }

  /** While skipping, a run includes an attempt exactly if some encode whose turn it is is large. */
  lemma RecheckedIff(st: Skip, es: seq<Encode>)
    requires st.active
    ensures (exists i | 0 <= i < |es| :: AttemptsAt(st, es, i))
            <==> (exists i | 0 <= i < |es| :: (st.counter + i) % RECHECK_AFTER == 0 && es[i].Large())
  {
    hide AttemptsAt;
    if i :| 0 <= i < |es| && (st.counter + i) % RECHECK_AFTER == 0 && es[i].Large() {
      AttemptIffTurnOrBefore(st, es, i);
    } else if i :| 0 <= i < |es| && AttemptsAt(st, es, i) {
      FirstAttempt(st, es, i);
    }
  }

  lemma AttemptIffTurnOrBefore(st: Skip, es: seq<Encode>, i: nat)
    requires st.active && i < |es| && (st.counter + i) % RECHECK_AFTER == 0 && es[i].Large()
    ensures exists k | 0 <= k < |es| :: AttemptsAt(st, es, k)
  {
    PrefixRuns(st, es, i);
    if NoGain(st, es[..i]) {
      AttemptIffTurn(st, es, i);
    } else {
      var k :| 0 <= k < i && AttemptsAt(st, es[..i], k);
      assert AttemptsAt(st, es, k);
    }
  }

  /** The first attempt of a run is a large encode whose turn it is. */
  lemma {:induction false} FirstAttempt(st: Skip, es: seq<Encode>, i: nat)
    requires st.active && i < |es| && AttemptsAt(st, es, i)
    ensures exists k | 0 <= k < |es| :: (st.counter + k) % RECHECK_AFTER == 0 && es[k].Large()
    decreases i
  {
    PrefixRuns(st, es, i);
    if NoGain(st, es[..i]) {
      AttemptIffTurn(st, es, i);
    } else {
      var k :| 0 <= k < i && AttemptsAt(st, es[..i], k);
      FirstAttempt(st, es, k);
    }
  }

  /** Ten encodes in a row with a large body always include an attempt. */
  lemma RecheckWithinTen(st: Skip, es: seq<Encode>)
    requires |es| == RECHECK_AFTER && forall i | 0 <= i < |es| :: es[i].Large()
    ensures exists i | 0 <= i < |es| :: AttemptsAt(st, es, i)
  {
    if !st.active {
      assert es[..0] == [];
      assert AttemptsAt(st, es, 0);
    } else {
      var turn := (RECHECK_AFTER - st.counter % RECHECK_AFTER) % RECHECK_AFTER;
      assert es[turn].Large();
      RecheckedIff(st, es);
    }
  }

  /** How many multiples of ten lie in lo, ..., lo + n - 1. */
  function TensIn(lo: nat, n: nat): nat {
    if n == 0 then 0 else TensIn(lo, n - 1) + if (lo + n - 1) % RECHECK_AFTER == 0 then 1 else 0
  }

  lemma TensStep(lo: nat, n: nat)
    requires n > 0
    ensures TensIn(lo, n) == TensIn(lo, n - 1) + if (lo + n - 1) % RECHECK_AFTER == 0 then 1 else 0
  {
  }

  lemma {:induction false} TensBound(lo: nat, n: nat)
    ensures TensIn(lo, n) == (lo + n + 9) / 10 - (lo + 9) / 10
    ensures TensIn(lo, n) <= n / 10 + 1
  {
    if n > 0 {
      TensBound(lo, n - 1);
    }
  }

  /** While nothing compresses, skipping leaves at most one attempt in ten, rounded up. */
  lemma {:induction false} AttemptsWhileSkipping(st: Skip, es: seq<Encode>)
    requires st.active && NoGain(st, es)
    ensures AttemptCount(st, es) <= TensIn(st.counter, |es|) <= |es| / 10 + 1
  {
    hide Attempts, Run, AttemptsAt, NoGain;
    TensBound(st.counter, |es|);
    if es != [] {
      PrefixRuns(st, es, |es| - 1);
      AttemptsWhileSkipping(st, es[..|es| - 1]);
      AttemptIffTurn(st, es, |es| - 1);
      TensStep(st.counter, |es|);
      hide TensIn;
    }
  }

  /**
   * "Rechecks every 10" needs the tenth batch to be large: when the batches whose turn it is
   * are all small, compression is never tried again, however long the run and however well
   * the others would compress.
   */
  lemma {:induction false} NeverRechecked(st: Skip, es: seq<Encode>)
    requires st.active
    requires forall i | 0 <= i < |es| :: (st.counter + i) % RECHECK_AFTER == 0 ==> !es[i].Large()
    ensures AttemptCount(st, es) == 0 && NoGain(st, es)
  {
    if es != [] {
      NeverRechecked(st, es[..|es| - 1]);
      PrefixRuns(st, es, |es| - 1);
      AttemptIffTurn(st, es, |es| - 1);
      hide AttemptsAt;
    }
  }

  /** Large batches that would shrink to a twelfth, with every tenth one small. */
  function StarvingRun(n: nat): seq<Encode> {
    seq(n, i requires 0 <= i < n => if (SKIP_AFTER + i) % RECHECK_AFTER == 0 then Encode(100, 90) else Encode(600, 50))
  }

  /** Any three large batches that do not shrink are enough to start such a run, of any length. */
  lemma RecheckCanStarve(a: Encode, b: Encode, c: Encode, n: nat)
    requires a.Large() && b.Large() && c.Large() && !a.Shrinks() && !b.Shrinks() && !c.Shrinks()
    ensures Run(INITIAL, [a, b, c]) == Skip(SKIP_AFTER, true)
    ensures AttemptCount(Skip(SKIP_AFTER, true), StarvingRun(n)) == 0
    ensures forall i | 0 <= i < n :: StarvingRun(n)[i].Shrinks()
  {
    assert [a, b, c][..2] == [a, b] && [a, b][..1] == [a] && [a][..0] == [];
    assert Run(INITIAL, [a]) == Skip(1, false);
    assert Run(INITIAL, [a, b]) == Skip(2, false);
    NeverRechecked(Skip(SKIP_AFTER, true), StarvingRun(n));
  }
}
