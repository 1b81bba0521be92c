/** Repair of a gateway's own running-request field when it has drifted from the local count.

  A field and the local count disagree briefly around every request; only a gap that keeps
  its direction for several passes is drift, and only the part of it that never closed is
  corrected.
  */
module DriftRepair {
  import opened RequestHash

  const CONFIRM_PASSES: int := 5

  /** Progress toward confirming a gap: +1 while the field is above the local count, -1 while
      it is below, 0 when no gap is tracked; for how many passes; and the smallest gap. */
  datatype Drift = Drift(direction: int, passes: int, minGap: int)

  const Calm := Drift(0, 0, 0)

  /** `observe`: folds in one sample and returns the correction to add to the field. */
  function Observe(s: Drift, redisCount: int, local: int): (Drift, int) {
    var gap := redisCount - local;
    if gap == 0 then (Calm, 0)
    else
      var direction := if gap < 0 then -1 else 1;
      var size := if gap < 0 then -gap else gap;
      var tracked :=
        if s.direction != direction then Drift(direction, 0, size)
        else if size < s.minGap then s.(minGap := size)
        else s;
      var next := tracked.(passes := tracked.passes + 1);
      if next.passes < CONFIRM_PASSES then (next, 0)
      else (Calm, -direction * next.minGap)
  }

  /** The state, and the correction emitted at the last sample, after a sequence of gaps. */
  function After(gaps: seq<int>): (Drift, int) {
    if gaps == [] then (Calm, 0)
    else Observe(After(gaps[..|gaps| - 1]).0, gaps[|gaps| - 1], 0)
  }

  function Sign(x: int): int {
    if x > 0 then 1 else if x < 0 then -1 else 0
  }

  function Abs(x: int): int {
    if x < 0 then -x else x
  }

  /** `m` is the least size among the last `n` gaps. */
  ghost predicate LeastOfLast(m: int, gaps: seq<int>, n: nat)
    requires n <= |gaps|
  {
    && (forall i :: |gaps| - n <= i < |gaps| ==> m <= Abs(gaps[i]))
    && (exists i :: |gaps| - n <= i < |gaps| && m == Abs(gaps[i]))
  }

  /** What the state remembers: the last `passes` gaps all had its direction, and `minGap` is
      the least of them. */
  ghost predicate Remembers(s: Drift, gaps: seq<int>) {
    || s == Calm
    || (&& 1 <= s.passes < CONFIRM_PASSES && s.passes <= |gaps| && (s.direction == 1 || s.direction == -1)
        && (forall i :: |gaps| - s.passes <= i < |gaps| ==> Sign(gaps[i]) == s.direction)
        && LeastOfLast(s.minGap, gaps, s.passes))
  }

  /** A correction is the least of exactly the last five gaps, against their direction. */
  ghost predicate Justified(delta: int, gaps: seq<int>) {
    delta != 0 ==>
      && |gaps| >= CONFIRM_PASSES
      && LeastOfLast(Abs(delta), gaps, CONFIRM_PASSES)
      && (forall i :: |gaps| - CONFIRM_PASSES <= i < |gaps| ==> Sign(gaps[i]) == -Sign(delta))
  }

  lemma LeastExtends(m: int, gaps: seq<int>, n: nat, g: int)
    requires n <= |gaps| && LeastOfLast(m, gaps, n)
    ensures LeastOfLast(if Abs(g) < m then Abs(g) else m, gaps + [g], n + 1)
  {
    var all := gaps + [g];
    assert all[|gaps|] == g;
    if Abs(g) >= m {
      var i :| |gaps| - n <= i < |gaps| && m == Abs(gaps[i]);
      assert all[i] == gaps[i];
    }
  }

  lemma ObserveRemembers(s: Drift, gaps: seq<int>, g: int)
    requires Remembers(s, gaps)
    ensures Remembers(Observe(s, g, 0).0, gaps + [g]) && Justified(Observe(s, g, 0).1, gaps + [g])
  {
    var all := gaps + [g];
    assert all[|gaps|] == g;
    if g != 0 {
      if s.direction == Sign(g) {
        LeastExtends(s.minGap, gaps, s.passes, g);
      } else {
        assert LeastOfLast(Abs(g), all, 1);
      }
    }
  }

  /** For every sequence of samples: the state remembers the recent gaps, and a correction is
      emitted only for five gaps in a row on one side. */
  lemma {:induction false} CorrectionsAreJustified(gaps: seq<int>)
    ensures Remembers(After(gaps).0, gaps) && Justified(After(gaps).1, gaps)
  {
    hide Observe, Justified, LeastOfLast;
    if gaps != [] {
      var init, g := gaps[..|gaps| - 1], gaps[|gaps| - 1];
      assert gaps == init + [g];
      CorrectionsAreJustified(init);
      ObserveRemembers(After(init).0, init, g);
    } else {
      assert After([]) == (Calm, 0);
      NoCorrection(gaps);
    }
  }

  lemma NoCorrection(gaps: seq<int>)
    ensures Justified(0, gaps)
  {
  }

  /** The gap is all an observation sees of its two counts. */
  lemma ObserveSeesGap(s: Drift, redisCount: int, local: int)
    ensures Observe(s, redisCount, local) == Observe(s, redisCount - local, 0)
  {
  }

  /** The last `n` gaps, and no more than those, lie on one side. */
  ghost predicate Streak(gaps: seq<int>, n: nat) {
    && n <= |gaps|
    && (n == 0 ==> gaps == [] || gaps[|gaps| - 1] == 0)
    && (forall i :: |gaps| - n <= i < |gaps| ==> gaps[i] != 0 && Sign(gaps[i]) == Sign(gaps[|gaps| - 1]))
    && (0 < n < |gaps| ==> Sign(gaps[|gaps| - n - 1]) != Sign(gaps[|gaps| - 1]))
  }

  /** Every sequence of gaps ends in one streak. */
  lemma {:induction false} StreakLength(gaps: seq<int>) returns (n: nat)
    ensures Streak(gaps, n)
  {
    n := 0;
    if gaps != [] && gaps[|gaps| - 1] != 0 {
      var init := gaps[..|gaps| - 1];
      n := 1;
      if init != [] && Sign(init[|init| - 1]) == Sign(gaps[|gaps| - 1]) {
        var before := StreakLength(init);
        n := before + 1;
      }
    }
  }

  /** The tracked direction is that of the last gap. */
  lemma TrackedIsLast(gaps: seq<int>)
    ensures var state := After(gaps).0;
      state == Calm || (gaps != [] && state.direction == Sign(gaps[|gaps| - 1]) && state.minGap > 0)
  {
    CorrectionsAreJustified(gaps);
    hide After;
  }

  lemma ObserveCounts(s: Drift, g: int, n: nat)
    requires n > 0 && g != 0 && (s != Calm ==> s.minGap > 0)
    requires if n == 1 then s.direction != Sign(g) else s == Calm || s.direction == Sign(g)
    requires n > 1 ==> s.passes == (n - 1) % 5
    ensures var (state, delta) := Observe(s, g, 0);
      state.passes == n % 5 && (delta != 0 <==> n % 5 == 0) && (delta != 0 ==> Sign(delta) == -Sign(g))
  {
  }

  /** The other half: a correction is emitted exactly at every fifth gap of a streak.  It is
      the least of those five, against their direction, and never zero. */
  lemma {:induction false} EveryFifthGapCorrects(gaps: seq<int>, n: nat)
    requires Streak(gaps, n)
    ensures var (state, delta) := After(gaps);
      && state.passes == n % 5
      && (delta != 0 <==> n > 0 && n % 5 == 0)
      && (delta != 0 ==> LeastOfLast(Abs(delta), gaps, 5) && Sign(delta) == -Sign(gaps[|gaps| - 1]))
  {
    CorrectionsAreJustified(gaps);
    hide LeastOfLast, Remembers;
    if n > 0 {
      var init, g := gaps[..|gaps| - 1], gaps[|gaps| - 1];
      TrackedIsLast(init);
      if n > 1 {
        assert init[|init| - 1] == gaps[|gaps| - 2];
        EveryFifthGapCorrects(init, n - 1);
      }
      hide Observe;
      ObserveCounts(After(init).0, g, n);
    }
  }

  /** Soundness: when the gaps are a fixed drift `d` plus a transient, and the transient is
      zero at least once in the last five samples, a correction never has the wrong sign and
      never exceeds the drift; without drift there is none. */
  lemma RepairIsSound(gaps: seq<int>, d: int)
    requires |gaps| >= CONFIRM_PASSES ==> exists i :: |gaps| - CONFIRM_PASSES <= i < |gaps| && gaps[i] == d
    ensures var delta := After(gaps).1;
            delta != 0 ==> d != 0 && Sign(delta) == -Sign(d) && Abs(delta) <= Abs(d)
    ensures d == 0 ==> After(gaps).1 == 0
  {
    CorrectionsAreJustified(gaps);
  }

  // ------------------------------------------------------------------------
  // Convergence
  // ------------------------------------------------------------------------

  /** The states some sequence of samples leads to. */
  predicate WellFormed(s: Drift) {
    s == Calm || (1 <= s.passes < CONFIRM_PASSES && (s.direction == 1 || s.direction == -1) && s.minGap >= 1)
  }

  lemma ReachableIsWellFormed(gaps: seq<int>)
    ensures WellFormed(After(gaps).0)
  {
    CorrectionsAreJustified(gaps);
  }

  /** Every such state is indeed reached. */
  lemma {:induction false} WellFormedIsReachable(s: Drift) returns (gaps: seq<int>)
    requires WellFormed(s)
    ensures After(gaps).0 == s
    decreases s.passes
  {
    if s == Calm {
      gaps := [];
    } else {
      var before := if s.passes == 1 then Calm else s.(passes := s.passes - 1);
      var init := WellFormedIsReachable(before);
      gaps := init + [s.direction * s.minGap];
      assert gaps[..|init|] == init;
    }
  }

  /** One hygiene pass over one pod with a steady local count: sample, and apply the
      correction with the same script every ordinary write uses. */
  function Pass(h: Hash, g: Gateway, local: int, s: Drift): (Hash, Drift) {
    var (next, delta) := Observe(s, Field(h, g), local);
    if delta == 0 then (h, next) else (IncrDecr(h, g, delta).0, next)
  }

  /** The field and the state after `n` passes. */
  function Passes(h: Hash, g: Gateway, local: int, s: Drift, n: nat): (Hash, Drift)
    decreases n
  {
    if n == 0 then (h, s)
    else
      var (h', s') := Pass(h, g, local, s);
      Passes(h', g, local, s', n - 1)
  }

  /** What is left of the gap after one pass lies between zero and the gap. */
  lemma PassNeverOvershoots(h: Hash, g: Gateway, local: int, s: Drift)
    requires WellFormed(s) && local >= 0 && Field(h, g) >= 0
    ensures var (h', s') := Pass(h, g, local, s);
            && WellFormed(s') && Field(h', g) >= 0
            && (Field(h, g) >= local ==> local <= Field(h', g) <= Field(h, g))
            && (Field(h, g) <= local ==> Field(h, g) <= Field(h', g) <= local)
            && (Field(h, g) == local ==> h' == h && s' == Calm)
  {
  }

  /** A field that agrees with the local count is never touched again. */
  lemma {:induction false} AgreementIsStable(h: Hash, g: Gateway, local: int, s: Drift, n: nat)
    requires Field(h, g) == local
    ensures Passes(h, g, local, s, n).0 == h
    decreases n
  {
    if n > 0 {
      AgreementIsStable(h, g, local, Pass(h, g, local, s).1, n - 1);
    }
  }

  /** Over any number of passes the field moves toward the local count only, and never
      across it. */
  lemma {:induction false} RepairNeverCrosses(h: Hash, g: Gateway, local: int, s: Drift, n: nat)
    requires WellFormed(s) && local >= 0 && Field(h, g) >= 0
    ensures var f := Field(Passes(h, g, local, s, n).0, g);
            && (Field(h, g) >= local ==> local <= f <= Field(h, g))
            && (Field(h, g) <= local ==> Field(h, g) <= f <= local)
    decreases n
  {
    if n > 0 {
      PassNeverOvershoots(h, g, local, s);
      var (h', s') := Pass(h, g, local, s);
      RepairNeverCrosses(h', g, local, s', n - 1);
    }
  }

  /** From a state that already holds the exact gap, `CONFIRM_PASSES - passes` passes close it. */
  lemma {:induction false} ExactProgressCloses(h: Hash, g: Gateway, local: int, s: Drift, n: nat)
    requires WellFormed(s) && local >= 0 && Field(h, g) >= 0
    requires s == Calm || s.direction != Sign(Field(h, g) - local) || s.minGap >= Abs(Field(h, g) - local)
    requires n >= CONFIRM_PASSES - (if s.direction == Sign(Field(h, g) - local) then s.passes else 0)
    ensures Field(Passes(h, g, local, s, n).0, g) == local
    decreases CONFIRM_PASSES - (if s.direction == Sign(Field(h, g) - local) then s.passes else 0)
  {
    var (h', s') := Pass(h, g, local, s);
    if Field(h', g) == local {
      AgreementIsStable(h', g, local, s', n - 1);
    } else {
      ExactProgressCloses(h', g, local, s', n - 1);
    }
  }

  /** Convergence: with a steady local count and successful reads and writes, five passes from
      the calm state, and nine from any reachable one, bring the field to the local count. */
  lemma RepairConverges(h: Hash, g: Gateway, local: int, s: Drift, n: nat)
    requires WellFormed(s) && local >= 0 && Field(h, g) >= 0
    requires n >= if s == Calm then CONFIRM_PASSES else 2 * CONFIRM_PASSES - 1
    ensures Field(Passes(h, g, local, s, n).0, g) == local
  {
    ConvergesAfterStaleGap(h, g, local, s, n);
  }

  /** A gap remembered from before may be too small; then its correction comes first and the
      rest needs a confirmation of its own. */
  lemma {:induction false} ConvergesAfterStaleGap(h: Hash, g: Gateway, local: int, s: Drift, n: nat)
    requires WellFormed(s) && local >= 0 && Field(h, g) >= 0
    requires n >= if s == Calm then CONFIRM_PASSES else 2 * CONFIRM_PASSES - s.passes
    ensures Field(Passes(h, g, local, s, n).0, g) == local
    decreases if s == Calm then 0 else CONFIRM_PASSES - s.passes
  {
    if s == Calm || s.direction != Sign(Field(h, g) - local) || s.minGap >= Abs(Field(h, g) - local) {
      ExactProgressCloses(h, g, local, s, n);
    } else {
      var (h', s') := Pass(h, g, local, s);
      PassNeverOvershoots(h, g, local, s);
      ConvergesAfterStaleGap(h', g, local, s', n - 1);
    }
  }

  // ------------------------------------------------------------------------
  // One pass over all pods
  // ------------------------------------------------------------------------

  const READ_BATCH_SIZE: nat := 100

  type PodKey = nat

  /** What one pod's read gave: an error or an unparsable field, or a count (0 if absent). */
  datatype Reading = Unreadable | Count(n: int)

  /** One pod in a pass: its local count before and after the batch's read, and the read. */
  datatype Sample = Sample(key: PodKey, before: int, after: int, reading: Reading)

  datatype Correction = Correction(key: PodKey, delta: int)

  /** Whether the pass can compare field and local count of this pod at all. */
  predicate Observed(s: Sample, batchRead: bool) {
    batchRead && s.reading.Count? && s.before == s.after
  }

  function Progress(drift: map<PodKey, Drift>, key: PodKey): Drift {
    if key in drift then drift[key] else Calm
  }

  /** The pod's progress after the pass, and its correction: both follow from its own sample
      alone; an unobserved pod keeps the progress it had. */
  function PodPass(s: Sample, batchRead: bool, drift: map<PodKey, Drift>): (Drift, int) {
    if Observed(s, batchRead) then Observe(Progress(drift, s.key), s.reading.n, s.after)
    else (Progress(drift, s.key), 0)
  }

  predicate DistinctKeys(samples: seq<Sample>) {
    forall i, j :: 0 <= i < j < |samples| ==> samples[i].key != samples[j].key
  }

  /** Only real progress is stored. */
  predicate Stored(drift: map<PodKey, Drift>) {
    forall k :: k in drift ==> drift[k].passes > 0
  }

  /** Sample `i` asks for the correction `d` of pod `k`. */
  ghost predicate Asks(samples: seq<Sample>, batchRead: nat -> bool, drift: map<PodKey, Drift>,
                       i: int, k: PodKey, d: int)
    requires 0 <= i < |samples|
  {
    samples[i].key == k && PodPass(samples[i], batchRead(i / READ_BATCH_SIZE), drift).1 == d
  }

  /** The corrections a pass asks for, each pod at most once. */
  ghost predicate Asked(samples: seq<Sample>, batchRead: nat -> bool, drift: map<PodKey, Drift>, n: nat,
                        corrections: seq<Correction>)
    requires n <= |samples|
  {
    && (forall k, d :: Correction(k, d) in corrections <==>
          d != 0 && exists i :: 0 <= i < n && Asks(samples, batchRead, drift, i, k, d))
    && (forall i, j :: 0 <= i < j < |corrections| ==> corrections[i].key != corrections[j].key)
  }

  /** The first half of `reconcileOwnRunningRequests`: reads in batches, any of which may fail,
      and folds every pod's sample into its own progress. */
  method ObserveSamples(samples: seq<Sample>, batchRead: nat -> bool, drift: map<PodKey, Drift>)
    returns (next: map<PodKey, Drift>, corrections: seq<Correction>)
    requires DistinctKeys(samples) && Stored(drift)
    ensures forall i :: 0 <= i < |samples| ==>
              Progress(next, samples[i].key) == PodPass(samples[i], batchRead(i / READ_BATCH_SIZE), drift).0
    ensures forall k :: k in next ==> exists i :: 0 <= i < |samples| && samples[i].key == k
    ensures Stored(next)
    ensures Asked(samples, batchRead, drift, |samples|, corrections)
  {
    next, corrections := map[], [];
    var batchStart, batch := 0, 0;
    while batchStart < |samples|
      invariant batchStart == batch * READ_BATCH_SIZE
      invariant 0 <= batchStart && (batchStart <= |samples| || batchStart < |samples| + READ_BATCH_SIZE)
      invariant var n := if batchStart < |samples| then batchStart else |samples|;
        Folded(samples, batchRead, drift, n, next, corrections)
    {
      var batchEnd := batchStart + READ_BATCH_SIZE;
      if batchEnd > |samples| {
        batchEnd := |samples|;
      }
      var read := batchRead(batch);
      var i := batchStart;
      while i < batchEnd
        invariant batchStart <= i <= batchEnd
        invariant Folded(samples, batchRead, drift, i, next, corrections)
      {
        var s := samples[i];
        assert i / READ_BATCH_SIZE == batch;
        ghost var next0, corrections0 := next, corrections;
        if !Observed(s, read) {
          if s.key in drift {
            next := next[s.key := drift[s.key]];
          }
        } else {
          var (state, delta) := Observe(Progress(drift, s.key), s.reading.n, s.after);
          if delta != 0 {
            corrections := corrections + [Correction(s.key, delta)];
          } else if state.passes > 0 {
            next := next[s.key := state];
          }
        }
        FoldOne(samples, batchRead, drift, i, next0, corrections0, next, corrections);
        i := i + 1;
      }
      batchStart := batchStart + READ_BATCH_SIZE;
      batch := batch + 1;
    }
  }

  /** The first `n` samples have been folded into `next` and `corrections`, and no others. */
  ghost predicate Folded(samples: seq<Sample>, batchRead: nat -> bool, drift: map<PodKey, Drift>, n: nat,
                         next: map<PodKey, Drift>, corrections: seq<Correction>)
  {
    && n <= |samples| && FoldedProgress(samples, batchRead, drift, n, next)
    && Asked(samples, batchRead, drift, n, corrections)
  }

  ghost predicate FoldedProgress(samples: seq<Sample>, batchRead: nat -> bool, drift: map<PodKey, Drift>, n: nat,
                                 next: map<PodKey, Drift>)
    requires n <= |samples|
  {
    && Stored(next)
    && (forall i :: 0 <= i < n ==>
          Progress(next, samples[i].key) == PodPass(samples[i], batchRead(i / READ_BATCH_SIZE), drift).0)
    && (forall k :: k in next ==> exists i :: 0 <= i < n && samples[i].key == k)
  }

  lemma FoldProgress(samples: seq<Sample>, batchRead: nat -> bool, drift: map<PodKey, Drift>, i: nat,
                     next: map<PodKey, Drift>, next': map<PodKey, Drift>)
    requires DistinctKeys(samples) && Stored(drift)
    requires i < |samples| && FoldedProgress(samples, batchRead, drift, i, next)
    requires var state := PodPass(samples[i], batchRead(i / READ_BATCH_SIZE), drift).0;
      next' == if state.passes > 0 then next[samples[i].key := state] else next
    ensures FoldedProgress(samples, batchRead, drift, i + 1, next')
  {
    assert samples[i].key !in next;
    NoPassesIsCalm(samples[i], batchRead(i / READ_BATCH_SIZE), drift);
    hide PodPass;
  }

  lemma NoPassesIsCalm(s: Sample, batchRead: bool, drift: map<PodKey, Drift>)
    requires Stored(drift)
    ensures var state := PodPass(s, batchRead, drift).0; state.passes > 0 || state == Calm
  {
  }

  lemma FoldCorrections(samples: seq<Sample>, batchRead: nat -> bool, drift: map<PodKey, Drift>, i: nat,
                        corrections: seq<Correction>, corrections': seq<Correction>)
    requires DistinctKeys(samples) && i < |samples| && Asked(samples, batchRead, drift, i, corrections)
    requires var delta := PodPass(samples[i], batchRead(i / READ_BATCH_SIZE), drift).1;
      corrections' == if delta != 0 then corrections + [Correction(samples[i].key, delta)] else corrections
    ensures Asked(samples, batchRead, drift, i + 1, corrections')
  {
    hide PodPass;
    var key, delta := samples[i].key, PodPass(samples[i], batchRead(i / READ_BATCH_SIZE), drift).1;
    forall k, d
      ensures Correction(k, d) in corrections' <==>
        d != 0 && exists j :: 0 <= j < i + 1 && Asks(samples, batchRead, drift, j, k, d)
    {
      assert Asks(samples, batchRead, drift, i, k, d) <==> k == key && d == delta;
      assert Correction(k, d) in corrections' <==>
        Correction(k, d) in corrections || (delta != 0 && k == key && d == delta);
    }
    forall j | 0 <= j < |corrections|
      ensures corrections[j].key != key
    {
      assert Correction(corrections[j].key, corrections[j].delta) in corrections;
    }
  }

  lemma FoldOne(samples: seq<Sample>, batchRead: nat -> bool, drift: map<PodKey, Drift>, i: nat,
                next: map<PodKey, Drift>, corrections: seq<Correction>,
                next': map<PodKey, Drift>, corrections': seq<Correction>)
    requires DistinctKeys(samples) && Stored(drift)
    requires i < |samples| && Folded(samples, batchRead, drift, i, next, corrections)
    requires var (state, delta) := PodPass(samples[i], batchRead(i / READ_BATCH_SIZE), drift);
             && next' == (if state.passes > 0 then next[samples[i].key := state] else next)
             && corrections' == (if delta != 0 then corrections + [Correction(samples[i].key, delta)] else corrections)
    ensures Folded(samples, batchRead, drift, i + 1, next', corrections')
  {
    hide FoldedProgress, Asked, PodPass;
    FoldProgress(samples, batchRead, drift, i, next, next');
    FoldCorrections(samples, batchRead, drift, i, corrections, corrections');
  }

  // ------------------------------------------------------------------------
  // Writing the corrections
  // ------------------------------------------------------------------------

  function HashOf(hashes: map<PodKey, Hash>, key: PodKey): Hash {
    if key in hashes then hashes[key] else map[]
  }

  /** A pod's hash after a correction of `g`'s field was sent; a write may fail. */
  function Corrected(h: Hash, g: Gateway, delta: int, lands: bool): Hash {
    if delta != 0 && lands then IncrDecr(h, g, delta).0 else h
  }

  /** The second half: every correction goes out through the script ordinary writes use. */
  method WriteCorrections(hashes: map<PodKey, Hash>, g: Gateway, corrections: seq<Correction>, lands: PodKey -> bool)
    returns (written: map<PodKey, Hash>)
    requires forall i, j :: 0 <= i < j < |corrections| ==> corrections[i].key != corrections[j].key
    ensures forall i :: 0 <= i < |corrections| ==>
      var c := corrections[i];
      HashOf(written, c.key) == Corrected(HashOf(hashes, c.key), g, c.delta, lands(c.key))
    ensures forall k :: (forall i :: 0 <= i < |corrections| ==> corrections[i].key != k) ==>
      HashOf(written, k) == HashOf(hashes, k)
  {
    hide IncrDecr;
    written := hashes;
    for n := 0 to |corrections|
      invariant forall i :: 0 <= i < n ==>
        var c := corrections[i];
        HashOf(written, c.key) == Corrected(HashOf(hashes, c.key), g, c.delta, lands(c.key))
      invariant forall k :: (forall i :: 0 <= i < n ==> corrections[i].key != k) ==>
        HashOf(written, k) == HashOf(hashes, k)
    {
      var c := corrections[n];
      written := written[c.key := Corrected(HashOf(written, c.key), g, c.delta, lands(c.key))];
    }
  }

  /** `reconcileOwnRunningRequests`: what becomes of a pod's progress and hash follows from its
      own sample alone; pods without one keep their hash and lose their progress. */
  method ReconcileOwnRunningRequests(samples: seq<Sample>, batchRead: nat -> bool, drift: map<PodKey, Drift>,
                                     hashes: map<PodKey, Hash>, g: Gateway, lands: PodKey -> bool)
    returns (next: map<PodKey, Drift>, written: map<PodKey, Hash>)
    requires DistinctKeys(samples) && Stored(drift)
    ensures Stored(next)
    ensures forall i :: 0 <= i < |samples| ==>
      var s := samples[i];
      (!batchRead(i / 100) || s.reading.Unreadable? || s.before != s.after) ==>
        Progress(next, s.key) == Progress(drift, s.key) && HashOf(written, s.key) == HashOf(hashes, s.key)
    ensures forall i :: 0 <= i < |samples| ==>
      var s := samples[i];
      batchRead(i / 100) && s.reading.Count? && s.before == s.after ==>
        var (state, delta) := Observe(Progress(drift, s.key), s.reading.n, s.after);
        && Progress(next, s.key) == state
        && HashOf(written, s.key) ==
             (if delta == 0 || !lands(s.key) then HashOf(hashes, s.key)
              else IncrDecr(HashOf(hashes, s.key), g, delta).0)
    ensures forall k :: (forall i :: 0 <= i < |samples| ==> samples[i].key != k) ==>
      k !in next && HashOf(written, k) == HashOf(hashes, k)
  {
    var corrections;
    next, corrections := ObserveSamples(samples, batchRead, drift);
    written := WriteCorrections(hashes, g, corrections, lands);
    hide Observe, IncrDecr, Asked;
    forall i | 0 <= i < |samples|
      ensures var (key, pass) := (samples[i].key, PodPass(samples[i], batchRead(i / 100), drift));
        && Progress(next, key) == pass.0
        && HashOf(written, key) == Corrected(HashOf(hashes, key), g, pass.1, lands(key))
    {
      SampleIsWritten(samples, batchRead, drift, corrections, hashes, written, g, lands, i);
    }
    forall k | forall i :: 0 <= i < |samples| ==> samples[i].key != k
      ensures HashOf(written, k) == HashOf(hashes, k)
    {
      OthersAreNotAsked(samples, batchRead, drift, corrections, k);
    }
  }

  lemma OthersAreNotAsked(samples: seq<Sample>, batchRead: nat -> bool, drift: map<PodKey, Drift>,
                          corrections: seq<Correction>, k: PodKey)
    requires Asked(samples, batchRead, drift, |samples|, corrections)
    requires forall i :: 0 <= i < |samples| ==> samples[i].key != k
    ensures forall j :: 0 <= j < |corrections| ==> corrections[j].key != k
  {
    forall j | 0 <= j < |corrections|
      ensures corrections[j].key != k
    {
      assert Correction(corrections[j].key, corrections[j].delta) in corrections;
    }
  }

  lemma SampleIsWritten(samples: seq<Sample>, batchRead: nat -> bool, drift: map<PodKey, Drift>,
                        corrections: seq<Correction>, hashes: map<PodKey, Hash>, written: map<PodKey, Hash>,
                        g: Gateway, lands: PodKey -> bool, i: nat)
    requires DistinctKeys(samples) && i < |samples| && Asked(samples, batchRead, drift, |samples|, corrections)
    requires forall j :: 0 <= j < |corrections| ==>
      var c := corrections[j];
      HashOf(written, c.key) == Corrected(HashOf(hashes, c.key), g, c.delta, lands(c.key))
    requires forall k :: (forall j :: 0 <= j < |corrections| ==> corrections[j].key != k) ==>
      HashOf(written, k) == HashOf(hashes, k)
    ensures var (key, delta) := (samples[i].key, PodPass(samples[i], batchRead(i / READ_BATCH_SIZE), drift).1);
      HashOf(written, key) == Corrected(HashOf(hashes, key), g, delta, lands(key))
  {
    hide PodPass, IncrDecr;
    var key, delta := samples[i].key, PodPass(samples[i], batchRead(i / READ_BATCH_SIZE), drift).1;
    assert Asks(samples, batchRead, drift, i, key, delta);
    if delta != 0 {
      assert Correction(key, delta) in corrections;
    } else {
      forall j | 0 <= j < |corrections|
        ensures corrections[j].key != key
      {
        assert Correction(corrections[j].key, corrections[j].delta) in corrections;
      }
    }
  }

  /** A pod whose sample is good and whose write lands goes through one `Pass`, the step the
      convergence theorem is about. */
  lemma GoodSampleIsAPass(s: Sample, drift: map<PodKey, Drift>, h: Hash, g: Gateway)
    requires Observed(s, true) && s.reading == Count(Field(h, g))
    ensures var pass := PodPass(s, true, drift);
      (Corrected(h, g, pass.1, true), pass.0) == Pass(h, g, s.after, Progress(drift, s.key))
  {
  }
}
