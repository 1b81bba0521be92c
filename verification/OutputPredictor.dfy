/** The naive view of the output predictor: the plain log of everything it was ever told.

  Time is cut into moving intervals counted from the predictor's start.  A trace lands in
  the interval the predictor's head has reached once it has seen the trace's timestamp,
  so late traces land in the head's interval, not in their own.
  */
module TraceLog {

  /** The width of one slot of the rotating history, in milliseconds. */
  const MOVING_INTERVAL: int := 10_000

  /** `cnt` requests whose input and output buckets select histogram cell `idx`. */
  datatype Trace = Trace(idx: nat, cnt: int, ts: int)

  /** The interval the head has reached after the whole log: the furthest interval any
      timestamp lies in, and the start interval before that. */
  function HeadSlot(start: int, log: seq<Trace>): (slot: int)
    ensures slot >= 0
  {
    if log == [] then 0
    else
      var before := HeadSlot(start, log[..|log| - 1]);
      var own := (log[|log| - 1].ts - start) / MOVING_INTERVAL;
      if own > before then own else before
  }

  /** The head's interval is the maximum over the log, not below the start. */
  lemma {:induction false} HeadSlotIsMaximum(start: int, log: seq<Trace>)
    ensures forall n :: 0 <= n < |log| ==> (log[n].ts - start) / MOVING_INTERVAL <= HeadSlot(start, log)
    ensures HeadSlot(start, log) == 0
            || exists n :: 0 <= n < |log| && (log[n].ts - start) / MOVING_INTERVAL == HeadSlot(start, log)
  {
    if log != [] {
      var init := log[..|log| - 1];
      HeadSlotIsMaximum(start, init);
      if HeadSlot(start, init) != 0 {
        var n :| 0 <= n < |init| && (init[n].ts - start) / MOVING_INTERVAL == HeadSlot(start, init);
        assert log[n] == init[n];
      }
    }
  }

  /** How much the log adds to cell `idx` in interval `slot` alone. */
  ghost function SlotCount(start: int, log: seq<Trace>, slot: int, idx: nat): int {
    if log == [] then 0
    else
      var last := log[|log| - 1];
      SlotCount(start, log[..|log| - 1], slot, idx)
      + if last.idx == idx && HeadSlot(start, log) == slot then last.cnt else 0
  }

  /** How much the log adds to cell `idx` in interval `from` or later. */
  ghost function CountSince(start: int, log: seq<Trace>, from: int, idx: nat): int {
    if log == [] then 0
    else
      var last := log[|log| - 1];
      CountSince(start, log[..|log| - 1], from, idx)
      + if last.idx == idx && HeadSlot(start, log) >= from then last.cnt else 0
  }

  lemma Append(start: int, log: seq<Trace>, t: Trace)
    ensures HeadSlot(start, log + [t]) ==
              var own := (t.ts - start) / MOVING_INTERVAL;
              if own > HeadSlot(start, log) then own else HeadSlot(start, log)
    ensures forall s, i: nat :: SlotCount(start, log + [t], s, i)
              == SlotCount(start, log, s, i)
                 + if t.idx == i && HeadSlot(start, log + [t]) == s then t.cnt else 0
    ensures forall f, i: nat :: CountSince(start, log + [t], f, i)
              == CountSince(start, log, f, i)
                 + if t.idx == i && HeadSlot(start, log + [t]) >= f then t.cnt else 0
  {
    assert (log + [t])[..|log|] == log;
  }

  /** Intervals the head has not reached, and negative ones, hold nothing. */
  lemma {:induction false} Unreached(start: int, log: seq<Trace>, slot: int, idx: nat)
    requires slot < 0 || slot > HeadSlot(start, log)
    ensures SlotCount(start, log, slot, idx) == 0
  {
    if log != [] {
      Unreached(start, log[..|log| - 1], slot, idx);
    }
  }

  lemma {:induction false} SinceSplit(start: int, log: seq<Trace>, from: int, idx: nat)
    ensures CountSince(start, log, from, idx)
         == SlotCount(start, log, from, idx) + CountSince(start, log, from + 1, idx)
  {
    if log != [] {
      SinceSplit(start, log[..|log| - 1], from, idx);
    }
  }

  /** Empty intervals do not matter. */
  lemma {:induction false} SinceSkip(start: int, log: seq<Trace>, lo: int, hi: int, idx: nat)
    requires lo <= hi
    requires forall s :: lo <= s < hi ==> SlotCount(start, log, s, idx) == 0
    ensures CountSince(start, log, lo, idx) == CountSince(start, log, hi, idx)
    decreases hi - lo
  {
    if lo < hi {
      assert SlotCount(start, log, lo, idx) == 0;
      SinceSplit(start, log, lo, idx);
      SinceSkip(start, log, lo + 1, hi, idx);
    }
  }

  /** How much the log adds to the `width` cells from `first` on, in interval `lo` or later. */
  ghost function RangeCountSince(start: int, log: seq<Trace>, lo: int, first: nat, width: nat): int {
    if log == [] then 0
    else
      var last := log[|log| - 1];
      RangeCountSince(start, log[..|log| - 1], lo, first, width)
      + if first <= last.idx < first + width && HeadSlot(start, log) >= lo then last.cnt else 0
  }

  lemma {:induction false} RangeGrows(start: int, log: seq<Trace>, lo: int, first: nat, width: nat)
    ensures RangeCountSince(start, log, lo, first, width + 1)
         == RangeCountSince(start, log, lo, first, width) + CountSince(start, log, lo, first + width)
    ensures RangeCountSince(start, log, lo, first, 0) == 0
  {
    if log != [] {
      RangeGrows(start, log[..|log| - 1], lo, first, width);
    }
  }

  predicate NonNegativeLog(log: seq<Trace>) {
    forall n :: 0 <= n < |log| ==> log[n].cnt >= 0
  }

  lemma {:induction false} SinceNonNegative(start: int, log: seq<Trace>, lo: int, idx: nat)
    requires NonNegativeLog(log)
    ensures CountSince(start, log, lo, idx) >= 0
  {
    if log != [] {
      SinceNonNegative(start, log[..|log| - 1], lo, idx);
    }
  }
}

/** Histogram arithmetic: bucket numbers, row sums and weighted choice. */
module Histogram {

  function Pow2(k: nat): (p: nat)
    ensures p >= 1
  {
    if k == 0 then 1 else 2 * Pow2(k - 1)
  }

  /** ceil(log2(max + 1)): how many buckets token counts up to `max` need. */
  function BucketCount(max: nat, k: nat := 0): (r: nat)
    requires k == 0 || Pow2(k - 1) < max + 1
    ensures Pow2(r) >= max + 1 && (r == 0 || Pow2(r - 1) < max + 1)
    decreases max + 1 - Pow2(k)
  {
    if Pow2(k) >= max + 1 then k else BucketCount(max, k + 1)
  }

  /** round(log2(tokens)), computed in integers: the `k` with 2^(k-1/2) <= tokens < 2^(k+1/2). */
  function RoundLog2(tokens: nat, k: nat := 0): (r: nat)
    requires tokens > 0
    requires k == 0 || Pow2(2 * k - 1) <= tokens * tokens
    ensures tokens * tokens < Pow2(2 * r + 1) && (r == 0 || Pow2(2 * r - 1) <= tokens * tokens)
    decreases tokens * tokens - Pow2(2 * k)
  {
    if tokens * tokens < Pow2(2 * k + 1) then k
    else
      assert Pow2(2 * k + 2) == 2 * Pow2(2 * k + 1) && Pow2(2 * k + 1) == 2 * Pow2(2 * k);
      RoundLog2(tokens, k + 1)
  }

  function Token2Bucket(tokens: int, limit: nat): (b: nat)
    requires limit > 0
    ensures b < limit && (tokens <= 0 ==> b == 0)
  {
    var bucket := if tokens > 0 then RoundLog2(tokens) else 0;
    if bucket >= limit then limit - 1 else bucket
  }

  lemma {:induction false} Pow2Monotone(a: nat, b: nat)
    requires a <= b
    ensures Pow2(a) <= Pow2(b)
    decreases b
  {
    if a < b {
      Pow2Monotone(a, b - 1);
    }
  }

  lemma {:induction false} Pow2Injective(a: nat, b: nat)
    requires Pow2(a) == Pow2(b)
    ensures a == b
  {
    if a < b {
      Pow2Monotone(a, b - 1);
    } else if b < a {
      Pow2Monotone(b, a - 1);
    }
  }

  /** A positive token count lies between 2^(b-1/2) and 2^(b+1/2) for its bucket `b`; the last
      bucket is open above. */
  lemma BucketRounds(tokens: nat, limit: nat)
    requires limit > 0 && tokens > 0
    ensures var b := Token2Bucket(tokens, limit);
      && (b == 0 || Pow2(2 * b - 1) <= tokens * tokens)
      && (b < limit - 1 ==> tokens * tokens < Pow2(2 * b + 1))
  {
    var r, b := RoundLog2(tokens), Token2Bucket(tokens, limit);
    hide Pow2, RoundLog2;
    if b > 0 {
      Pow2Monotone(2 * b - 1, 2 * r - 1);
    }
  }

  ghost function Sum(s: seq<int>): int {
    if s == [] then 0 else Sum(s[..|s| - 1]) + s[|s| - 1]
  }

  lemma SumSnoc(s: seq<int>, k: nat)
    requires k < |s|
    ensures Sum(s[..k + 1]) == Sum(s[..k]) + s[k]
  {
    assert s[..k + 1][..k] == s[..k];
  }

  lemma {:induction false} SumUpdate(s: seq<int>, i: nat, v: int)
    requires i < |s|
    ensures Sum(s[i := v]) == Sum(s) - s[i] + v
  {
    var last := |s| - 1;
    if i == last {
      assert s[i := v][..last] == s[..last];
    } else {
      assert s[i := v][..last] == s[..last][i := v];
      SumUpdate(s[..last], i, v);
    }
  }

  lemma {:induction false} SumZeros(s: seq<int>)
    requires forall i :: 0 <= i < |s| ==> s[i] == 0
    ensures Sum(s) == 0
  {
    if s != [] {
      SumZeros(s[..|s| - 1]);
    }
  }

  lemma {:induction false} SumMonotone(s: seq<int>, j: nat, k: nat)
    requires j <= k <= |s| && NonNegative(s)
    ensures 0 <= Sum(s[..j]) <= Sum(s[..k])
    decreases k
  {
    if k > 0 {
      SumSnoc(s, k - 1);
      SumMonotone(s, if j < k then j else k - 1, k - 1);
      if j == k {
        SumSnoc(s, k - 1);
      }
    }
  }

  // ------------------------------------------------------------------------
  // Row sums
  // ------------------------------------------------------------------------

  lemma {:induction false} RowsApart(a: nat, b: nat, width: nat)
    requires a < b
    ensures a * width + width <= b * width
  {
    assert b * width == (b - 1) * width + width;
    if a < b - 1 {
      RowsApart(a, b - 1, width);
    }
  }

  /** Where entry `k` of row `b` of a table stored row after row is. */
  function CellIndex(b: nat, k: nat, width: nat): nat {
    b * width + k
  }

  /** Row `b` of a table stored row after row. */
  ghost function Row(cells: seq<int>, b: nat, width: nat): seq<int>
    requires b * width + width <= |cells|
  {
    cells[b * width..b * width + width]
  }

  /** `sums` holds the sum of every row. */
  ghost predicate SumsMatch(sums: seq<int>, cells: seq<int>, width: nat) {
    && |cells| == |sums| * width
    && (forall b :: 0 <= b < |sums| ==> b * width + width <= |cells|)
    && (forall b :: 0 <= b < |sums| ==> sums[b] == Sum(Row(cells, b, width)))
  }

  /** Adding the same amount to a cell and to its row's sum keeps the sums right. */
  lemma SumsMatchStep(sums: seq<int>, cells: seq<int>, width: nat, b: nat, k: nat, d: int)
    requires SumsMatch(sums, cells, width) && b < |sums| && k < width
    requires b * width + k < |cells|
    ensures SumsMatch(sums[b := sums[b] + d], cells[b * width + k := cells[b * width + k] + d], width)
  {
    var i := b * width + k;
    var cells' := cells[i := cells[i] + d];
    forall c | 0 <= c < |sums|
      ensures Sum(Row(cells', c, width)) == sums[b := sums[b] + d][c]
    {
      SumsMatchRow(sums, cells, width, b, k, d, c);
    }
    hide Sum, Row;
  }

  lemma SumsMatchRow(sums: seq<int>, cells: seq<int>, width: nat, b: nat, k: nat, d: int, c: nat)
    requires SumsMatch(sums, cells, width) && b < |sums| && k < width && c < |sums|
    requires b * width + k < |cells|
    ensures var cells' := cells[b * width + k := cells[b * width + k] + d];
      Sum(Row(cells', c, width)) == sums[b := sums[b] + d][c]
  {
    var i, lo := b * width + k, c * width;
    if c == b {
      SliceUpdated(cells, lo, width, k, cells[i] + d);
      SumUpdate(Row(cells, b, width), k, cells[i] + d);
    } else {
      if c < b { RowsApart(c, b, width); } else { RowsApart(b, c, width); }
      SliceElsewhere(cells, lo, width, i, cells[i] + d);
    }
    hide Sum;
  }

  lemma SliceUpdated(cells: seq<int>, lo: nat, width: nat, k: nat, v: int)
    requires lo + width <= |cells| && k < width
    ensures cells[lo + k := v][lo..lo + width] == cells[lo..lo + width][k := v]
  {
  }

  lemma SliceElsewhere(cells: seq<int>, lo: nat, width: nat, i: nat, v: int)
    requires lo + width <= |cells| && i < |cells| && !(lo <= i < lo + width)
    ensures cells[i := v][lo..lo + width] == cells[lo..lo + width]
  {
  }

  lemma SumsMatchZero(sums: seq<int>, cells: seq<int>, width: nat)
    requires |cells| == |sums| * width
    requires forall i :: 0 <= i < |cells| ==> cells[i] == 0
    requires forall b :: 0 <= b < |sums| ==> sums[b] == 0
    ensures SumsMatch(sums, cells, width)
  {
    forall b | 0 <= b < |sums| ensures b * width + width <= |cells| && Sum(Row(cells, b, width)) == 0 {
      RowsApart(b, |sums|, width);
      SumZeros(Row(cells, b, width));
    }
  }

  // ------------------------------------------------------------------------
  // Weighted choice
  // ------------------------------------------------------------------------

  /** The bucket a cursor falls into when bucket `k` owns `row[k]` consecutive cursors. */
  function Choose(row: seq<int>, cursor: int): nat {
    if row == [] || cursor < row[0] then 0
    else 1 + Choose(row[1..], cursor - row[0])
  }

  predicate NonNegative(row: seq<int>) {
    forall i :: 0 <= i < |row| ==> row[i] >= 0
  }

  lemma {:induction false} SumCons(row: seq<int>)
    requires row != []
    ensures Sum(row) == row[0] + Sum(row[1..])
  {
    if |row| > 1 {
      SumCons(row[..|row| - 1]);
      assert row[..|row| - 1][1..] == row[1..][..|row| - 2];
    }
  }

  /** The chosen bucket is the one whose cumulative range holds the cursor. */
  lemma {:induction false} ChooseIsCumulative(row: seq<int>, cursor: int)
    requires NonNegative(row)
    requires 0 <= cursor < Sum(row)
    ensures var k := Choose(row, cursor);
            k < |row| && Sum(row[..k]) <= cursor < Sum(row[..k + 1])
  {
    var k := Choose(row, cursor);
    SumCons(row);
    if cursor < row[0] {
      assert row[..1] == [row[0]];
      SumCons(row[..1]);
    } else {
      ChooseIsCumulative(row[1..], cursor - row[0]);
      SumCons(row[..k + 1]);
      assert row[..k + 1][1..] == row[1..][..k];
      SumCons(row[..k]);
      assert row[..k][1..] == row[1..][..k - 1];
    }
  }

  /** Only one bucket's cumulative range holds a cursor. */
  lemma CumulativeIsChoose(row: seq<int>, cursor: int, k: nat)
    requires NonNegative(row)
    requires k < |row| && Sum(row[..k]) <= cursor < Sum(row[..k + 1])
    ensures 0 <= cursor < Sum(row) && Choose(row, cursor) == k
  {
    SumMonotone(row, 0, k);
    SumMonotone(row, k + 1, |row|);
    assert row[..|row|] == row && row[..0] == [];
    ChooseIsCumulative(row, cursor);
    var c := Choose(row, cursor);
    if c < k { SumMonotone(row, c + 1, k); }
    if k < c { SumMonotone(row, k + 1, c); }
  }

  lemma {:induction false} IntervalSize(lo: int, hi: int, s: set<int>)
    requires lo <= hi
    requires forall c :: c in s <==> lo <= c < hi
    ensures |s| == hi - lo
    decreases hi - lo
  {
    if lo < hi {
      IntervalSize(lo + 1, hi, s - {lo});
    } else {
      assert s == {};
    }
  }

  /** Exactly `row[k]` of the `Sum(row)` equally likely cursors choose bucket `k`. */
  lemma ChooseIsWeighted(row: seq<int>, k: nat, chosen: set<int>)
    requires NonNegative(row)
    requires k < |row|
    requires forall c :: c in chosen <==> 0 <= c < Sum(row) && Choose(row, c) == k
    ensures |chosen| == row[k]
  {
    SumSnoc(row, k);
    forall c ensures c in chosen <==> Sum(row[..k]) <= c < Sum(row[..k + 1]) {
      if c in chosen { ChooseIsCumulative(row, c); }
      if Sum(row[..k]) <= c < Sum(row[..k + 1]) { CumulativeIsChoose(row, c, k); }
    }
    IntervalSize(Sum(row[..k]), Sum(row[..k + 1]), chosen);
  }
}

/** The rotating-window output predictor.

  A ring of histograms, one per moving interval that saw traffic, with the sums over the
  ring maintained incrementally.  The ghost field `log` is everything ever added;
  `Valid` ties the ring and its sums to the naive counts over that log.
  */
module OutputPredictor {
  import opened TraceLog
  import opened Histogram

  // ------------------------------------------------------------------------
  // Ring positions
  // ------------------------------------------------------------------------

  /** How far ring row `r` is past the tail. */
  function Offset(r: nat, tail: nat, rows: nat): nat
    requires r < rows && tail < rows
  {
    if r >= tail then r - tail else r + rows - tail
  }

  /** The interval ring row `r` holds, given the intervals `live` from tail to head;
      -1 for a row outside that range. */
  function Owner(r: nat, tail: nat, rows: nat, live: seq<int>): int
    requires r < rows && tail < rows
  {
    if Offset(r, tail, rows) < |live| then live[Offset(r, tail, rows)] else -1
  }

  ghost predicate Increasing(live: seq<int>) {
    forall j, k :: 0 <= j < k < |live| ==> live[j] < live[k]
  }

  /** Increasing intervals spread at least as wide as there are of them. */
  lemma {:induction false} Spread(live: seq<int>)
    requires Increasing(live) && |live| >= 1
    ensures |live| - 1 <= live[|live| - 1] - live[0]
  {
    if |live| > 1 {
      Spread(live[..|live| - 1]);
    }
  }

  lemma NextRow(r: nat, rows: nat)
    requires r < rows
    ensures (r + 1) % rows == if r + 1 == rows then 0 else r + 1
  {
  }

  /** Cells that count single entries add up to what counts their range. */
  lemma {:induction false} PrefixIsRange(row: seq<int>, start: int, log: seq<Trace>, lo: int, first: nat, k: nat)
    requires k <= |row| && forall j :: 0 <= j < |row| ==> row[j] == CountSince(start, log, lo, first + j)
    ensures Sum(row[..k]) == RangeCountSince(start, log, lo, first, k)
  {
    hide CountSince, RangeCountSince;
    if k == 0 {
      RangeGrows(start, log, lo, first, 0);
    } else {
      PrefixIsRange(row, start, log, lo, first, k - 1);
      SumSnoc(row, k - 1);
      RangeGrows(start, log, lo, first, k - 1);
    }
  }

  // ------------------------------------------------------------------------
  // What was reported, and what of it is still in the window
  // ------------------------------------------------------------------------

  datatype Sample = Sample(inputTokens: int, outputTokens: int, cnt: int, ts: int)

  /** The latest interval of ten seconds any of the first `n` timestamps lies in, counted from
      `now`, and zero if all are earlier. */
  function Latest(now: int, samples: seq<Sample>, n: nat): (latest: int)
    requires n <= |samples|
    ensures latest >= 0 && forall m :: 0 <= m < n ==> (samples[m].ts - now) / 10_000 <= latest
    ensures latest == 0 || exists m :: 0 <= m < n && (samples[m].ts - now) / 10_000 == latest
  {
    if n == 0 then 0
    else
      var before, own := Latest(now, samples, n - 1), (samples[n - 1].ts - now) / 10_000;
      if own > before then own else before
  }

  /** Sample `n` counts for interval `from` or a later one: it, or one before it, is that
      late. */
  ghost predicate LandsSince(now: int, samples: seq<Sample>, n: nat, from: int)
    requires n < |samples|
  {
    from <= 0 || exists m :: 0 <= m <= n && (samples[m].ts - now) / 10_000 >= from
  }

  /** How many of the first `n` requests counted since `from` have input bucket `b` of `ib`. */
  ghost function InputsSince(now: int, samples: seq<Sample>, from: int, n: nat, b: nat, ib: nat): int
    requires n <= |samples| && ib > 0
  {
    if n == 0 then 0
    else
      var s := samples[n - 1];
      InputsSince(now, samples, from, n - 1, b, ib)
      + if Token2Bucket(s.inputTokens, ib) == b && LandsSince(now, samples, n - 1, from) then s.cnt else 0
  }

  /** And how many of those have output bucket `k` of `ob`. */
  ghost function RequestsSince(now: int, samples: seq<Sample>, from: int, n: nat, b: nat, ib: nat, k: nat, ob: nat): int
    requires n <= |samples| && ib > 0 && ob > 0
  {
    if n == 0 then 0
    else
      var s := samples[n - 1];
      RequestsSince(now, samples, from, n - 1, b, ib, k, ob)
      + if Token2Bucket(s.inputTokens, ib) == b && Token2Bucket(s.outputTokens, ob) == k
           && LandsSince(now, samples, n - 1, from) then s.cnt else 0
  }

  /** The log holds the samples, each under the cell of its two buckets. */
  ghost predicate Tracks(log: seq<Trace>, samples: seq<Sample>, ib: nat, ob: nat)
    requires ib > 0 && ob > 0
  {
    && |log| == |samples|
    && forall n :: 0 <= n < |samples| ==>
         var s := samples[n];
         log[n] == Trace(CellIndex(Token2Bucket(s.inputTokens, ib), Token2Bucket(s.outputTokens, ob), ob), s.cnt, s.ts)
  }

  lemma IntervalsInPeriod(period: nat)
    ensures period / MOVING_INTERVAL + (if period % MOVING_INTERVAL > 0 then 1 else 0) == (period + 9_999) / 10_000
  {
  }

  lemma StartTracking(ib: nat, ob: nat)
    requires ib > 0 && ob > 0
    ensures Tracks([], [], ib, ob)
  {
  }

  lemma TrackNext(log: seq<Trace>, samples: seq<Sample>, n: nat, ib: nat, ob: nat)
    requires ib > 0 && ob > 0 && n < |samples| && Tracks(log, samples[..n], ib, ob)
    ensures var s := samples[n];
      var t := Trace(CellIndex(Token2Bucket(s.inputTokens, ib), Token2Bucket(s.outputTokens, ob), ob), s.cnt, s.ts);
      Tracks(log + [t], samples[..n + 1], ib, ob)
  {
    assert samples[..n + 1] == samples[..n] + [samples[n]];
    hide Token2Bucket;
  }

  lemma {:induction false} HeadIsLatest(now: int, log: seq<Trace>, samples: seq<Sample>, n: nat)
    requires n <= |log| == |samples| && forall m :: 0 <= m < |log| ==> log[m].ts == samples[m].ts
    ensures HeadSlot(now, log[..n]) == Latest(now, samples, n)
  {
    if n > 0 {
      HeadIsLatest(now, log, samples, n - 1);
      assert log[..n][..n - 1] == log[..n - 1];
    }
  }

  /** A cell's row and place in the row can be read off its index. */
  lemma CellIsPair(b: nat, k: nat, b': nat, k': nat, ob: nat)
    requires k < ob && k' < ob
    ensures CellIndex(b, k, ob) == CellIndex(b', k', ob) <==> b == b' && k == k'
    ensures CellIndex(b', 0, ob) <= CellIndex(b, k, ob) < CellIndex(b', 0, ob) + ob <==> b == b'
  {
    if b < b' { RowsApart(b, b', ob); }
    if b' < b { RowsApart(b', b, ob); }
  }

  lemma {:induction false} CellsCountRequests(now: int, log: seq<Trace>, samples: seq<Sample>, from: int, n: nat,
                                              b: nat, ib: nat, k: nat, ob: nat)
    requires b < ib && k < ob && n <= |samples| && Tracks(log, samples, ib, ob)
    ensures CountSince(now, log[..n], from, CellIndex(b, k, ob)) == RequestsSince(now, samples, from, n, b, ib, k, ob)
  {
    if n > 0 {
      CellsCountRequests(now, log, samples, from, n - 1, b, ib, k, ob);
      assert log[..n][..n - 1] == log[..n - 1];
      HeadIsLatest(now, log, samples, n);
      hide HeadSlot, Token2Bucket, CellIndex;
      var s := samples[n - 1];
      CellIsPair(Token2Bucket(s.inputTokens, ib), Token2Bucket(s.outputTokens, ob), b, k, ob);
    }
  }

  lemma {:induction false} RowsCountInputs(now: int, log: seq<Trace>, samples: seq<Sample>, from: int, n: nat,
                                           b: nat, ib: nat, ob: nat)
    requires b < ib && ob > 0 && n <= |samples| && Tracks(log, samples, ib, ob)
    ensures RangeCountSince(now, log[..n], from, CellIndex(b, 0, ob), ob) == InputsSince(now, samples, from, n, b, ib)
  {
    if n > 0 {
      RowsCountInputs(now, log, samples, from, n - 1, b, ib, ob);
      assert log[..n][..n - 1] == log[..n - 1];
      HeadIsLatest(now, log, samples, n);
      hide HeadSlot, Token2Bucket, CellIndex;
      var s := samples[n - 1];
      CellIsPair(Token2Bucket(s.inputTokens, ib), Token2Bucket(s.outputTokens, ob), b, 0, ob);
    }
  }

  // ------------------------------------------------------------------------
  // Why the window has to be positive
  // ------------------------------------------------------------------------

  /** The ring's bookkeeping: the tail, the size, and every row's count of skipped intervals. */
  datatype Ring = Ring(tail: nat, size: int, skips: seq<int>)

  /** What `resetTail` does to it. */
  function Evicted(r: Ring): Ring
    requires r.tail < |r.skips|
  {
    var skips, tail := r.skips[r.tail := 0], (r.tail + 1) % |r.skips|;
    Ring(tail, r.size - skips[tail], skips)
  }

  function EvictedTimes(r: Ring, n: nat): (e: Ring)
    requires r.tail < |r.skips|
    ensures e.tail < |e.skips| == |r.skips|
    decreases n
  {
    if n == 0 then r else Evicted(EvictedTimes(r, n - 1))
  }

  /** With a window of zero there is one row, and evicting it any number of times leaves the
      size where it was, at or above the zero the source waits for it to drop below. */
  lemma {:induction false} ZeroWindowNeverSettles(r: Ring, n: nat)
    requires |r.skips| == 1 && r.tail == 0 && r.size >= 0
    ensures EvictedTimes(r, n).size == r.size >= |EvictedTimes(r, n).skips| - 1
  {
    if n > 0 {
      ZeroWindowNeverSettles(r, n - 1);
    }
  }

  class SimpleOutputPredictor {
    const inputBuckets: nat
    const outputBuckets: nat
    const cells: nat
    const rows: nat
    // Row r of the history: `cells` histogram cells and then the skip count.
    const window: array2<int>
    const inputs: array<int>
    const inputsSums: array<int>
    var head: nat
    var tail: nat
    var headTimestamp: int
    var size: int

    ghost const start: int
    ghost var log: seq<Trace>
    ghost var headSlot: int
    // The intervals held by the rows from tail to head.
    ghost var live: seq<int>

    ghost predicate Shape()
      reads this
    {
      && rows >= 2 && outputBuckets >= 1 && inputBuckets >= 1 && cells == inputBuckets * outputBuckets
      && window.Length0 == rows && window.Length1 == cells + 1
      && inputs.Length == cells && inputsSums.Length == inputBuckets && inputs != inputsSums
    }

    /** `NewSimpleOutputPredictor` at time `now`, for a `period` in milliseconds: ready for traces
        if the period and both token limits are positive. */
    constructor (maxInputTokens: nat, maxOutputTokens: nat, period: nat, now: int)
      ensures period > 0 && maxInputTokens > 0 && maxOutputTokens > 0 ==> Valid()
      ensures log == [] && start == now
      ensures fresh(window) && fresh(inputs) && fresh(inputsSums)
      ensures rows - 1 == period / MOVING_INTERVAL + (if period % MOVING_INTERVAL > 0 then 1 else 0)
      ensures inputBuckets == BucketCount(maxInputTokens) && outputBuckets == BucketCount(maxOutputTokens)
    {
      var extraSlot := 1;
      if period % MOVING_INTERVAL > 0 {
        extraSlot := extraSlot + 1;
      }
      var ib, ob := BucketCount(maxInputTokens), BucketCount(maxOutputTokens);
      inputBuckets, outputBuckets, cells := ib, ob, ib * ob;
      rows := period / MOVING_INTERVAL + extraSlot;
      window := new int[period / MOVING_INTERVAL + extraSlot, ib * ob + 1]((i, j) => 0);
      inputs := new int[ib * ob](i => 0);
      inputsSums := new int[ib](i => 0);
      head, tail, headTimestamp, size := 0, 0, now, 0;
      start, log, headSlot, live := now, [], 0, [0];
      new;
      SumsMatchZero(inputsSums[..], inputs[..], ob);
    }

    // ----------------------------------------------------------------------
    // The invariant
    // ----------------------------------------------------------------------

    /** The rows from tail to head hold increasing intervals, the last one the head's, and
        `size` is the distance from the tail's interval to the head's. */
    ghost predicate RingOk()
      reads this
    {
      && head < rows && tail < rows && 1 <= |live| <= rows
      && Offset(head, tail, rows) == |live| - 1
      && Increasing(live) && live[0] >= 0 && live[|live| - 1] == headSlot
      && size == headSlot - live[0]
      && headSlot >= HeadSlot(start, log)
      && headTimestamp == start + headSlot * MOVING_INTERVAL
    }

    /** Every cell of every row counts what the log holds for the row's interval; rows
        outside the ring are all zero. */
    ghost predicate CellsOk()
      requires Shape() && tail < rows
      reads this, window
    {
      forall r, i :: 0 <= r < rows && 0 <= i < cells ==>
        window[r, i] == SlotCount(start, log, Owner(r, tail, rows, live), i)
    }

    /** A row's skip count is its distance from the previous row's interval. */
    ghost predicate SkipsOk()
      requires Shape() && tail < rows
      reads this, window
    {
      forall r :: 0 <= r < rows && 0 < Offset(r, tail, rows) < |live| ==>
        window[r, cells] == live[Offset(r, tail, rows)] - live[Offset(r, tail, rows) - 1]
    }

    /** The sums cover exactly the intervals from the tail's on. */
    ghost predicate SumsOk()
      requires Shape() && |live| >= 1
      reads this, inputs, inputsSums
    {
      && SumsMatch(inputsSums[..], inputs[..], outputBuckets)
      && (forall i :: 0 <= i < cells ==> inputs[i] == CountSince(start, log, live[0], i))
    }

    /** Nothing was logged in an interval no row holds, unless it has left the window. */
    ghost predicate GapsOk()
      requires |live| >= 1
      reads this
    {
      forall s, i: nat :: s > headSlot - (rows - 1) || s >= live[0] ==>
        s in live || SlotCount(start, log, s, i) == 0
    }

    ghost predicate History()
      reads this, window, inputs, inputsSums
    {
      Shape() && RingOk() && CellsOk() && SkipsOk() && SumsOk() && GapsOk()
    }

    ghost predicate Valid()
      reads this, window, inputs, inputsSums
    {
      History() && size < rows - 1 && headSlot == HeadSlot(start, log)
    }

    /** The naive reading: every cell equals the count, over the full log, of what was added
        in the last `rows - 1` intervals up to the head's. */
    lemma WindowIsNaive(i: nat)
      requires Valid() && i < cells
      ensures inputs[i] == CountSince(start, log, HeadSlot(start, log) - (rows - 1) + 1, i)
    {
      SinceSkip(start, log, headSlot - (rows - 1) + 1, live[0], i);
    }

    /** Likewise every row sum counts what was added to any cell of the row. */
    lemma RowWindowIsNaive(b: nat)
      requires Valid() && b < inputBuckets
      ensures inputsSums[b] == RangeCountSince(start, log, HeadSlot(start, log) - (rows - 1) + 1,
                                               CellIndex(b, 0, outputBuckets), outputBuckets)
    {
      RowsApart(b, inputBuckets, outputBuckets);
      var row, lo := Row(inputs[..], b, outputBuckets), HeadSlot(start, log) - (rows - 1) + 1;
      forall k | 0 <= k < outputBuckets
        ensures row[k] == CountSince(start, log, lo, b * outputBuckets + k)
      {
        WindowIsNaive(b * outputBuckets + k);
      }
      assert inputsSums[b] == Sum(row);
      hide Valid, Row;
      PrefixIsRange(row, start, log, lo, b * outputBuckets, outputBuckets);
      assert row[..outputBuckets] == row;
    }

    /** `outputDistribution.reset` on one row: takes the row out of the sums and clears it. */
    method Reset(row: nat)
      requires Shape() && row < rows && SumsMatch(inputsSums[..], inputs[..], outputBuckets)
      modifies window, inputs, inputsSums
      ensures SumsMatch(inputsSums[..], inputs[..], outputBuckets)
      ensures forall i :: 0 <= i <= cells ==> window[row, i] == 0
      ensures forall r, i :: 0 <= r < rows && 0 <= i <= cells && r != row ==> window[r, i] == old(window[r, i])
      ensures forall i :: 0 <= i < cells ==> inputs[i] == old(inputs[i]) - old(window[row, i])
    {
      hide SumsMatch;
      var inputBucket, leftOutputBucket := 0, outputBuckets;
      var i := 0;
      while i < cells
        invariant 0 <= i <= cells && 1 <= leftOutputBucket <= outputBuckets
        invariant i == inputBucket * outputBuckets + (outputBuckets - leftOutputBucket)
        invariant SumsMatch(inputsSums[..], inputs[..], outputBuckets)
        invariant forall k :: 0 <= k < i ==> window[row, k] == 0
        invariant forall k :: i <= k <= cells ==> window[row, k] == old(window[row, k])
        invariant forall r, k :: 0 <= r < rows && 0 <= k <= cells && r != row ==> window[r, k] == old(window[r, k])
        invariant forall k :: 0 <= k < i ==> inputs[k] == old(inputs[k]) - old(window[row, k])
        invariant forall k :: i <= k < cells ==> inputs[k] == old(inputs[k])
      {
        BucketInRange(inputBucket, i);
        SubtractCell(inputBucket, outputBuckets - leftOutputBucket, window[row, i]);
        window[row, i] := 0;
        leftOutputBucket := leftOutputBucket - 1;
        i := i + 1;
        if leftOutputBucket == 0 {
          inputBucket := inputBucket + 1;
          leftOutputBucket := outputBuckets;
        }
      }
      window[row, i] := 0;
    }

    lemma BucketInRange(b: nat, i: nat)
      requires Shape() && b * outputBuckets <= i < cells
      ensures b < inputBuckets
    {
      if b > inputBuckets { RowsApart(inputBuckets, b, outputBuckets); }
    }

    /** Takes `amount` out of cell `k` of row `b` and out of the row's sum. */
    method SubtractCell(b: nat, k: nat, amount: int)
      requires Shape() && b < inputBuckets && k < outputBuckets && b * outputBuckets + k < cells
      requires SumsMatch(inputsSums[..], inputs[..], outputBuckets)
      modifies inputs, inputsSums
      ensures SumsMatch(inputsSums[..], inputs[..], outputBuckets)
      ensures inputs[..] == old(inputs[..])[b * outputBuckets + k := old(inputs[b * outputBuckets + k]) - amount]
      ensures inputsSums[..] == old(inputsSums[..])[b := old(inputsSums[b]) - amount]
    {
      hide SumsMatch;
      ghost var sums, cells' := inputsSums[..], inputs[..];
      var i := b * outputBuckets + k;
      inputsSums[b] := inputsSums[b] - amount;
      inputs[i] := inputs[i] - amount;
      assert inputsSums[..] == sums[b := sums[b] - amount];
      assert inputs[..] == cells'[i := cells'[i] - amount];
      SumsMatchStep(sums, cells', outputBuckets, b, k, -amount);
    }

    // ----------------------------------------------------------------------
    // Rotation
    // ----------------------------------------------------------------------

    /** The state just after the head moved onto the next row for `forwarded` intervals. */
    twostate predicate Pushed(forwarded: int)
      reads this, window
    {
      && old(Valid()) && forwarded >= 1
      && unchanged(`tail, `log)
      && head == (if old(head) + 1 == rows then 0 else old(head) + 1)
      && headTimestamp == old(headTimestamp) + forwarded * MOVING_INTERVAL
      && size == old(size) + forwarded
      && headSlot == old(headSlot) + forwarded && live == old(live) + [headSlot]
      && window[head, cells] == forwarded
      && (forall r, i :: 0 <= r < rows && 0 <= i <= cells && (r != head || i != cells) ==>
            window[r, i] == old(window[r, i]))
    }

    twostate lemma PushKeepsRing(new forwarded: int)
      requires Pushed(forwarded)
      ensures RingOk() && |old(live)| < rows && Offset(head, tail, rows) == |old(live)|
    {
      Spread(old(live));
    }

    twostate lemma PushKeepsCells(new forwarded: int)
      requires Pushed(forwarded) && RingOk() && Offset(head, tail, rows) == |old(live)|
      ensures CellsOk()
    {
      forall r, i | 0 <= r < rows && 0 <= i < cells
        ensures window[r, i] == SlotCount(start, log, Owner(r, tail, rows, live), i)
      {
        assert window[r, i] == old(window[r, i]);
        if r == head {
          Unreached(start, log, headSlot, i);
          Unreached(start, log, -1, i);
        } else {
          assert Owner(r, tail, rows, live) == Owner(r, tail, rows, old(live));
        }
      }
    }

    twostate lemma PushKeepsSkips(new forwarded: int)
      requires Pushed(forwarded) && RingOk() && Offset(head, tail, rows) == |old(live)|
      ensures SkipsOk() && GapsOk()
    {
    }

    /** `forwardLocked`: moves the head to the interval `ts` lies in, if that is a later one,
        onto a row that is already clear. */
    method ForwardLocked(ts: int) returns (forwarded: int)
      requires Valid()
      modifies `head, `headTimestamp, `size, `headSlot, `live, window
      ensures History()
      ensures forwarded == headSlot - old(headSlot) >= 0
      ensures headSlot == var own := (ts - start) / MOVING_INTERVAL; if own > old(headSlot) then own else old(headSlot)
      ensures forwarded == 0 ==> size == old(size)
    {
      hide RingOk, CellsOk, SkipsOk, SumsOk, GapsOk;
      HeadTime();
      if ts - headTimestamp < MOVING_INTERVAL {
        return 0;
      }
      var newHeadTimestamp;
      forwarded, newHeadTimestamp := IntervalsUntil(ts);
      NextRow(head, rows);
      head := (head + 1) % rows;
      headTimestamp := newHeadTimestamp;
      window[head, cells] := forwarded;
      size := size + forwarded;
      headSlot := headSlot + forwarded;
      live := live + [headSlot];
      assert Pushed(forwarded);
      PushKeepsRing(forwarded);
      PushKeepsCells(forwarded);
      PushKeepsSkips(forwarded);
      PushKeepsSums(forwarded);
    }

    twostate lemma PushKeepsSums(new forwarded: int)
      requires Pushed(forwarded) && unchanged(inputs, inputsSums)
      ensures SumsOk()
    {
      hide SumsMatch;
      assert inputs[..] == old(inputs[..]) && inputsSums[..] == old(inputsSums[..]);
    }

    lemma HeadTime()
      requires History()
      ensures head < rows && headTimestamp == start + headSlot * MOVING_INTERVAL
    {
    }

    /** How many whole intervals `ts` lies after the head's start, and where that leads. */
    method IntervalsUntil(ts: int) returns (forwarded: int, newHeadTimestamp: int)
      requires ts - headTimestamp >= MOVING_INTERVAL
      ensures forwarded >= 1 && newHeadTimestamp == headTimestamp + forwarded * MOVING_INTERVAL
      ensures newHeadTimestamp <= ts < newHeadTimestamp + MOVING_INTERVAL
    {
      forwarded, newHeadTimestamp := 0, headTimestamp;
      while ts - newHeadTimestamp >= MOVING_INTERVAL
        invariant newHeadTimestamp == headTimestamp + forwarded * MOVING_INTERVAL
        invariant 0 <= forwarded && newHeadTimestamp <= ts
        decreases ts - newHeadTimestamp
      {
        forwarded := forwarded + 1;
        newHeadTimestamp := newHeadTimestamp + MOVING_INTERVAL;
      }
    }

    /** The state just after the tail's row was cleared and the tail moved on. */
    twostate predicate Popped()
      reads this, window, inputs
    {
      && old(History()) && |old(live)| >= 2
      && unchanged(`head, `headTimestamp, `headSlot, `log)
      && tail == (if old(tail) + 1 == rows then 0 else old(tail) + 1)
      && live == old(live)[1..] && size == old(size) - old(window[if tail + 1 == rows then 0 else tail + 1, cells])
      && (forall i :: 0 <= i <= cells ==> window[old(tail), i] == 0)
      && (forall r, i :: 0 <= r < rows && 0 <= i <= cells && r != old(tail) ==> window[r, i] == old(window[r, i]))
      && (forall i :: 0 <= i < cells ==> inputs[i] == old(inputs[i]) - old(window[tail, i]))
    }

    /** Seen from the new tail, every row but the cleared one is one step closer. */
    twostate lemma PopShifts(new r: nat)
      requires Popped() && r < rows && tail < rows
      ensures r != old(tail) ==> Offset(r, tail, rows) == Offset(r, old(tail), rows) - 1
      ensures r == old(tail) ==> Offset(r, tail, rows) == rows - 1
      ensures Owner(r, tail, rows, live) == if r == old(tail) then -1 else Owner(r, old(tail), rows, old(live))
    {
    }

    twostate lemma PopKeepsRing()
      requires Popped()
      ensures RingOk()
    {
      PopShifts(head);
      PopShifts(tail);
      assert Offset(tail, old(tail), rows) == 1;
      assert size == headSlot - live[0];
    }

    twostate lemma PopKeepsSkips()
      requires Popped() && RingOk()
      ensures SkipsOk()
    {
      forall r | 0 <= r < rows && 0 < Offset(r, tail, rows) < |live|
        ensures window[r, cells] == live[Offset(r, tail, rows)] - live[Offset(r, tail, rows) - 1]
      {
        PopShifts(r);
      }
    }

    twostate lemma PopKeepsCells()
      requires Popped() && RingOk()
      ensures CellsOk()
    {
      forall r, i | 0 <= r < rows && 0 <= i < cells
        ensures window[r, i] == SlotCount(start, log, Owner(r, tail, rows, live), i)
      {
        PopShifts(r);
        Unreached(start, log, -1, i);
      }
    }

    /** What leaves the sums is exactly the interval that left the ring. */
    twostate lemma PopKeepsSums()
      requires Popped() && RingOk() && SumsMatch(inputsSums[..], inputs[..], outputBuckets)
      ensures SumsOk()
    {
      hide SumsMatch;
      forall i | 0 <= i < cells ensures inputs[i] == CountSince(start, log, live[0], i) {
        SinceSplit(start, log, old(live)[0], i);
        assert Owner(old(tail), old(tail), rows, old(live)) == old(live)[0];
        forall s | old(live)[0] + 1 <= s < live[0] ensures SlotCount(start, log, s, i) == 0 {
          assert s !in old(live);
        }
        SinceSkip(start, log, old(live)[0] + 1, live[0], i);
      }
    }

    twostate lemma PopKeepsGaps()
      requires Popped() && old(size) >= rows - 1
      ensures GapsOk()
    {
      forall s, i: nat | (s > headSlot - (rows - 1) || s >= live[0]) && s !in live
        ensures SlotCount(start, log, s, i) == 0
      {
        assert s != old(live)[0] && s !in old(live);
      }
    }

    /** `resetTail`: the oldest row leaves the window. */
    method ResetTail()
      requires History() && size >= rows - 1
      modifies `tail, `size, `live, window, inputs, inputsSums
      ensures History() && live == old(live)[1..]
    {
      hide RingOk, CellsOk, SkipsOk, SumsOk, GapsOk, SumsMatch;
      RingFacts();
      Reset(tail);
      NextRow(tail, rows);
      tail := (tail + 1) % rows;
      size := size - window[tail, cells];
      live := live[1..];
      assert Popped();
      PopKeepsRing();
      PopKeepsSkips();
      PopKeepsCells();
      PopKeepsSums();
      PopKeepsGaps();
    }

    lemma RingFacts()
      requires History()
      ensures tail < rows && head < rows && |live| >= 1
      ensures size >= 1 ==> |live| >= 2
      ensures SumsMatch(inputsSums[..], inputs[..], outputBuckets)
    {
    }

    /** `rotate`: brings the head up to `ts` and drops what has left the window.  There is
        always a spare row, and dropping ends with the head still in the ring. */
    method Rotate(ts: int) returns (ok: bool)
      requires Valid()
      modifies `head, `tail, `headTimestamp, `size, `headSlot, `live, window, inputs, inputsSums
      ensures ok && History() && size < rows - 1
      ensures headSlot == var own := (ts - start) / MOVING_INTERVAL; if own > old(headSlot) then own else old(headSlot)
    {
      hide RingOk, CellsOk, SkipsOk, SumsOk, GapsOk;
      var spare := rows - 1;
      if size > spare {
        return false;
      }
      var forwarded := ForwardLocked(ts);
      if forwarded == 0 {
        return true;
      }
      while size >= spare
        invariant History()
        invariant headSlot ==
          var own := (ts - start) / MOVING_INTERVAL; if own > old(headSlot) then own else old(headSlot)
        decreases |live|
      {
        RingFacts();
        ResetTail();
      }
      return true;
    }

    // ----------------------------------------------------------------------
    // Adding and predicting
    // ----------------------------------------------------------------------

    lemma CellInRange(b: nat, k: nat)
      requires Shape() && b < inputBuckets && k < outputBuckets
      ensures CellIndex(b, k, outputBuckets) < cells
    {
      RowsApart(b, inputBuckets, outputBuckets);
    }

    /** The state just after a trace was added to cell `t.idx` of the sums and of the head. */
    twostate predicate Added(t: Trace)
      reads this, window, inputs
    {
      && old(History()) && unchanged(`head, `tail, `headTimestamp, `size, `headSlot, `live)
      && log == old(log) + [t] && t.idx < cells
      && headSlot == HeadSlot(start, log)
      && (forall r, i :: 0 <= r < rows && 0 <= i <= cells ==>
            window[r, i] == old(window[r, i]) + if r == head && i == t.idx then t.cnt else 0)
      && (forall i :: 0 <= i < cells ==> inputs[i] == old(inputs[i]) + if i == t.idx then t.cnt else 0)
    }

    twostate lemma AddKeepsCells(new t: Trace)
      requires Added(t)
      ensures RingOk() && CellsOk() && SkipsOk()
    {
      Append(start, old(log), t);
      forall r, i | 0 <= r < rows && 0 <= i < cells
        ensures window[r, i] == SlotCount(start, log, Owner(r, tail, rows, live), i)
      {
        var o := Owner(r, tail, rows, live);
        assert old(window[r, i]) == SlotCount(start, old(log), o, i);
        assert o == headSlot <==> r == head;
      }
    }

    twostate lemma AddKeepsSums(new t: Trace)
      requires Added(t) && SumsMatch(inputsSums[..], inputs[..], outputBuckets)
      ensures SumsOk() && GapsOk()
    {
      hide SumsMatch;
      Append(start, old(log), t);
      forall i | 0 <= i < cells ensures inputs[i] == CountSince(start, log, live[0], i) {
        assert old(inputs[i]) == CountSince(start, old(log), live[0], i);
      }
    }

    /** `AddTraceWithTimestamp`, with the rotation it triggers done first: whatever the
        timestamp, the predictor afterwards agrees with the log extended by this trace. */
    method AddTraceWithTimestamp(inputTokens: int, outputTokens: int, cnt: int, ts: int)
      requires Valid()
      modifies this, window, inputs, inputsSums
      ensures Valid()
      ensures log == old(log) + [Trace(CellIndex(Token2Bucket(inputTokens, inputBuckets),
                                                 Token2Bucket(outputTokens, outputBuckets), outputBuckets), cnt, ts)]
    {
      hide HeadSlot, Token2Bucket, CellIndex, RingOk, CellsOk, SkipsOk, SumsOk, GapsOk;
      var ok := Rotate(ts);
      var b, k := Token2Bucket(inputTokens, inputBuckets), Token2Bucket(outputTokens, outputBuckets);
      Append(start, log, Trace(CellIndex(b, k, outputBuckets), cnt, ts));
      AddToHead(b, k, cnt, ts);
    }

    /** Adds to the head's row and to the sums, once the head is where the trace belongs. */
    method AddToHead(b: nat, k: nat, cnt: int, ts: int)
      requires History() && size < rows - 1 && b < inputBuckets && k < outputBuckets
      requires headSlot == HeadSlot(start, log + [Trace(CellIndex(b, k, outputBuckets), cnt, ts)])
      modifies `log, window, inputs, inputsSums
      ensures Valid() && log == old(log) + [Trace(CellIndex(b, k, outputBuckets), cnt, ts)]
    {
      hide RingOk, CellsOk, SkipsOk, SumsOk, GapsOk, SumsMatch, HeadSlot;
      var idx := b * outputBuckets + k;
      CellInRange(b, k);
      RingFacts();
      SubtractCell(b, k, -cnt);
      window[head, idx] := window[head, idx] + cnt;
      ghost var t := Trace(idx, cnt, ts);
      log := log + [t];
      assert Added(t);
      AddKeepsCells(t);
      AddKeepsSums(t);
    }

    /** What a row of the sums and its total say, when only non-negative counts were added. */
    lemma RowFacts(b: nat)
      requires Valid() && b < inputBuckets && NonNegativeLog(log)
      ensures Shape() && b * outputBuckets + outputBuckets <= cells
      ensures inputsSums[b] == Sum(Row(inputs[..], b, outputBuckets))
      ensures NonNegative(Row(inputs[..], b, outputBuckets))
    {
      hide CellsOk, SkipsOk, GapsOk, Sum, CountSince, HeadSlot;
      RowsApart(b, inputBuckets, outputBuckets);
      forall i | 0 <= i < cells ensures inputs[i] >= 0 {
        SinceNonNegative(start, log, live[0], i);
      }
    }

    /** `Predict` for the cursor the random source returned: bucket k of the input's row is
        predicted by exactly as many cursors as the row counts for it, as 2^k; with no
        history the prediction is one token.  The scan never falls through. */
    method Predict(inputTokens: int, cursor: int) returns (prediction: nat)
      requires Valid() && NonNegativeLog(log)
      requires var n := inputsSums[Token2Bucket(inputTokens, inputBuckets)]; n != 0 ==> 0 <= cursor < n
      ensures var b := Token2Bucket(inputTokens, inputBuckets);
              prediction == if inputsSums[b] == 0 then 1 else PredictionFor(b, cursor)
    {
      hide History, Sum, Choose, Pow2, Token2Bucket, NonNegativeLog;
      var inputBucket := Token2Bucket(inputTokens, inputBuckets);
      RowFacts(inputBucket);
      var randRange := inputsSums[inputBucket];
      if randRange == 0 {
        return 1;
      }
      var k := Scan(inputBucket * outputBuckets, outputBuckets, cursor);
      prediction := Pow2(k);
    }

    /** The row of `inputs` for input bucket `b`. */
    ghost function RowOf(b: nat): seq<int>
      requires Shape() && b < inputBuckets
      reads this, inputs
    {
      RowsApart(b, inputBuckets, outputBuckets);
      Row(inputs[..], b, outputBuckets)
    }

    /** What `Predict` returns for input bucket `b` and one cursor. */
    ghost function PredictionFor(b: nat, cursor: int): nat
      requires Shape() && b < inputBuckets
      reads this, inputs
    {
      Pow2(Choose(RowOf(b), cursor))
    }

    /** In every state the predictor can be in, exactly `inputs[k]` of the equally likely cursors
        predict 2^k. */
    lemma PredictionsAreWeighted(b: nat, k: nat, cursors: set<int>)
      requires Valid() && NonNegativeLog(log) && b < inputBuckets && k < outputBuckets
      requires forall c :: c in cursors <==> 0 <= c < inputsSums[b] && PredictionFor(b, c) == Pow2(k)
      ensures CellIndex(b, k, outputBuckets) < cells && |cursors| == inputs[CellIndex(b, k, outputBuckets)]
    {
      RowFacts(b);
      CellInRange(b, k);
      var row := RowOf(b);
      assert row[k] == inputs[CellIndex(b, k, outputBuckets)];
      hide CellIndex, Valid, Row, Sum, Choose, Pow2;
      forall c
        ensures c in cursors <==> 0 <= c < Sum(row) && Choose(row, c) == k
      {
        if 0 <= c < Sum(row) && PredictionFor(b, c) == Pow2(k) {
          Pow2Injective(Choose(row, c), k);
        }
      }
      ChooseIsWeighted(row, k, cursors);
    }

    /** The first interval still in the window after these samples. */
    ghost function WindowStart(samples: seq<Sample>): int {
      Latest(start, samples, |samples|) - (rows - 1) + 1
    }

    lemma Dimensions()
      requires Valid()
      ensures Shape() && inputs.Length == cells && inputsSums.Length == inputBuckets
      ensures inputBuckets > 0 && outputBuckets > 0
    {
    }

    lemma WindowStartIsNaive(samples: seq<Sample>)
      requires outputBuckets > 0 && inputBuckets > 0 && Tracks(log, samples, inputBuckets, outputBuckets)
      ensures log[..|samples|] == log && WindowStart(samples) == HeadSlot(start, log) - (rows - 1) + 1
    {
      HeadIsLatest(start, log, samples, |samples|);
    }

    lemma CellFollowsSamples(samples: seq<Sample>, b: nat, k: nat)
      requires Valid() && Tracks(log, samples, inputBuckets, outputBuckets) && b < inputBuckets && k < outputBuckets
      ensures CellIndex(b, k, outputBuckets) < inputs.Length
      ensures inputs[CellIndex(b, k, outputBuckets)] ==
                RequestsSince(start, samples, WindowStart(samples), |samples|, b, inputBuckets, k, outputBuckets)
    {
      hide *;
      Dimensions();
      CellInRange(b, k);
      WindowIsNaive(CellIndex(b, k, outputBuckets));
      WindowStartIsNaive(samples);
      CellsCountRequests(start, log, samples, WindowStart(samples), |samples|, b, inputBuckets, k, outputBuckets);
    }

    lemma RowFollowsSamples(samples: seq<Sample>, b: nat)
      requires Valid() && Tracks(log, samples, inputBuckets, outputBuckets) && b < inputBuckets
      ensures b < inputsSums.Length
      ensures inputsSums[b] == InputsSince(start, samples, WindowStart(samples), |samples|, b, inputBuckets)
    {
      RowsCountInputs(start, log, samples, WindowStart(samples), |samples|, b, inputBuckets, outputBuckets);
      RowWindowIsNaive(b);
      hide *;
      WindowStartIsNaive(samples);
    }

    /** The window, read off what was reported: every cell counts the requests of its two
        buckets in the last `rows - 1` intervals, and every row sum those of its input
        bucket. */
    lemma WindowFollowsSamples(samples: seq<Sample>, from: int)
      requires Valid() && Tracks(log, samples, inputBuckets, outputBuckets)
      requires from == Latest(start, samples, |samples|) - (rows - 1) + 1
      ensures forall b: nat, k: nat :: b < inputBuckets && k < outputBuckets ==>
        && CellIndex(b, k, outputBuckets) < inputs.Length && b < inputsSums.Length
        && inputs[CellIndex(b, k, outputBuckets)] ==
             RequestsSince(start, samples, from, |samples|, b, inputBuckets, k, outputBuckets)
        && inputsSums[b] == InputsSince(start, samples, from, |samples|, b, inputBuckets)
    {
      assert from == WindowStart(samples);
      hide *;
      forall b: nat, k: nat | b < inputBuckets && k < outputBuckets
        ensures CellIndex(b, k, outputBuckets) < inputs.Length && b < inputsSums.Length
        ensures inputs[CellIndex(b, k, outputBuckets)] ==
                  RequestsSince(start, samples, from, |samples|, b, inputBuckets, k, outputBuckets)
        ensures inputsSums[b] == InputsSince(start, samples, from, |samples|, b, inputBuckets)
      {
        CellFollowsSamples(samples, b, k);
        RowFollowsSamples(samples, b);
      }
    }

    /** The prediction, read off what was reported: of the equally likely cursors, one for
        every request of the same input bucket in the window, exactly as many predict 2^k as
        those requests had output bucket `k`. */
    lemma PredictionsFollowSamples(samples: seq<Sample>, inputTokens: int, k: nat, cursors: set<int>)
      requires Valid() && Tracks(log, samples, inputBuckets, outputBuckets) && k < outputBuckets
      requires forall n :: 0 <= n < |samples| ==> samples[n].cnt >= 0
      requires var b := Token2Bucket(inputTokens, inputBuckets);
        forall c :: c in cursors <==>
          && 0 <= c < InputsSince(start, samples, WindowStart(samples), |samples|, b, inputBuckets)
          && PredictionFor(b, c) == Pow2(k)
      ensures |cursors| == RequestsSince(start, samples, WindowStart(samples), |samples|,
                                         Token2Bucket(inputTokens, inputBuckets), inputBuckets, k, outputBuckets)
    {
      var b := Token2Bucket(inputTokens, inputBuckets);
      CellFollowsSamples(samples, b, k);
      RowFollowsSamples(samples, b);
      hide *;
      PredictionsAreWeighted(b, k, cursors);
    }

    /** The bucket among `inputs[first..first + width]` whose cumulative range holds `cursor`. */
    method Scan(first: nat, width: nat, cursor: int) returns (k: nat)
      requires first + width <= inputs.Length
      requires NonNegative(inputs[first..first + width]) && 0 <= cursor < Sum(inputs[first..first + width])
      ensures k == Choose(inputs[first..first + width], cursor) < width
    {
      hide Choose;
      ghost var row := inputs[first..first + width];
      var accumulation, i := 0, first;
      assert row[..0] == [] && row[..width] == row;
      while i < first + width
        invariant first <= i <= first + width
        invariant accumulation == Sum(row[..i - first]) <= cursor
      {
        SumSnoc(row, i - first);
        accumulation := accumulation + inputs[i];
        if cursor < accumulation {
          CumulativeIsChoose(row, cursor, i - first);
          return i - first;
        }
        i := i + 1;
      }
      assert false;  // the fall-through return is unreachable
    }
  }

  /** Any sequence of adds, in any order of timestamps, leaves exactly the requests of the last
      intervals that make up the period. */
  method Replay(maxInputTokens: nat, maxOutputTokens: nat, period: int, now: int, samples: seq<Sample>)
    returns (p: SimpleOutputPredictor)
    requires period > 0 && maxInputTokens > 0 && maxOutputTokens > 0
    ensures p.Valid() && p.start == now
    ensures p.inputBuckets == BucketCount(maxInputTokens) && p.outputBuckets == BucketCount(maxOutputTokens)
    ensures Tracks(p.log, samples, p.inputBuckets, p.outputBuckets)
    ensures var (n, ib, ob) := (|samples|, p.inputBuckets, p.outputBuckets);
      var from := Latest(now, samples, n) - (period + 9_999) / 10_000 + 1;
      forall b: nat, k: nat :: b < ib && k < ob ==>
        && CellIndex(b, k, ob) < p.inputs.Length && b < p.inputsSums.Length
        && p.inputs[CellIndex(b, k, ob)] == RequestsSince(now, samples, from, n, b, ib, k, ob)
        && p.inputsSums[b] == InputsSince(now, samples, from, n, b, ib)
  {
    hide *;
    p := new SimpleOutputPredictor(maxInputTokens, maxOutputTokens, period, now);
    p.Dimensions();
    IntervalsInPeriod(period);
    StartTracking(p.inputBuckets, p.outputBuckets);
    for n := 0 to |samples|
      invariant fresh(p) && fresh(p.window) && fresh(p.inputs) && fresh(p.inputsSums)
      invariant p.Valid() && Tracks(p.log, samples[..n], p.inputBuckets, p.outputBuckets)
    {
      TrackNext(p.log, samples, n, p.inputBuckets, p.outputBuckets);
      p.AddTraceWithTimestamp(samples[n].inputTokens, samples[n].outputTokens, samples[n].cnt, samples[n].ts);
    }
    assert samples[..|samples|] == samples;
    p.WindowFollowsSamples(samples, Latest(now, samples, |samples|) - (period + 9_999) / 10_000 + 1);
  }
}
