/** Slot ranges of the KV-cache cluster metadata.

  A node's slots are published as merged ranges, and a change of the node list is noticed by
  comparing ranges.  That is only sound if equal slots always give equal ranges.
  */
module SlotRanges {

  datatype SlotRange = SlotRange(start: int, end: int)

  // ------------------------------------------------------------------------
  // What ranges stand for
  // ------------------------------------------------------------------------

  ghost predicate Ordered(rs: seq<SlotRange>) {
    forall i :: 0 <= i < |rs| ==> rs[i].start <= rs[i].end
  }

  /** No range continues the one before it. */
  ghost predicate Maximal(rs: seq<SlotRange>) {
    forall i, j :: 0 <= i < |rs| && 0 <= j < |rs| && j == i + 1 ==> rs[j].start != rs[i].end + 1
  }

  /** Ranges in ascending order, each apart from the next. */
  ghost predicate Canonical(rs: seq<SlotRange>) {
    && Ordered(rs)
    && forall i, j :: 0 <= i < |rs| && 0 <= j < |rs| && j == i + 1 ==> rs[i].end + 1 < rs[j].start
  }

  ghost function Span(r: SlotRange): (s: seq<int>)
    requires r.start <= r.end
    ensures |s| == r.end - r.start + 1
    ensures forall i :: 0 <= i < |s| ==> s[i] == r.start + i
  {
    seq(r.end - r.start + 1, i => r.start + i)
  }

  /** The slots of all ranges, one range after the other. */
  ghost function Expand(rs: seq<SlotRange>): (s: seq<int>)
    requires Ordered(rs)
    ensures |s| >= |rs|
  {
    if rs == [] then [] else Expand(rs[..|rs| - 1]) + Span(rs[|rs| - 1])
  }

  ghost predicate Increasing(s: seq<int>) {
    forall i, j :: 0 <= i < j < |s| ==> s[i] < s[j]
  }

  ghost predicate Ascending(s: seq<int>) {
    forall i, j :: 0 <= i < j < |s| ==> s[i] <= s[j]
  }

  lemma LastOfExpand(rs: seq<SlotRange>)
    requires Ordered(rs) && rs != []
    ensures var e := Expand(rs); e[|e| - 1] == rs[|rs| - 1].end
  {
  }

  ghost function SpanStart(rs: seq<SlotRange>): (k: nat)
    requires Ordered(rs) && rs != []
    ensures k == |Expand(rs[..|rs| - 1])| < |Expand(rs)|
    ensures Expand(rs)[..k] == Expand(rs[..|rs| - 1])
    ensures forall i :: k <= i < |Expand(rs)| ==> Expand(rs)[i] == rs[|rs| - 1].start + (i - k)
  {
    |Expand(rs[..|rs| - 1])|
  }

  /** In a maximal list, the last range does not continue the slot before it. */
  lemma LastRangeIsARun(rs: seq<SlotRange>)
    requires Ordered(rs) && Maximal(rs) && rs != [] && SpanStart(rs) > 0
    ensures Expand(rs)[SpanStart(rs)] != Expand(rs)[SpanStart(rs) - 1] + 1
  {
    var n, k := |rs| - 1, SpanStart(rs);
    LastOfExpand(rs[..n]);
    assert Expand(rs)[..k][k - 1] == rs[n - 1].end;
  }

  lemma LastRangesStartTogether(a: seq<SlotRange>, b: seq<SlotRange>)
    requires Ordered(a) && Ordered(b) && Maximal(b) && a != [] && b != []
    requires Expand(a) == Expand(b)
    ensures a[|a| - 1].start >= b[|b| - 1].start
  {
    var e, i, j := Expand(a), SpanStart(a), SpanStart(b);
    assert e[i] == a[|a| - 1].start && e[j] == b[|b| - 1].start;
    if j > 0 {
      LastRangeIsARun(b);
      assert e[j] != e[j - 1] + 1;
    }
  }

  /** The same slots in the same order are merged into the same ranges: in a maximal list, the
      last range starts where the last run of consecutive slots does. */
  lemma {:induction false} MaximalIsUnique(a: seq<SlotRange>, b: seq<SlotRange>)
    requires Ordered(a) && Ordered(b) && Maximal(a) && Maximal(b)
    requires Expand(a) == Expand(b)
    ensures a == b
    decreases |a|
  {
    EmptyExpand(a);
    EmptyExpand(b);
    hide Expand, Ordered, Maximal;
    if a != [] {
      var m, n := |a| - 1, |b| - 1;
      MaximalFront(a);
      MaximalFront(b);
      LastRangesAreEqual(a, b);
      MaximalIsUnique(a[..m], b[..n]);
      assert a == a[..m] + [a[m]] && b == b[..n] + [b[n]];
    }
  }

  lemma MaximalFront(rs: seq<SlotRange>)
    requires rs != [] && Ordered(rs) && Maximal(rs)
    ensures Ordered(rs[..|rs| - 1]) && Maximal(rs[..|rs| - 1])
  {
  }

  lemma EmptyExpand(rs: seq<SlotRange>)
    requires Ordered(rs)
    ensures Expand(rs) == [] <==> rs == []
  {
  }

  lemma LastRangesAreEqual(a: seq<SlotRange>, b: seq<SlotRange>)
    requires Ordered(a) && Ordered(b) && Maximal(a) && Maximal(b) && a != [] && b != []
    requires Expand(a) == Expand(b)
    ensures a[|a| - 1] == b[|b| - 1] && Expand(a[..|a| - 1]) == Expand(b[..|b| - 1])
  {
    LastOfExpand(a);
    LastOfExpand(b);
    LastRangesStartTogether(a, b);
    LastRangesStartTogether(b, a);
    hide Expand;
    var i, j, e := SpanStart(a), SpanStart(b), Expand(a);
    assert e[i] == a[|a| - 1].start && e[j] == b[|b| - 1].start;
    assert i == j;
  }

  lemma {:induction false} CanonicalIncreases(rs: seq<SlotRange>)
    requires Canonical(rs)
    ensures Increasing(Expand(rs))
  {
    if rs != [] {
      var n, k := |rs| - 1, SpanStart(rs);
      CanonicalIncreases(rs[..n]);
      if n > 0 {
        LastOfExpand(rs[..n]);
      }
      IncreasingAppends(Expand(rs), k);
    }
  }

  lemma IncreasingAppends(s: seq<int>, k: nat)
    requires k < |s| && Increasing(s[..k]) && (k > 0 ==> s[k - 1] < s[k])
    requires forall i :: k <= i < |s| ==> s[i] == s[k] + (i - k)
    ensures Increasing(s)
  {
    forall i, j | 0 <= i < j < |s|
      ensures s[i] < s[j]
    {
      if i < k {
        assert s[..k][i] == s[i] && s[..k][k - 1] == s[k - 1];
        if j < k {
          assert s[..k][j] == s[j];
        }
      }
    }
  }

  lemma CanonicalAppends(rs: seq<SlotRange>)
    requires Ordered(rs) && rs != [] && Canonical(rs[..|rs| - 1])
    requires |rs| > 1 ==> rs[|rs| - 2].end + 1 < rs[|rs| - 1].start
    ensures Canonical(rs)
  {
    var n := |rs| - 1;
    forall i, j | 0 <= i < |rs| && 0 <= j < |rs| && j == i + 1
      ensures rs[i].end + 1 < rs[j].start
    {
      if j < n {
        assert rs[..n][i] == rs[i] && rs[..n][j] == rs[j];
      }
    }
  }

  lemma IncreasingPrefix(s: seq<int>, k: nat)
    requires Increasing(s) && k <= |s|
    ensures Increasing(s[..k])
  {
  }

  lemma LastGap(rs: seq<SlotRange>)
    requires Ordered(rs) && Maximal(rs) && Increasing(Expand(rs)) && |rs| > 1
    ensures rs[|rs| - 2].end + 1 < rs[|rs| - 1].start
  {
    var n, k := |rs| - 1, SpanStart(rs);
    LastOfExpand(rs[..n]);
    hide Expand;
    assert Expand(rs)[..k][k - 1] == rs[n - 1].end;
    assert Expand(rs)[k - 1] < Expand(rs)[k] == rs[n].start;
    assert rs[n].start != rs[n - 1].end + 1;
  }

  lemma {:induction false} IncreasingIsCanonical(rs: seq<SlotRange>)
    requires Ordered(rs) && Maximal(rs) && Increasing(Expand(rs))
    ensures Canonical(rs)
  {
    if rs != [] {
      IncreasingPrefix(Expand(rs), SpanStart(rs));
      MaximalFront(rs);
      if |rs| > 1 {
        LastGap(rs);
      }
      hide Expand, Ordered, Maximal, Increasing, Canonical;
      IncreasingIsCanonical(rs[..|rs| - 1]);
      CanonicalAppends(rs);
    }
  }

  /** A maximal list is canonical exactly if its slots are strictly increasing. */
  lemma CanonicalIffIncreasing(rs: seq<SlotRange>)
    requires Ordered(rs)
    ensures Canonical(rs) <==> Maximal(rs) && Increasing(Expand(rs))
  {
    if Canonical(rs) {
      CanonicalIncreases(rs);
    }
    if Maximal(rs) && Increasing(Expand(rs)) {
      IncreasingIsCanonical(rs);
    }
  }

  ghost function Slots(rs: seq<SlotRange>): set<int>
    requires Ordered(rs)
  {
    set x | x in Expand(rs)
  }

  /** The slots of ranges are those inside one of them. */
  lemma {:induction false} SlotsAreRanges(rs: seq<SlotRange>, x: int)
    requires Ordered(rs)
    ensures x in Slots(rs) <==> exists r :: r in rs && r.start <= x <= r.end
  {
    if rs != [] {
      var n := |rs| - 1;
      SlotsAreRanges(rs[..n], x);
      var last := Span(rs[n]);
      assert x in last <==> rs[n].start <= x <= rs[n].end by {
        if rs[n].start <= x <= rs[n].end { assert last[x - rs[n].start] == x; }
      }
      assert forall r :: r in rs <==> r in rs[..n] || r == rs[n];
    }
  }

  lemma {:induction false} IncreasingIsUnique(s: seq<int>, t: seq<int>)
    requires Increasing(s) && Increasing(t)
    requires forall x :: x in s <==> x in t
    ensures s == t
    decreases |s|
  {
    assert t != [] ==> t[0] in t;
    if s != [] {
      var m, n := |s| - 1, |t| - 1;
      assert s[m] in s && t != [];
      assert t[n] in t && s[m] in t && t[n] in s;
      assert s[m] == t[n];
      forall x
        ensures x in s[..m] <==> x in t[..n]
      {
        assert x in s[..m] <==> x in s && x != s[m];
        assert x in t[..n] <==> x in t && x != t[n];
      }
      IncreasingIsUnique(s[..m], t[..n]);
      assert s == s[..m] + [s[m]] && t == t[..n] + [t[n]];
    }
  }

  /** Canonical ranges of the same slots are the same ranges. */
  lemma CanonicalIsUnique(a: seq<SlotRange>, b: seq<SlotRange>)
    requires Canonical(a) && Canonical(b)
    ensures a == b <==> Slots(a) == Slots(b)
  {
    if Slots(a) == Slots(b) {
      CanonicalIffIncreasing(a);
      CanonicalIffIncreasing(b);
      assert forall x :: x in Expand(a) <==> x in Slots(a);
      assert forall x :: x in Expand(b) <==> x in Slots(b);
      IncreasingIsUnique(Expand(a), Expand(b));
      MaximalIsUnique(a, b);
    }
  }

  // ------------------------------------------------------------------------
  // Merging
  // ------------------------------------------------------------------------

  function Insert(s: seq<int>, x: int): seq<int> {
    if s == [] || s[|s| - 1] <= x then s + [x] else Insert(s[..|s| - 1], x) + [s[|s| - 1]]
  }

  /** The ascending rearrangement. */
  function Sorted(s: seq<int>): seq<int> {
    if s == [] then [] else Insert(Sorted(s[..|s| - 1]), s[|s| - 1])
  }

  lemma {:induction false} InsertKeepsElements(s: seq<int>, x: int)
    ensures multiset(Insert(s, x)) == multiset(s) + multiset{x}
  {
    if !(s == [] || s[|s| - 1] <= x) {
      assert s == s[..|s| - 1] + [s[|s| - 1]];
      InsertKeepsElements(s[..|s| - 1], x);
    }
  }

  ghost predicate AtMost(s: seq<int>, y: int) {
    forall i :: 0 <= i < |s| ==> s[i] <= y
  }

  lemma {:induction false} InsertKeepsBound(s: seq<int>, x: int, y: int)
    requires AtMost(s, y) && x <= y
    ensures AtMost(Insert(s, x), y)
  {
    if !(s == [] || s[|s| - 1] <= x) {
      InsertKeepsBound(s[..|s| - 1], x, y);
    }
  }

  lemma AscendingAppends(s: seq<int>, x: int)
    requires Ascending(s) && AtMost(s, x)
    ensures Ascending(s + [x])
  {
  }

  lemma {:induction false} InsertSorts(s: seq<int>, x: int)
    requires Ascending(s)
    ensures Ascending(Insert(s, x))
  {
    if s == [] || s[|s| - 1] <= x {
      AscendingAppends(s, x);
    } else {
      var n := |s| - 1;
      InsertSorts(s[..n], x);
      InsertKeepsBound(s[..n], x, s[n]);
      AscendingAppends(Insert(s[..n], x), s[n]);
    }
  }

  lemma {:induction false} SortedSorts(s: seq<int>)
    ensures Ascending(Sorted(s)) && multiset(Sorted(s)) == multiset(s) && |Sorted(s)| == |s|
  {
    if s != [] {
      var n := |s| - 1;
      assert s == s[..n] + [s[n]];
      SortedSorts(s[..n]);
      InsertSorts(Sorted(s[..n]), s[n]);
      InsertKeepsElements(Sorted(s[..n]), s[n]);
      assert |multiset(Sorted(s))| == |Sorted(s)| && |multiset(s)| == |s|;
    }
  }

  /** `sort.Ints`. */
  method SortInts(slots: array<int>)
    modifies slots
    ensures slots[..] == Sorted(old(slots[..]))
  {
    var sorted := Sorted(slots[..]);
    SortedSorts(slots[..]);
    forall i | 0 <= i < slots.Length {
      slots[i] := sorted[i];
    }
  }

  ghost predicate NoRepeats(s: seq<int>) {
    forall i, j :: 0 <= i < j < |s| ==> s[i] != s[j]
  }

  /** `mergeSlots`: sorts the slots in place; the ranges stand for exactly the sorted slots and
      are as long as can be, and they are canonical exactly if no slot is repeated. */
  method MergeSlots(slots: array<int>) returns (ranges: seq<SlotRange>)
    modifies slots
    ensures slots[..] == Sorted(old(slots[..]))
    ensures Ordered(ranges) && Maximal(ranges) && Expand(ranges) == slots[..]
    ensures Canonical(ranges) <==> NoRepeats(old(slots[..]))
  {
    hide Sorted;
    ghost var given := slots[..];
    SortInts(slots);
    ranges := MergeAscending(slots);
    CanonicalIffIncreasing(ranges);
    SortedHasNoRepeats(given);
  }

  method MergeAscending(slots: array<int>) returns (ranges: seq<SlotRange>)
    ensures Ordered(ranges) && Maximal(ranges) && Expand(ranges) == slots[..]
  {
    if slots.Length == 0 {
      return [];
    }
    AppendRange([], slots[0]);
    ranges := [] + [SlotRange(slots[0], slots[0])];
    hide Expand, Maximal, Ordered;
    for i := 1 to slots.Length
      invariant ranges != [] && Ordered(ranges) && Maximal(ranges)
      invariant Expand(ranges) == slots[..i]
    {
      var slot, last := slots[i], |ranges| - 1;
      if slot == ranges[last].end + 1 {
        ExtendLast(ranges);
        ranges := ranges[last := SlotRange(ranges[last].start, slot)];
      } else {
        AppendRange(ranges, slot);
        ranges := ranges + [SlotRange(slot, slot)];
      }
      assert slots[..i + 1] == slots[..i] + [slot];
    }
  }

  lemma ExtendLast(rs: seq<SlotRange>)
    requires Ordered(rs) && Maximal(rs) && rs != []
    ensures var last := |rs| - 1;
      var longer := rs[last := SlotRange(rs[last].start, rs[last].end + 1)];
      Ordered(longer) && Maximal(longer) && Expand(longer) == Expand(rs) + [rs[last].end + 1]
  {
    var last := |rs| - 1;
    var longer := rs[last := SlotRange(rs[last].start, rs[last].end + 1)];
    assert longer[..last] == rs[..last];
    assert Span(longer[last]) == Span(rs[last]) + [rs[last].end + 1];
  }

  lemma MaximalAppends(rs: seq<SlotRange>, slot: int)
    requires Maximal(rs) && (rs != [] ==> slot != rs[|rs| - 1].end + 1)
    ensures Maximal(rs + [SlotRange(slot, slot)])
  {
    var longer := rs + [SlotRange(slot, slot)];
    forall i, j | 0 <= i < |longer| && 0 <= j < |longer| && j == i + 1
      ensures longer[j].start != longer[i].end + 1
    {
      assert longer[i] == rs[i];
      if j < |rs| {
        assert longer[j] == rs[j];
      }
    }
  }

  lemma ExpandAppends(rs: seq<SlotRange>, r: SlotRange)
    requires Ordered(rs) && r.start <= r.end
    ensures Ordered(rs + [r]) && Expand(rs + [r]) == Expand(rs) + Span(r)
  {
    assert (rs + [r])[..|rs|] == rs;
  }

  lemma OneSlot(slot: int)
    ensures Span(SlotRange(slot, slot)) == [slot]
  {
  }

  lemma AppendRange(rs: seq<SlotRange>, slot: int)
    requires Ordered(rs) && Maximal(rs) && (rs != [] ==> slot != rs[|rs| - 1].end + 1)
    ensures var longer := rs + [SlotRange(slot, slot)];
      Ordered(longer) && Maximal(longer) && Expand(longer) == Expand(rs) + [slot]
  {
    hide *;
    MaximalAppends(rs, slot);
    ExpandAppends(rs, SlotRange(slot, slot));
    OneSlot(slot);
  }

  lemma SortedHasNoRepeats(s: seq<int>)
    ensures Increasing(Sorted(s)) <==> NoRepeats(s)
  {
    RepeatsAreMultiple(s);
    RepeatsAreMultiple(Sorted(s));
    SortedSorts(s);
    var r := Sorted(s);
    if NoRepeats(r) {
      forall i, j | 0 <= i < j < |r|
        ensures r[i] < r[j]
      {
        assert r[i] <= r[j] && r[i] != r[j];
      }
    }
  }

  lemma {:induction false} RepeatsAreMultiple(s: seq<int>)
    ensures NoRepeats(s) <==> forall x :: multiset(s)[x] <= 1
  {
    if s != [] {
      var n := |s| - 1;
      assert s == s[..n] + [s[n]];
      RepeatsAreMultiple(s[..n]);
      assert forall i :: 0 <= i < n ==> s[..n][i] == s[i];
      if NoRepeats(s) {
        assert s[n] !in s[..n];
        assert multiset(s[..n])[s[n]] == 0;
      } else if NoRepeats(s[..n]) {
        var i, j :| 0 <= i < j < |s| && s[i] == s[j];
        assert j == n;
        assert s[..n][i] in multiset(s[..n]);
        assert multiset(s)[s[n]] > 1;
      } else {
        var x :| multiset(s[..n])[x] > 1;
        assert multiset(s)[x] > 1;
      }
    }
  }

  /** `slotRangesEqual`. */
  method SlotRangesEqual(a: seq<SlotRange>, b: seq<SlotRange>) returns (equal: bool)
    ensures equal <==> a == b
    ensures Canonical(a) && Canonical(b) ==> (equal <==> Slots(a) == Slots(b))
  {
    if Canonical(a) && Canonical(b) {
      CanonicalIsUnique(a, b);
    }
    if |a| != |b| {
      return false;
    }
    for i := 0 to |a|
      invariant a[..i] == b[..i]
    {
      if a[i].start != b[i].start || a[i].end != b[i].end {
        return false;
      }
    }
    return true;
  }
}

/** The node list of a KV-cache cluster, and when it counts as changed. */
module ClusterNodes {
  import opened Options
  import opened SlotRanges

  type Name = nat
  type Addr = nat

  datatype NodeInfo = NodeInfo(name: Name, addr: Addr, port: int, slots: seq<SlotRange>)

  // ------------------------------------------------------------------------
  // Comparing node lists
  // ------------------------------------------------------------------------

  /** The nodes by name; of two with the same name the later one stays. */
  function NodeMap(a: seq<NodeInfo>): map<Name, NodeInfo> {
    if a == [] then map[] else NodeMap(a[..|a| - 1])[a[|a| - 1].name := a[|a| - 1]]
  }

  ghost predicate Matches(a: seq<NodeInfo>, b: seq<NodeInfo>) {
    && |a| == |b|
    && forall i :: 0 <= i < |b| ==> b[i].name in NodeMap(a) && NodeMap(a)[b[i].name] == b[i]
  }

  /** `isNodeListEqual`. */
  method IsNodeListEqual(a: seq<NodeInfo>, b: seq<NodeInfo>) returns (equal: bool)
    ensures equal <==> Matches(a, b)
  {
    if |a| != |b| {
      return false;
    }
    var nodeMap := map[];
    for i := 0 to |a|
      invariant nodeMap == NodeMap(a[..i])
    {
      assert a[..i + 1][..i] == a[..i];
      nodeMap := nodeMap[a[i].name := a[i]];
    }
    assert a[..|a|] == a;
    for i := 0 to |b|
      invariant forall j :: 0 <= j < i ==> b[j].name in nodeMap && nodeMap[b[j].name] == b[j]
    {
      var n := b[i];
      if n.name !in nodeMap {
        return false;
      }
      var existing := nodeMap[n.name];
      var sameSlots := SlotRangesEqual(existing.slots, n.slots);
      NodeMapIsNamed(a, n.name);
      if existing.addr != n.addr || existing.port != n.port || !sameSlots {
        return false;
      }
    }
    return true;
  }

  ghost predicate DistinctNames(a: seq<NodeInfo>) {
    forall i, j :: 0 <= i < j < |a| ==> a[i].name != a[j].name
  }

  lemma {:induction false} NodeMapIsNamed(a: seq<NodeInfo>, name: Name)
    requires name in NodeMap(a)
    ensures NodeMap(a)[name].name == name && NodeMap(a)[name] in a
  {
    if name != a[|a| - 1].name {
      NodeMapIsNamed(a[..|a| - 1], name);
    }
  }

  lemma {:induction false} NodeMapHas(a: seq<NodeInfo>, i: nat)
    requires i < |a|
    ensures a[i].name in NodeMap(a)
    ensures (forall j :: i < j < |a| ==> a[j].name != a[i].name) ==> NodeMap(a)[a[i].name] == a[i]
  {
    if i < |a| - 1 {
      NodeMapHas(a[..|a| - 1], i);
    }
  }

  /** Distinct nodes that are all in a list of the same length are that list, rearranged. */
  lemma SubsetOfSameSize(a: seq<NodeInfo>, b: seq<NodeInfo>)
    requires |a| == |b| && DistinctNames(b)
    requires forall i :: 0 <= i < |b| ==> b[i] in a
    ensures multiset(a) == multiset(b)
  {
    forall x
      ensures multiset(b)[x] <= multiset(a)[x]
    {
      DistinctOnce(b, x);
      if x in b {
        assert x in a;
      }
    }
    assert multiset(b) <= multiset(a);
    var more := multiset(a) - multiset(b);
    assert |multiset(a)| == |multiset(b)| + |more|;
    assert multiset(a) == multiset(b) + more;
  }

  lemma {:induction false} DistinctOnce(b: seq<NodeInfo>, x: NodeInfo)
    requires DistinctNames(b)
    ensures multiset(b)[x] == if x in b then 1 else 0
  {
    if b != [] {
      var n := |b| - 1;
      assert b == b[..n] + [b[n]];
      DistinctOnce(b[..n], x);
    }
  }

  /** If the names of `b` are distinct, the comparison finds exactly the rearrangements of `b`. */
  lemma DistinctMatch(a: seq<NodeInfo>, b: seq<NodeInfo>)
    requires DistinctNames(b)
    ensures Matches(a, b) <==> multiset(a) == multiset(b)
  {
    if Matches(a, b) {
      forall i | 0 <= i < |b|
        ensures b[i] in a
      {
        NodeMapIsNamed(a, b[i].name);
      }
      SubsetOfSameSize(a, b);
    }
    if multiset(a) == multiset(b) {
      assert |multiset(a)| == |a| && |multiset(b)| == |b|;
      forall i | 0 <= i < |b|
        ensures b[i].name in NodeMap(a) && NodeMap(a)[b[i].name] == b[i]
      {
        OnlyNodeOfItsName(a, b, i);
      }
    }
  }

  lemma OnlyNodeOfItsName(a: seq<NodeInfo>, b: seq<NodeInfo>, i: nat)
    requires multiset(a) == multiset(b) && DistinctNames(b) && i < |b|
    ensures b[i].name in NodeMap(a) && NodeMap(a)[b[i].name] == b[i]
  {
    assert b[i] in multiset(a);
    var k :| 0 <= k < |a| && a[k] == b[i];
    NodeMapHas(a, k);
    NodeMapIsNamed(a, b[i].name);
    var e := NodeMap(a)[b[i].name];
    assert e in multiset(b);
  }

  // ------------------------------------------------------------------------
  // Repeated names
  // ------------------------------------------------------------------------

  ghost predicate AlwaysExact(b: seq<NodeInfo>) {
    forall a: seq<NodeInfo> :: Matches(a, b) <==> multiset(a) == multiset(b)
  }

  lemma {:induction false} FreshName(b: seq<NodeInfo>) returns (name: Name)
    ensures forall i :: 0 <= i < |b| ==> b[i].name < name
  {
    name := 0;
    if b != [] {
      var n := |b| - 1;
      name := FreshName(b[..n]);
      name := if b[n].name < name then name else b[n].name + 1;
    }
  }

  /** Two equal nodes hide that one of them has been replaced. */
  lemma RepeatedNodeHidesChange(b: seq<NodeInfo>, i: nat, j: nat)
    requires i < j < |b| && b[i] == b[j]
    requires forall k, l :: 0 <= k < |b| && 0 <= l < |b| && b[k].name == b[l].name ==> b[k] == b[l]
    ensures !AlwaysExact(b)
  {
    var name := FreshName(b);
    var a := b[i := b[i].(name := name)];
    forall k | 0 <= k < |b|
      ensures b[k].name in NodeMap(a) && NodeMap(a)[b[k].name] == b[k]
    {
      var at := if k == i then j else k;
      assert a[at] == b[k];
      NodeMapHas(a, at);
      NodeMapIsNamed(a, b[k].name);
      var e := NodeMap(a)[b[k].name];
      var l :| 0 <= l < |a| && a[l] == e;
    }
    assert Matches(a, b);
    assert a[i] in multiset(a) && a[i] !in multiset(b);
  }

  /** Two different nodes of one name make a list differ from itself. */
  lemma ConflictDiffersFromItself(b: seq<NodeInfo>, i: nat, j: nat)
    requires i < |b| && j < |b| && b[i].name == b[j].name && b[i] != b[j]
    ensures !AlwaysExact(b)
  {
    assert !Matches(b, b);
  }

  /** The comparison tells rearrangements of `b` from everything else, whatever it is compared
      with, exactly if no name repeats in `b`. */
  lemma ExactIffDistinctNames(b: seq<NodeInfo>)
    ensures AlwaysExact(b) <==> DistinctNames(b)
  {
    if DistinctNames(b) {
      forall a: seq<NodeInfo>
        ensures Matches(a, b) <==> multiset(a) == multiset(b)
      {
        DistinctMatch(a, b);
      }
    } else {
      var i, j :| 0 <= i < j < |b| && b[i].name == b[j].name;
      if k, l :| 0 <= k < |b| && 0 <= l < |b| && b[k].name == b[l].name && b[k] != b[l] {
        ConflictDiffersFromItself(b, k, l);
      } else {
        RepeatedNodeHidesChange(b, i, j);
      }
    }
  }

  // ------------------------------------------------------------------------
  // What a node list means
  // ------------------------------------------------------------------------

  datatype Meaning = Meaning(addr: Addr, port: int, slots: set<int>)

  ghost predicate AllCanonical(a: seq<NodeInfo>) {
    forall i :: 0 <= i < |a| ==> Canonical(a[i].slots)
  }

  ghost function MeaningOf(n: NodeInfo): Meaning
    requires Canonical(n.slots)
  {
    Meaning(n.addr, n.port, Slots(n.slots))
  }

  lemma NodeMapIsCanonical(a: seq<NodeInfo>)
    requires AllCanonical(a)
    ensures forall name :: name in NodeMap(a) ==> Canonical(NodeMap(a)[name].slots)
  {
    forall name | name in NodeMap(a)
      ensures Canonical(NodeMap(a)[name].slots)
    {
      NodeMapIsNamed(a, name);
    }
  }

  /** Which address, port and slots each name has. */
  ghost function Denotes(a: seq<NodeInfo>): map<Name, Meaning>
    requires AllCanonical(a)
  {
    NodeMapIsCanonical(a);
    map name | name in NodeMap(a) :: MeaningOf(NodeMap(a)[name])
  }

  lemma {:induction false} NodeMapSize(a: seq<NodeInfo>)
    requires DistinctNames(a)
    ensures |NodeMap(a).Keys| == |a|
  {
    if a != [] {
      var n := |a| - 1;
      NodeMapSize(a[..n]);
      if a[n].name in NodeMap(a[..n]) {
        NodeMapIsNamed(a[..n], a[n].name);
        assert false;
      }
      assert NodeMap(a).Keys == NodeMap(a[..n]).Keys + {a[n].name};
    }
  }

  lemma MatchCovers(a: seq<NodeInfo>, b: seq<NodeInfo>, name: Name)
    requires DistinctNames(b) && multiset(a) == multiset(b) && name in NodeMap(b)
    ensures name in NodeMap(a) && NodeMap(a)[name] == NodeMap(b)[name]
  {
    NodeMapIsNamed(b, name);
    var k :| 0 <= k < |b| && b[k] == NodeMap(b)[name];
    OnlyNodeOfItsName(a, b, k);
  }

  lemma MatchMeansSame(a: seq<NodeInfo>, b: seq<NodeInfo>)
    requires DistinctNames(a) && DistinctNames(b) && multiset(a) == multiset(b)
    ensures NodeMap(a) == NodeMap(b)
  {
    hide NodeMap;
    forall name
      ensures name in NodeMap(a) <==> name in NodeMap(b)
      ensures name in NodeMap(a) ==> NodeMap(a)[name] == NodeMap(b)[name]
    {
      if name in NodeMap(b) {
        MatchCovers(a, b, name);
      }
      if name in NodeMap(a) {
        MatchCovers(b, a, name);
      }
    }
  }

  lemma SameMeansMatch(a: seq<NodeInfo>, b: seq<NodeInfo>)
    requires DistinctNames(a) && DistinctNames(b) && AllCanonical(a) && AllCanonical(b)
    requires Denotes(a) == Denotes(b)
    ensures Matches(a, b)
  {
    NodeMapSize(a);
    NodeMapSize(b);
    assert NodeMap(a).Keys == Denotes(a).Keys && NodeMap(b).Keys == Denotes(b).Keys;
    hide Denotes, NodeMap;
    forall i | 0 <= i < |b|
      ensures b[i].name in NodeMap(a) && NodeMap(a)[b[i].name] == b[i]
    {
      SameMeaningSameNode(a, b, i);
    }
  }

  lemma SameMeaningSameNode(a: seq<NodeInfo>, b: seq<NodeInfo>, i: nat)
    requires DistinctNames(a) && DistinctNames(b) && AllCanonical(a) && AllCanonical(b)
    requires Denotes(a) == Denotes(b) && i < |b|
    ensures b[i].name in NodeMap(a) && NodeMap(a)[b[i].name] == b[i]
  {
    var name := b[i].name;
    NodeMapIsCanonical(a);
    NodeMapIsCanonical(b);
    NodeMapHas(b, i);
    assert name in Denotes(b) && name in Denotes(a);
    NodeMapIsNamed(a, name);
    var n := NodeMap(a)[name];
    assert Denotes(a)[name] == MeaningOf(n) && Denotes(b)[name] == MeaningOf(b[i]);
    hide Denotes, NodeMap, Canonical;
    CanonicalIsUnique(n.slots, b[i].slots);
  }

  /** Two node lists with distinct names compare equal exactly if they give every name the
      same address, port and set of slots. */
  lemma MatchIffSameMeaning(a: seq<NodeInfo>, b: seq<NodeInfo>)
    requires DistinctNames(a) && DistinctNames(b) && AllCanonical(a) && AllCanonical(b)
    ensures Matches(a, b) <==> Denotes(a) == Denotes(b)
  {
    DistinctMatch(a, b);
    if Matches(a, b) {
      MatchMeansSame(a, b);
    }
    if Denotes(a) == Denotes(b) {
      SameMeansMatch(a, b);
    }
    hide Matches, NodeMap;
  }

  // ------------------------------------------------------------------------
  // Distributing slots
  // ------------------------------------------------------------------------

  /** The slots below `n` that the ring gives to `name`, in order. */
  ghost function Located(ring: int -> Option<Name>, n: int, name: Name): seq<int> {
    if n <= 0 then []
    else Located(ring, n - 1, name) + if ring(n - 1) == Some(name) then [n - 1] else []
  }

  lemma {:induction false} LocatedAre(ring: int -> Option<Name>, n: int, name: Name)
    ensures forall s :: s in Located(ring, n, name) <==> 0 <= s < n && ring(s) == Some(name)
    decreases n
  {
    if n > 0 {
      LocatedAre(ring, n - 1, name);
    }
  }

  lemma {:induction false} LocatedIncrease(ring: int -> Option<Name>, n: int, name: Name)
    ensures Increasing(Located(ring, n, name))
    decreases n
  {
    if n > 0 {
      LocatedIncrease(ring, n - 1, name);
      LocatedAre(ring, n - 1, name);
      var before := Located(ring, n - 1, name);
      assert forall i :: 0 <= i < |before| ==> before[i] in before;
      IncreasingSnoc(before, n - 1);
    }
  }

  function SlotsOf(slots: map<Name, seq<int>>, name: Name): seq<int> {
    if name in slots then slots[name] else []
  }

  /** `calculateSlotDistribution`: every slot located on one of the nodes goes to that node,
      once and in order. */
  method CalculateSlotDistribution(names: set<Name>, totalSlots: int, ring: int -> Option<Name>)
    returns (slots: map<Name, seq<int>>)
    ensures forall name :: SlotsOf(slots, name) == if name in names then Located(ring, totalSlots, name) else []
  {
    slots := map[];
    var slot := 0;
    while slot < totalSlots
      invariant slot == 0 || slot <= totalSlots
      invariant forall name :: SlotsOf(slots, name) == if name in names then Located(ring, slot, name) else []
    {
      var member := ring(slot);
      if member.Some? && member.value in names {
        slots := slots[member.value := SlotsOf(slots, member.value) + [slot]];
      }
      slot := slot + 1;
    }
  }

  lemma IncreasingSnoc(s: seq<int>, x: int)
    requires Increasing(s) && forall i :: 0 <= i < |s| ==> s[i] < x
    ensures Increasing(s + [x])
  {
  }

  datatype Pod = Pod(name: Name, ip: Option<Addr>)

  ghost function OwnedSlots(ring: int -> Option<Name>, totalSlots: int, name: Name): set<int> {
    set slot | 0 <= slot < totalSlots && ring(slot) == Some(name)
  }

  /** The names of the pods that have an address, in order. */
  ghost function Addressed(pods: seq<Pod>): seq<Name> {
    if pods == [] then []
    else
      var n := |pods| - 1;
      Addressed(pods[..n]) + if pods[n].ip.Some? then [pods[n].name] else []
  }

  ghost function NamesOf(nodes: seq<NodeInfo>): seq<Name> {
    seq(|nodes|, i requires 0 <= i < |nodes| => nodes[i].name)
  }

  ghost predicate Describes(n: NodeInfo, pods: seq<Pod>, port: int, totalSlots: int, ring: int -> Option<Name>) {
    && Pod(n.name, Some(n.addr)) in pods && n.port == port
    && Canonical(n.slots) && Slots(n.slots) == OwnedSlots(ring, totalSlots, n.name)
  }

  /** One node per pod with an address, with the canonical ranges of the slots it owns. */
  method BuildNodes(pods: seq<Pod>, port: int, totalSlots: int, ring: int -> Option<Name>)
    returns (nodes: seq<NodeInfo>)
    ensures NamesOf(nodes) == Addressed(pods)
    ensures forall i :: 0 <= i < |nodes| ==> Describes(nodes[i], pods, port, totalSlots, ring)
  {
    var names := set p | p in pods :: p.name;
    var nodeSlots := CalculateSlotDistribution(names, totalSlots, ring);
    nodes := [];
    for k := 0 to |pods|
      invariant NamesOf(nodes) == Addressed(pods[..k])
      invariant forall i :: 0 <= i < |nodes| ==> Describes(nodes[i], pods, port, totalSlots, ring)
    {
      var pod := pods[k];
      assert pods[..k + 1][..k] == pods[..k];
      if pod.ip.Some? {
        LocatedAre(ring, totalSlots, pod.name);
        LocatedIncrease(ring, totalSlots, pod.name);
        assert pod.name in names;
        var ranges := MergeOwned(SlotsOf(nodeSlots, pod.name));
        assert Slots(ranges) == OwnedSlots(ring, totalSlots, pod.name);
        assert pod == Pod(pod.name, Some(pod.ip.value));
        nodes := nodes + [NodeInfo(pod.name, pod.ip.value, port, ranges)];
      }
    }
    assert pods[..|pods|] == pods;
  }

  /** A published node has a slot in its ranges exactly if the ring gives it the slot. */
  lemma NodeHasItsSlots(n: NodeInfo, pods: seq<Pod>, port: int, totalSlots: int, ring: int -> Option<Name>, slot: int)
    requires Describes(n, pods, port, totalSlots, ring)
    ensures (exists r :: r in n.slots && r.start <= slot <= r.end) <==>
      0 <= slot < totalSlots && ring(slot) == Some(n.name)
  {
    SlotsAreRanges(n.slots, slot);
    assert slot in Slots(n.slots) <==> slot in OwnedSlots(ring, totalSlots, n.name);
    hide Slots;
  }

  /** Exactly the pods with an address are published. */
  lemma {:induction false} AddressedAre(pods: seq<Pod>, name: Name)
    ensures name in Addressed(pods) <==> exists p :: p in pods && p.ip.Some? && p.name == name
  {
    if pods != [] {
      var n := |pods| - 1;
      AddressedAre(pods[..n], name);
      assert forall p :: p in pods <==> p in pods[..n] || p == pods[n];
    }
  }

  /** Pods with distinct names give nodes with distinct names. */
  lemma {:induction false} AddressedAreDistinct(pods: seq<Pod>)
    requires forall i, j :: 0 <= i < j < |pods| ==> pods[i].name != pods[j].name
    ensures forall x :: x in Addressed(pods) ==> exists i :: 0 <= i < |pods| && pods[i].name == x
    ensures forall i, j :: 0 <= i < j < |Addressed(pods)| ==> Addressed(pods)[i] != Addressed(pods)[j]
  {
    if pods != [] {
      var n := |pods| - 1;
      AddressedAreDistinct(pods[..n]);
      forall x | x in Addressed(pods)
        ensures exists i :: 0 <= i < |pods| && pods[i].name == x
      {
        if x in Addressed(pods[..n]) {
          var i :| 0 <= i < n && pods[..n][i].name == x;
          assert pods[i].name == x;
        } else {
          assert pods[n].name == x;
        }
      }
      assert pods[n].name !in Addressed(pods[..n]);
    }
  }

  method MergeOwned(slots: seq<int>) returns (ranges: seq<SlotRange>)
    requires Increasing(slots)
    ensures Canonical(ranges) && forall x :: x in Slots(ranges) <==> x in slots
  {
    var a := new int[|slots|](i requires 0 <= i < |slots| => slots[i]);
    assert a[..] == slots;
    ranges := MergeSlots(a);
    SortedSorts(slots);
    assert forall x :: x in Expand(ranges) <==> x in multiset(Expand(ranges));
    assert forall x :: x in slots <==> x in multiset(slots);
  }
}
