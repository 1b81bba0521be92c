/** The reader side of gateway snapshots.

  Each gateway writes one Redis hash per pod.  On every tick a gateway scans for all such
  keys, reads them in batches, and publishes what it read, grouped by pod.  A key that could
  not be read keeps the value of the tick before.
  */
module GatewaySnapshot {
  import opened Options

  type Key = nat
  type PodKey = nat

  const BATCH_SIZE: nat := 100

  /** The fields of one snapshot hash; `pod` is missing if it names no pod. */
  datatype Fields = Fields(pod: Option<PodKey>, data: nat)

  type Raw = map<Key, Fields>

  /** What reading one key came to. */
  datatype Reply =
    | Hash(fields: Fields)
    | Empty              // the key is gone
    | Rejected           // Redis answered with an error for this key
    | NoReply            // a failure that says nothing about the key

  function BatchStart(i: int): int {
    i - i % BATCH_SIZE
  }

  datatype Round =
    | ScanFailed
    | Scanned(keys: seq<Key>, replies: seq<Reply>, batchFailed: seq<bool>)
  {
    /** One reply per key and one verdict per batch.  A pipeline reports the first command that
        failed, and if that got no reply the whole batch failed; so in a batch that did not
        fail, a key without a reply comes after one Redis rejected. */
    ghost predicate WellFormed() {
      Scanned? ==>
        && |replies| == |keys| && |keys| <= |batchFailed| * BATCH_SIZE
        && forall i :: 0 <= i < |keys| && replies[i] == NoReply && !batchFailed[i / BATCH_SIZE] ==>
             exists r :: BatchStart(i) <= r < i && replies[r] == Rejected
    }

    /** A failed batch says nothing about any of its keys. */
    function Outcome(i: nat): Reply
      requires Scanned? && WellFormed() && i < |keys|
    {
      if batchFailed[i / BATCH_SIZE] then NoReply else replies[i]
    }

    function Outcomes(): seq<Reply>
      requires Scanned? && WellFormed()
    {
      seq(|keys|, i requires 0 <= i < |keys| => Outcome(i))
    }

    /** Every key was read, or answered. */
    ghost predicate Complete()
      requires WellFormed()
    {
      Scanned? && forall i :: 0 <= i < |keys| ==> Outcome(i) != NoReply
    }
  }

  /** What the reader keeps for a key, given its reply and its previous value. */
  function Kept(reply: Reply, prev: Option<Fields>): Option<Fields> {
    match reply
    case Hash(fields) => Some(fields)
    case NoReply => prev
    case _ => None
  }

  function Get(raw: Raw, k: Key): Option<Fields> {
    if k in raw then Some(raw[k]) else None
  }

  function PrevOf(prev: Option<Raw>): Raw {
    if prev.Some? then prev.value else map[]
  }

  // ------------------------------------------------------------------------
  // One read
  // ------------------------------------------------------------------------

  function Stored(raw: Raw, k: Key, kept: Option<Fields>): Raw {
    if kept.Some? then raw[k := kept.value] else raw
  }

  /** The result of reading the first `n` keys one after the other. */
  function ReadUpTo(keys: seq<Key>, replies: seq<Reply>, prev: Raw, n: nat): Raw
    requires n <= |keys| == |replies|
  {
    if n == 0 then map[]
    else Stored(ReadUpTo(keys, replies, prev, n - 1), keys[n - 1], Kept(replies[n - 1], Get(prev, keys[n - 1])))
  }

  function ReadAll(keys: seq<Key>, replies: seq<Reply>, prev: Raw): Raw
    requires |keys| == |replies|
  {
    ReadUpTo(keys, replies, prev, |keys|)
  }

  /** Some of the first `n` keys could not be read and has no earlier value. */
  ghost predicate UnreadUpTo(keys: seq<Key>, replies: seq<Reply>, prev: Raw, n: nat)
    requires n <= |keys| == |replies|
  {
    exists i :: 0 <= i < n && replies[i] == NoReply && keys[i] !in prev
  }

  ghost predicate Unread(keys: seq<Key>, replies: seq<Reply>, prev: Raw)
    requires |keys| == |replies|
  {
    UnreadUpTo(keys, replies, prev, |keys|)
  }

  /** `readGatewaySnapshots`: batch by batch. */
  method ReadGatewaySnapshots(round: Round, prevRaw: Option<Raw>) returns (raw: Raw, unread: bool)
    requires round.Scanned? && round.WellFormed()
    ensures raw == ReadAll(round.keys, round.Outcomes(), PrevOf(prevRaw))
    ensures unread <==> Unread(round.keys, round.Outcomes(), PrevOf(prevRaw))
  {
    var prev, keys := PrevOf(prevRaw), round.keys;
    hide PrevOf;
    raw, unread := map[], false;
    var batchStart, batch := 0, 0;
    while batchStart < |keys|
      invariant 0 <= batchStart && batchStart == batch * BATCH_SIZE
      invariant var n := if batchStart < |keys| then batchStart else |keys|;
        && raw == ReadUpTo(keys, round.Outcomes(), prev, n)
        && (unread <==> UnreadUpTo(keys, round.Outcomes(), prev, n))
    {
      var batchEnd := batchStart + BATCH_SIZE;
      if batchEnd > |keys| {
        batchEnd := |keys|;
      }
      raw, unread := ReadBatch(round, prev, batch, batchStart, batchEnd, raw, unread);
      batchStart, batch := batchStart + BATCH_SIZE, batch + 1;
    }
  }

  /** Reads the keys of one batch into what the earlier batches gave. */
  method ReadBatch(round: Round, prev: Raw, batch: nat, batchStart: nat, batchEnd: nat, before: Raw, unreadBefore: bool)
    returns (raw: Raw, unread: bool)
    requires round.Scanned? && round.WellFormed()
    requires batchStart == batch * BATCH_SIZE && batchStart < batchEnd <= batchStart + BATCH_SIZE
    requires batchEnd <= |round.keys|
    requires before == ReadUpTo(round.keys, round.Outcomes(), prev, batchStart)
    requires unreadBefore <==> UnreadUpTo(round.keys, round.Outcomes(), prev, batchStart)
    ensures raw == ReadUpTo(round.keys, round.Outcomes(), prev, batchEnd)
    ensures unread <==> UnreadUpTo(round.keys, round.Outcomes(), prev, batchEnd)
  {
    OutcomeInBatch(round, batch, batchStart);
    hide ReadUpTo, UnreadUpTo, Round.Outcomes, Round.Outcome, Kept, Get, Stored;
    raw, unread := before, unreadBefore;
    var failed := round.batchFailed[batch];
    var i := batchStart;
    while i < batchEnd
      invariant batchStart <= i <= batchEnd
      invariant raw == ReadUpTo(round.keys, round.Outcomes(), prev, i)
      invariant unread <==> UnreadUpTo(round.keys, round.Outcomes(), prev, i)
    {
      OutcomeInBatch(round, batch, i);
      ReadStep(round.keys, round.Outcomes(), prev, i);
      raw, unread := ReadKey(round.keys[i], round.replies[i], failed, prev, raw, unread);
      i := i + 1;
    }
  }

  /** Judges one key by its own reply, unless its whole batch failed. */
  method ReadKey(key: Key, reply: Reply, batchFailed: bool, prev: Raw, before: Raw, unreadBefore: bool)
    returns (raw: Raw, unread: bool)
    ensures var outcome := if batchFailed then NoReply else reply;
      && raw == Stored(before, key, Kept(outcome, Get(prev, key)))
      && (unread <==> unreadBefore || (outcome == NoReply && key !in prev))
  {
    raw, unread := before, unreadBefore;
    if batchFailed || reply.NoReply? {
      if key in prev {
        raw := raw[key := prev[key]];
      } else {
        unread := true;
      }
    } else if reply.Rejected? {
    } else if reply.Hash? {
      raw := raw[key := reply.fields];
    }
  }

  lemma OutcomeInBatch(round: Round, batch: nat, i: nat)
    requires round.Scanned? && round.WellFormed() && i < |round.keys|
    requires batch * BATCH_SIZE <= i < batch * BATCH_SIZE + BATCH_SIZE
    ensures batch < |round.batchFailed|
    ensures |round.Outcomes()| == |round.keys|
    ensures round.Outcomes()[i] == if round.batchFailed[batch] then NoReply else round.replies[i]
  {
    assert i / BATCH_SIZE == batch;
  }

  lemma ReadStep(keys: seq<Key>, replies: seq<Reply>, prev: Raw, i: nat)
    requires i < |keys| == |replies|
    ensures ReadUpTo(keys, replies, prev, i + 1)
      == Stored(ReadUpTo(keys, replies, prev, i), keys[i], Kept(replies[i], Get(prev, keys[i])))
    ensures UnreadUpTo(keys, replies, prev, i + 1) <==>
      UnreadUpTo(keys, replies, prev, i) || (replies[i] == NoReply && keys[i] !in prev)
  {
  }

  /** Keys the scan did not return are gone. */
  lemma {:induction false} OnlyScannedKeys(keys: seq<Key>, replies: seq<Reply>, prev: Raw, n: nat, k: Key)
    requires n <= |keys| == |replies| && k !in keys[..n]
    ensures k !in ReadUpTo(keys, replies, prev, n)
  {
    if n > 0 {
      assert keys[..n][n - 1] == keys[n - 1] && forall i :: 0 <= i < n - 1 ==> keys[..n][i] == keys[..n - 1][i];
      OnlyScannedKeys(keys, replies, prev, n - 1, k);
    }
  }

  // ------------------------------------------------------------------------
  // What one round makes of one key
  // ------------------------------------------------------------------------

  /** Index `i` is the last at which `k` was read, among the first `n`. */
  ghost predicate LastRead(keys: seq<Key>, replies: seq<Reply>, k: Key, n: nat, i: int)
    requires n <= |keys| == |replies|
  {
    && 0 <= i < n && keys[i] == k && replies[i].Hash?
    && forall j :: i < j < n && keys[j] == k ==> !replies[j].Hash?
  }

  ghost predicate Unanswered(keys: seq<Key>, replies: seq<Reply>, k: Key, n: nat)
    requires n <= |keys| == |replies|
  {
    exists i :: 0 <= i < n && keys[i] == k && replies[i] == NoReply
  }

  /** The value `k` should have: the one last read, else, if some read failed, the previous one,
      else none. */
  ghost function Value(keys: seq<Key>, replies: seq<Reply>, prev: Option<Fields>, k: Key, n: nat): Option<Fields>
    requires n <= |keys| == |replies|
  {
    if i :| LastRead(keys, replies, k, n, i) then Some(replies[i].fields)
    else if Unanswered(keys, replies, k, n) then prev
    else None
  }

  /** The key does not fail after it was read. */
  ghost predicate NoFailureAfterRead(keys: seq<Key>, replies: seq<Reply>, k: Key)
    requires |keys| == |replies|
  {
    forall i, j :: 0 <= i < j < |keys| && keys[i] == k && keys[j] == k && replies[i].Hash? ==> replies[j] != NoReply
  }

  /** A key that does not fail after it was read gets the value it should have. */
  lemma {:induction false} RoundGivesValue(keys: seq<Key>, replies: seq<Reply>, prev: Raw, k: Key, n: nat)
    requires n <= |keys| == |replies| && NoFailureAfterRead(keys, replies, k)
    ensures Get(ReadUpTo(keys, replies, prev, n), k) == Value(keys, replies, Get(prev, k), k, n)
  {
    if n > 0 {
      var last := n - 1;
      RoundGivesValue(keys, replies, prev, k, last);
      if keys[last] != k || !replies[last].Hash? {
        assert forall i :: LastRead(keys, replies, k, n, i) <==> LastRead(keys, replies, k, last, i);
      } else {
        assert LastRead(keys, replies, k, n, last);
      }
      if keys[last] == k && replies[last] == NoReply {
        assert Unanswered(keys, replies, k, n);
        assert forall i :: !LastRead(keys, replies, k, last, i);
      } else {
        assert Unanswered(keys, replies, k, n) <==> Unanswered(keys, replies, k, last);
      }
    }
  }

  lemma {:induction false} SomeLastRead(keys: seq<Key>, replies: seq<Reply>, i: nat) returns (last: nat)
    requires i < |keys| == |replies| && replies[i].Hash?
    ensures LastRead(keys, replies, keys[i], |keys|, last)
    decreases |keys| - i
  {
    if j :| i < j < |keys| && keys[j] == keys[i] && replies[j].Hash? {
      last := SomeLastRead(keys, replies, j);
    } else {
      last := i;
    }
  }

  // ------------------------------------------------------------------------
  // Repeated keys
  // ------------------------------------------------------------------------

  /** Of the occurrences of `k`, only the first two keys of a batch are more than one. */
  ghost predicate RepeatsLead(keys: seq<Key>, k: Key) {
    forall i, j :: 0 <= i < j < |keys| && keys[i] == k && keys[j] == k ==> j == i + 1 && i % BATCH_SIZE == 0
  }

  /** If the key was read in this round, its value is one that was read in this round. */
  ghost predicate FreshIsKept(keys: seq<Key>, replies: seq<Reply>, prev: Raw, k: Key)
    requires |keys| == |replies|
  {
    forall i :: 0 <= i < |keys| && keys[i] == k && replies[i].Hash? ==>
      exists j :: 0 <= j < |keys| && keys[j] == k && replies[j].Hash?
               && Get(ReadAll(keys, replies, prev), k) == Some(replies[j].fields)
  }

  /** Whatever the replies to a scan that returned `keys`. */
  ghost predicate AlwaysFresh(keys: seq<Key>, k: Key) {
    forall round: Round, prev: Raw ::
      round.Scanned? && round.WellFormed() && round.keys == keys ==> FreshIsKept(keys, round.Outcomes(), prev, k)
  }

  /** The second of two leading keys fails alone only if the first was rejected. */
  lemma LeadingRepeatsDoNotFail(round: Round, k: Key)
    requires round.Scanned? && round.WellFormed() && RepeatsLead(round.keys, k)
    ensures NoFailureAfterRead(round.keys, round.Outcomes(), k)
  {
    var keys := round.keys;
    forall i, j | 0 <= i < j < |keys| && keys[i] == k && keys[j] == k && round.Outcomes()[i].Hash?
      ensures round.Outcomes()[j] != NoReply
    {
      assert j == i + 1 && BatchStart(j) == i && i / BATCH_SIZE == j / BATCH_SIZE;
    }
  }

  lemma ReadIsFresh(keys: seq<Key>, replies: seq<Reply>, prev: Raw, k: Key)
    requires |keys| == |replies| && NoFailureAfterRead(keys, replies, k)
    ensures FreshIsKept(keys, replies, prev, k)
  {
    forall i | 0 <= i < |keys| && keys[i] == k && replies[i].Hash?
      ensures exists j :: 0 <= j < |keys| && keys[j] == k && replies[j].Hash?
               && Get(ReadAll(keys, replies, prev), k) == Some(replies[j].fields)
    {
      var last := SomeLastRead(keys, replies, i);
      RoundGivesValue(keys, replies, prev, k, |keys|);
      assert forall j :: LastRead(keys, replies, k, |keys|, j) ==> j == last;
      assert Value(keys, replies, Get(prev, k), k, |keys|) == Some(replies[last].fields);
    }
  }

  /** A key the scan returned once, at `i`: what was read, the previous value if the read or its
      batch failed, and nothing if Redis had nothing or rejected it. */
  lemma SingleRead(round: Round, prev: Raw, i: nat)
    requires round.Scanned? && round.WellFormed() && i < |round.keys|
    requires forall j :: 0 <= j < |round.keys| && round.keys[j] == round.keys[i] ==> j == i
    ensures Get(ReadAll(round.keys, round.Outcomes(), prev), round.keys[i]) ==
      if round.batchFailed[i / 100] || round.replies[i] == NoReply
      then if round.keys[i] in prev then Some(prev[round.keys[i]]) else None
      else if round.replies[i].Hash? then Some(round.replies[i].fields) else None
  {
    var keys, replies, k := round.keys, round.Outcomes(), round.keys[i];
    assert replies[i] == if round.batchFailed[i / BATCH_SIZE] then NoReply else round.replies[i];
    RoundGivesValue(keys, replies, prev, k, |keys|);
    if replies[i].Hash? {
      assert LastRead(keys, replies, k, |keys|, i);
    }
    assert forall j :: LastRead(keys, replies, k, |keys|, j) ==> j == i;
  }

  /** A failure after the only read of a key leaves the key with its previous value. */
  lemma {:induction false} FailureAfterReadIsStale(keys: seq<Key>, replies: seq<Reply>, prev: Raw, j: nat, n: nat)
    requires j < n <= |keys| == |replies| && keys[j] in prev && replies[j] == NoReply
    requires forall x :: j < x < n && keys[x] == keys[j] ==> !replies[x].Hash?
    ensures Get(ReadUpTo(keys, replies, prev, n), keys[j]) == Some(prev[keys[j]])
  {
    if j < n - 1 {
      FailureAfterReadIsStale(keys, replies, prev, j, n - 1);
    }
  }

  /** A scan with a repeat elsewhere, and replies under which the value just read is lost: the
      first occurrence is read, and the second fails with its own batch or, in the same batch,
      with everything after a rejected key. */
  function StaleRound(keys: seq<Key>, i: nat, j: nat): Round
    requires i < j < |keys|
  {
    var batches := |keys| / BATCH_SIZE + 1;
    if i / BATCH_SIZE != j / BATCH_SIZE then
      Scanned(keys, seq(|keys|, x => if x == i then Hash(Fields(None, 1)) else Empty),
              seq(batches, b => b == j / BATCH_SIZE))
    else
      var r := if i == BatchStart(j) then i + 1 else BatchStart(j);
      Scanned(keys,
              seq(|keys|, x => if x == i then Hash(Fields(None, 1)) else if x == r then Rejected
                               else if j <= x && BatchStart(x) == BatchStart(j) then NoReply else Empty),
              seq(batches, b => false))
  }

  lemma StaleRoundIsPossible(keys: seq<Key>, i: nat, j: nat)
    requires i < j < |keys| && !(j == i + 1 && i % BATCH_SIZE == 0)
    ensures var round := StaleRound(keys, i, j);
      && round.Scanned? && round.WellFormed() && round.keys == keys
      && round.Outcome(i) == Hash(Fields(None, 1)) && round.Outcome(j) == NoReply
      && forall x :: 0 <= x < |keys| && x != i ==> !round.Outcome(x).Hash?
  {
    var round := StaleRound(keys, i, j);
    if i / BATCH_SIZE == j / BATCH_SIZE {
      var r := if i == BatchStart(j) then i + 1 else BatchStart(j);
      assert BatchStart(i) == BatchStart(j) <= r < j && r != i;
      assert round.replies[r] == Rejected;
    }
  }

  lemma RepeatedKeyCanGoStale(keys: seq<Key>, i: nat, j: nat)
    requires i < j < |keys| && keys[i] == keys[j] && !(j == i + 1 && i % BATCH_SIZE == 0)
    ensures var round := StaleRound(keys, i, j);
      round.WellFormed() && !FreshIsKept(keys, round.Outcomes(), map[keys[i] := Fields(None, 0)], keys[i])
  {
    StaleRoundIsPossible(keys, i, j);
    var outcomes, prev := StaleRound(keys, i, j).Outcomes(), map[keys[i] := Fields(None, 0)];
    assert outcomes[i] == Hash(Fields(None, 1)) && outcomes[j] == NoReply;
    assert forall x :: 0 <= x < |keys| && x != i ==> !outcomes[x].Hash?;
    hide StaleRound, Round.WellFormed, Round.Outcomes, Round.Outcome;
    FailureAfterReadIsStale(keys, outcomes, prev, j, |keys|);
  }

  /** Redis may return a key twice in one scan.  A round keeps what it reads of a key, whatever
      the replies, exactly if the key's only repeats are the first two keys of a batch. */
  lemma FreshIffRepeatsLead(keys: seq<Key>, k: Key)
    ensures AlwaysFresh(keys, k) <==> RepeatsLead(keys, k)
  {
    if RepeatsLead(keys, k) {
      forall round: Round, prev: Raw | round.Scanned? && round.WellFormed() && round.keys == keys
        ensures FreshIsKept(keys, round.Outcomes(), prev, k)
      {
        LeadingRepeatsDoNotFail(round, k);
        ReadIsFresh(keys, round.Outcomes(), prev, k);
      }
    } else {
      var i, j :| 0 <= i < j < |keys| && keys[i] == k && keys[j] == k && !(j == i + 1 && i % BATCH_SIZE == 0);
      RepeatedKeyCanGoStale(keys, i, j);
    }
  }

  /** What happens to one batch leaves the keys of every other batch alone. */
  lemma BatchesAreIndependent(a: Round, b: Round, prev: Raw, batch: nat, i: nat)
    requires a.Scanned? && b.Scanned? && a.WellFormed() && b.WellFormed()
    requires a.keys == b.keys
    requires forall j :: 0 <= j < |a.keys| && j / BATCH_SIZE != batch ==> a.Outcome(j) == b.Outcome(j)
    requires i < |a.keys| && i / BATCH_SIZE != batch && RepeatsLead(a.keys, a.keys[i])
    ensures Get(ReadAll(a.keys, a.Outcomes(), prev), a.keys[i]) == Get(ReadAll(b.keys, b.Outcomes(), prev), b.keys[i])
  {
    var keys, k, n := a.keys, a.keys[i], |a.keys|;
    LeadingRepeatsDoNotFail(a, k);
    LeadingRepeatsDoNotFail(b, k);
    RoundGivesValue(keys, a.Outcomes(), prev, k, n);
    RoundGivesValue(keys, b.Outcomes(), prev, k, n);
    forall j | 0 <= j < n && keys[j] == k
      ensures a.Outcomes()[j] == b.Outcomes()[j]
    {
      assert j == i || j == i + 1 || i == j + 1;
      assert j / BATCH_SIZE == i / BATCH_SIZE;
    }
    SameRepliesSameValue(keys, a.Outcomes(), b.Outcomes(), Get(prev, k), k);
  }

  lemma SameRepliesSameValue(keys: seq<Key>, a: seq<Reply>, b: seq<Reply>, prev: Option<Fields>, k: Key)
    requires |keys| == |a| == |b| && forall j :: 0 <= j < |keys| && keys[j] == k ==> a[j] == b[j]
    ensures Value(keys, a, prev, k, |keys|) == Value(keys, b, prev, k, |keys|)
  {
    assert forall i :: LastRead(keys, a, k, |keys|, i) <==> LastRead(keys, b, k, |keys|, i);
    assert forall i, j :: LastRead(keys, a, k, |keys|, i) && LastRead(keys, a, k, |keys|, j) ==> i == j;
    assert Unanswered(keys, a, k, |keys|) <==> Unanswered(keys, b, k, |keys|);
  }

  // ------------------------------------------------------------------------
  // Over many rounds
  // ------------------------------------------------------------------------

  ghost predicate AllWellFormed(history: seq<Round>) {
    forall i :: 0 <= i < |history| ==> history[i].WellFormed()
  }

  /** The value last read from `k` since it was last found missing, empty or rejected. */
  ghost function LastGood(history: seq<Round>, k: Key): Option<Fields>
    requires AllWellFormed(history)
  {
    if history == [] then None
    else
      var n := |history| - 1;
      var round := history[n];
      if round.ScanFailed? then LastGood(history[..n], k)
      else Value(round.keys, round.Outcomes(), LastGood(history[..n], k), k, |round.keys|)
  }

  // ------------------------------------------------------------------------
  // Grouping by pod
  // ------------------------------------------------------------------------

  type Grouped = map<PodKey, seq<Fields>>

  function GroupOf(grouped: Grouped, pod: PodKey): seq<Fields> {
    if pod in grouped then grouped[pod] else []
  }

  /** The snapshots of one pod among `keys`, with repetitions. */
  ghost function SnapshotsOf(raw: Raw, keys: set<Key>, pod: PodKey): multiset<Fields>
    requires keys <= raw.Keys
  {
    if keys == {} then multiset{}
    else
      var k :| k in keys;
      SnapshotsOf(raw, keys - {k}, pod) + if raw[k].pod == Some(pod) then multiset{raw[k]} else multiset{}
  }

  lemma {:induction false} SnapshotsRemove(raw: Raw, keys: set<Key>, k: Key, pod: PodKey)
    requires k in keys && keys <= raw.Keys
    ensures SnapshotsOf(raw, keys, pod)
         == SnapshotsOf(raw, keys - {k}, pod) + if raw[k].pod == Some(pod) then multiset{raw[k]} else multiset{}
  {
    var c :| c in keys && SnapshotsOf(raw, keys, pod)
      == SnapshotsOf(raw, keys - {c}, pod) + if raw[c].pod == Some(pod) then multiset{raw[c]} else multiset{};
    if c != k {
      SnapshotsRemove(raw, keys - {c}, k, pod);
      SnapshotsRemove(raw, keys - {k}, c, pod);
      assert keys - {c} - {k} == keys - {k} - {c};
    }
  }

  /** The keys a snapshot of one pod was read from. */
  ghost function KeysOf(raw: Raw, keys: set<Key>, pod: PodKey, f: Fields): set<Key>
    requires keys <= raw.Keys
  {
    set k | k in keys && raw[k] == f && raw[k].pod == Some(pod)
  }

  lemma KeysOfRemove(raw: Raw, keys: set<Key>, c: Key, pod: PodKey, f: Fields)
    requires c in keys && keys <= raw.Keys
    ensures |KeysOf(raw, keys, pod, f)|
         == |KeysOf(raw, keys - {c}, pod, f)| + if raw[c] == f && raw[c].pod == Some(pod) then 1 else 0
  {
    var rest := KeysOf(raw, keys - {c}, pod, f);
    if raw[c] == f && raw[c].pod == Some(pod) {
      assert KeysOf(raw, keys, pod, f) == rest + {c};
    } else {
      assert KeysOf(raw, keys, pod, f) == rest;
    }
  }

  /** A snapshot is among them once for every key it was read from. */
  lemma {:induction false} SnapshotsCount(raw: Raw, keys: set<Key>, pod: PodKey, f: Fields)
    requires keys <= raw.Keys
    ensures SnapshotsOf(raw, keys, pod)[f] == |KeysOf(raw, keys, pod, f)|
  {
    if keys == {} {
      assert KeysOf(raw, keys, pod, f) == {};
    } else {
      var c :| c in keys;
      SnapshotsCount(raw, keys - {c}, pod, f);
      SnapshotsRemove(raw, keys, c, pod);
      KeysOfRemove(raw, keys, c, pod, f);
      hide SnapshotsOf, KeysOf;
    }
  }

  /** Every snapshot that names a pod is in that pod's group, once for every key it came from. */
  ghost predicate GroupsMatch(grouped: Grouped, raw: Raw, keys: set<Key>)
    requires keys <= raw.Keys
  {
    forall pod :: multiset(GroupOf(grouped, pod)) == SnapshotsOf(raw, keys, pod)
  }

  lemma GroupsCount(grouped: Grouped, raw: Raw)
    requires GroupsMatch(grouped, raw, raw.Keys)
    ensures forall pod: PodKey, f :: multiset(GroupOf(grouped, pod))[f] == |KeysOf(raw, raw.Keys, pod, f)|
  {
    forall pod: PodKey, f
      ensures multiset(GroupOf(grouped, pod))[f] == |KeysOf(raw, raw.Keys, pod, f)|
    {
      SnapshotsCount(raw, raw.Keys, pod, f);
    }
  }

  lemma GroupHolds(grouped: Grouped, raw: Raw, pod: PodKey, f: Fields)
    requires GroupsMatch(grouped, raw, raw.Keys)
    ensures f in GroupOf(grouped, pod) <==> KeysOf(raw, raw.Keys, pod, f) != {}
  {
    SnapshotsCount(raw, raw.Keys, pod, f);
    assert f in GroupOf(grouped, pod) <==> multiset(GroupOf(grouped, pod))[f] > 0;
  }

  method GroupSnapshotsByPod(raw: Raw) returns (grouped: Grouped)
    ensures GroupsMatch(grouped, raw, raw.Keys)
    ensures forall pod: PodKey, f :: multiset(GroupOf(grouped, pod))[f] == |KeysOf(raw, raw.Keys, pod, f)|
    ensures forall pod :: pod in grouped ==> grouped[pod] != []
  {
    grouped := map[];
    var rest := raw.Keys;
    assert raw.Keys - rest == {};
    while rest != {}
      invariant rest <= raw.Keys
      invariant GroupsMatch(grouped, raw, raw.Keys - rest)
      invariant forall pod :: pod in grouped ==> grouped[pod] != []
    {
      var k :| k in rest;
      ghost var done := raw.Keys - (rest - {k});
      assert done - {k} == raw.Keys - rest;
      ghost var before := grouped;
      var fields := raw[k];
      if fields.pod.Some? {
        grouped := grouped[fields.pod.value := GroupOf(grouped, fields.pod.value) + [fields]];
      }
      forall pod
        ensures multiset(GroupOf(grouped, pod)) == SnapshotsOf(raw, done, pod)
      {
        SnapshotsRemove(raw, done, k, pod);
      }
      rest := rest - {k};
    }
    assert raw.Keys - {} == raw.Keys;
    GroupsCount(grouped, raw);
  }

  // ------------------------------------------------------------------------
  // The tick
  // ------------------------------------------------------------------------

  class Sync {
    var prevRaw: Option<Raw>
    var cache: Option<Grouped>
    ghost var history: seq<Round>

    constructor ()
      ensures Valid() && cache == None && history == []
    {
      prevRaw, cache, history := None, None, [];
    }

    ghost predicate Valid()
      reads this
    {
      && AllWellFormed(history)
      && (prevRaw.Some? <==> exists i :: 0 <= i < |history| && history[i].Complete())
      && (cache.Some? <==> prevRaw.Some?)
      && (cache.Some? ==> GroupsMatch(cache.value, prevRaw.value, prevRaw.value.Keys))
      && (prevRaw.Some? ==> forall k :: ScansOk(history, k) ==> Get(prevRaw.value, k) == LastGood(history, k))
    }

    /** What the cache holds: for every pod, the snapshots last read from some key that name it. */
    lemma CacheIsLastGood(pod: PodKey, f: Fields)
      requires Valid() && cache.Some? && forall k :: ScansOk(history, k)
      ensures f in GroupOf(cache.value, pod) <==> f.pod == Some(pod) && exists k :: LastGood(history, k) == Some(f)
    {
      var raw := prevRaw.value;
      GroupHolds(cache.value, raw, pod, f);
      var keys := KeysOf(raw, raw.Keys, pod, f);
      if f in GroupOf(cache.value, pod) {
        var k :| k in keys;
        assert Get(raw, k) == LastGood(history, k);
      }
      if k :| f.pod == Some(pod) && LastGood(history, k) == Some(f) {
        assert Get(raw, k) == LastGood(history, k);
        assert k in keys;
      }
    }

    /** One tick, given what the scan and the reads came to.  Nothing is published before some
        round could read every key; from then on the cache holds for every key the value last
        read from it, unless a scan repeated that key elsewhere than at the head of a
        batch. */
    method Tick(round: Round)
      requires Valid() && round.WellFormed()
      modifies this
      ensures Valid() && history == old(history) + [round]
      ensures round.ScanFailed? ==> cache == old(cache)
    {
      history := history + [round];
      assert history[..|history| - 1] == old(history);
      Extends(old(history), round);
      if round.ScanFailed? {
        return;
      }
      var newRaw, unread := ReadGatewaySnapshots(round, prevRaw);
      if prevRaw.None? {
        FirstRound(round);
        if unread {
          return;
        }
      }
      RoundKeepsLastGood(old(history), round, prevRaw, newRaw);
      prevRaw := Some(newRaw);
      var newCache := GroupSnapshotsByPod(newRaw);
      cache := Some(newCache);
    }
  }

  ghost predicate ScansOk(history: seq<Round>, k: Key) {
    forall i :: 0 <= i < |history| && history[i].Scanned? ==> RepeatsLead(history[i].keys, k)
  }

  lemma Extends(history: seq<Round>, round: Round)
    requires AllWellFormed(history) && round.WellFormed()
    ensures AllWellFormed(history + [round])
    ensures (exists i :: 0 <= i < |history + [round]| && (history + [round])[i].Complete())
      <==> (exists i :: 0 <= i < |history| && history[i].Complete()) || round.Complete()
    ensures forall k :: ScansOk(history + [round], k) <==>
      ScansOk(history, k) && (round.Scanned? ==> RepeatsLead(round.keys, k))
    ensures round.ScanFailed? ==> forall k :: LastGood(history + [round], k) == LastGood(history, k)
  {
    var all := history + [round];
    assert all[..|history|] == history && all[|history|] == round;
    assert forall i :: 0 <= i < |history| ==> all[i] == history[i];
  }

  lemma FirstRound(round: Round)
    requires round.Scanned? && round.WellFormed()
    ensures Unread(round.keys, round.Outcomes(), map[]) <==> !round.Complete()
  {
    assert forall i :: 0 <= i < |round.keys| ==> round.Outcomes()[i] == round.Outcome(i);
  }

  lemma RoundKeepsLastGood(history: seq<Round>, round: Round, prevRaw: Option<Raw>, raw: Raw)
    requires AllWellFormed(history) && round.Scanned? && round.WellFormed()
    requires raw == ReadAll(round.keys, round.Outcomes(), PrevOf(prevRaw))
    requires prevRaw.None? ==> round.Complete()
    requires prevRaw.Some? ==> forall k :: ScansOk(history, k) ==> Get(prevRaw.value, k) == LastGood(history, k)
    ensures AllWellFormed(history + [round])
    ensures forall k :: ScansOk(history + [round], k) ==> Get(raw, k) == LastGood(history + [round], k)
  {
    Extends(history, round);
    forall k: Key | ScansOk(history + [round], k)
      ensures Get(raw, k) == LastGood(history + [round], k)
    {
      KeyKeepsLastGood(history, round, prevRaw, k);
    }
  }

  lemma KeyKeepsLastGood(history: seq<Round>, round: Round, prevRaw: Option<Raw>, k: Key)
    requires AllWellFormed(history + [round]) && AllWellFormed(history)
    requires round.Scanned? && round.WellFormed() && RepeatsLead(round.keys, k)
    requires if prevRaw.None? then round.Complete() else Get(prevRaw.value, k) == LastGood(history, k)
    ensures Get(ReadAll(round.keys, round.Outcomes(), PrevOf(prevRaw)), k) == LastGood(history + [round], k)
  {
    var all := history + [round];
    assert all[..|all| - 1] == history && all[|all| - 1] == round;
    LeadingRepeatsDoNotFail(round, k);
    RoundGivesValue(round.keys, round.Outcomes(), PrevOf(prevRaw), k, |round.keys|);
    if prevRaw.None? {
      assert !Unanswered(round.keys, round.Outcomes(), k, |round.keys|);
    }
  }
}
