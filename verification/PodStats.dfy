/** Per-pod request accounting across pod flaps.

  A request adds one to a pod's running counter in one critical section and its
  pending load in a second one.  In between, and until the request completes,
  the informer may delete the pod, park its counters in a snapshot, and re-add
  it, resuming the same statistics generation or starting a fresh one.  Every
  method of `Store` below is one critical section under the pod's stripe lock;
  `Store.Valid` is what all interleavings of them keep.
  */
module PodStats {
  import opened Options

  /** The part of a Kubernetes pod the accounting looks at: its cache key
      (namespace/name) and its IP. */
  datatype PodSpec = PodSpec(key: PodKey, ip: Option<IP>)

  // Keys and addresses are only ever compared for equality.
  type PodKey = nat
  type IP = nat

  /** How long a deleted pod's counters wait for a re-add, in milliseconds. */
  const RECENTLY_DELETED_POD_GRACE_PERIOD: int := 60_000

  // ------------------------------------------------------------------------
  // What the counters should be: totals over the requests of one generation
  // ------------------------------------------------------------------------

  datatype Phase = Counted | Loaded | Finished

  /** One request: the generation it was counted on, how far it has come, the
      load it added and the output tokens it reported. */
  datatype Request = Request(gen: int, phase: Phase, load: real, tokens: int)

  datatype Counter = Running | Done | OutputTokens

  /** What one request contributes to a counter of generation `gen`. */
  function Share(r: Request, gen: int, c: Counter): int {
    if r.gen != gen then 0
    else match c
      case Running => if r.phase == Finished then 0 else 1
      case Done => if r.phase == Finished then 1 else 0
      case OutputTokens => if r.phase == Finished then r.tokens else 0
  }

  /** What one request contributes to the pending load of generation `gen`. */
  function LoadShare(r: Request, gen: int): real {
    if r.gen == gen && r.phase == Loaded then r.load else 0.0
  }

  ghost function Total(requests: seq<Request>, gen: int, c: Counter): int {
    if requests == [] then 0
    else Total(requests[..|requests| - 1], gen, c) + Share(requests[|requests| - 1], gen, c)
  }

  ghost function TotalLoad(requests: seq<Request>, gen: int): real {
    if requests == [] then 0.0
    else TotalLoad(requests[..|requests| - 1], gen) + LoadShare(requests[|requests| - 1], gen)
  }

  lemma TotalsAppend(requests: seq<Request>, r: Request, gen: int)
    ensures forall c :: Total(requests + [r], gen, c) == Total(requests, gen, c) + Share(r, gen, c)
    ensures TotalLoad(requests + [r], gen) == TotalLoad(requests, gen) + LoadShare(r, gen)
  {
    assert (requests + [r])[..|requests|] == requests;
  }

  lemma {:induction false} TotalUpdate(requests: seq<Request>, i: nat, r: Request, gen: int, c: Counter)
    requires i < |requests|
    ensures Total(requests[i := r], gen, c)
         == Total(requests, gen, c) - Share(requests[i], gen, c) + Share(r, gen, c)
  {
    var last := |requests| - 1;
    if i == last {
      assert requests[i := r][..last] == requests[..last];
    } else {
      assert requests[i := r][..last] == requests[..last][i := r];
      TotalUpdate(requests[..last], i, r, gen, c);
    }
  }

  lemma {:induction false} TotalLoadUpdate(requests: seq<Request>, i: nat, r: Request, gen: int)
    requires i < |requests|
    ensures TotalLoad(requests[i := r], gen)
         == TotalLoad(requests, gen) - LoadShare(requests[i], gen) + LoadShare(r, gen)
  {
    var last := |requests| - 1;
    if i == last {
      assert requests[i := r][..last] == requests[..last];
    } else {
      assert requests[i := r][..last] == requests[..last][i := r];
      TotalLoadUpdate(requests[..last], i, r, gen);
    }
  }

  /** A generation no request was counted on has zero totals. */
  lemma {:induction false} TotalsUnused(requests: seq<Request>, gen: int)
    requires forall i :: 0 <= i < |requests| ==> requests[i].gen != gen
    ensures forall c :: Total(requests, gen, c) == 0
    ensures TotalLoad(requests, gen) == 0.0
  {
    if requests != [] {
      TotalsUnused(requests[..|requests| - 1], gen);
    }
  }

  /** The four counters of a holder are the totals of the requests of `gen`. */
  ghost predicate Agree(running: int, completed: int, tokens: int, load: real, requests: seq<Request>, gen: int) {
    && running == Total(requests, gen, Running)
    && completed == Total(requests, gen, Done)
    && tokens == Total(requests, gen, OutputTokens)
    && load == TotalLoad(requests, gen)
  }

  /** From `before` to `after` the totals of `gen` moved by the given amounts and the
      totals of every other generation stayed. */
  ghost predicate Moved(before: seq<Request>, after: seq<Request>, gen: int,
                        running: int, completed: int, tokens: int, load: real) {
    && (forall g :: Total(after, g, Running) == Total(before, g, Running) + if g == gen then running else 0)
    && (forall g :: Total(after, g, Done) == Total(before, g, Done) + if g == gen then completed else 0)
    && (forall g :: Total(after, g, OutputTokens) == Total(before, g, OutputTokens) + if g == gen then tokens else 0)
    && (forall g :: TotalLoad(after, g) == TotalLoad(before, g) + if g == gen then load else 0.0)
  }

  lemma CountingMoves(requests: seq<Request>, gen: int)
    ensures Moved(requests, requests + [Request(gen, Counted, 0.0, 0)], gen, 1, 0, 0, 0.0)
  {
    var r := Request(gen, Counted, 0.0, 0);
    forall g ensures forall c :: Total(requests + [r], g, c) == Total(requests, g, c) + Share(r, g, c)
             ensures TotalLoad(requests + [r], g) == TotalLoad(requests, g) + LoadShare(r, g)
    {
      TotalsAppend(requests, r, g);
    }
  }

  lemma UpdatingMoves(requests: seq<Request>, i: nat, r: Request)
    requires i < |requests| && r.gen == requests[i].gen
    ensures Moved(requests, requests[i := r], r.gen,
                  Share(r, r.gen, Running) - Share(requests[i], r.gen, Running),
                  Share(r, r.gen, Done) - Share(requests[i], r.gen, Done),
                  Share(r, r.gen, OutputTokens) - Share(requests[i], r.gen, OutputTokens),
                  LoadShare(r, r.gen) - LoadShare(requests[i], r.gen))
  {
    forall g, c ensures Total(requests[i := r], g, c)
                     == Total(requests, g, c) - Share(requests[i], g, c) + Share(r, g, c)
    {
      TotalUpdate(requests, i, r, g, c);
    }
    forall g ensures TotalLoad(requests[i := r], g)
                  == TotalLoad(requests, g) - LoadShare(requests[i], g) + LoadShare(r, g)
    {
      TotalLoadUpdate(requests, i, r, g);
    }
  }

  /** The requests of a generation that have started and not completed. */
  ghost function Unfinished(requests: seq<Request>, gen: int): set<nat> {
    set i: nat | i < |requests| && requests[i].gen == gen && requests[i].phase != Finished
  }

  ghost function Completed(requests: seq<Request>, gen: int): set<nat> {
    set i: nat | i < |requests| && requests[i].gen == gen && requests[i].phase == Finished
  }

  /** The requests that add one to a counter. */
  ghost function Contributors(requests: seq<Request>, gen: int, c: Counter): set<nat> {
    set i: nat | i < |requests| && Share(requests[i], gen, c) == 1
  }

  lemma {:induction false} TotalCountsContributors(requests: seq<Request>, gen: int, c: Counter)
    requires c != OutputTokens
    ensures Total(requests, gen, c) == |Contributors(requests, gen, c)|
  {
    if requests != [] {
      var last := |requests| - 1;
      var init := Contributors(requests[..last], gen, c);
      TotalCountsContributors(requests[..last], gen, c);
      if Share(requests[last], gen, c) == 1 {
        assert Contributors(requests, gen, c) == init + {last};
      } else {
        assert Contributors(requests, gen, c) == init;
      }
    }
  }

  /** The running total counts exactly the unfinished requests of the generation,
      the completed total exactly the finished ones. */
  lemma TotalsCount(requests: seq<Request>, gen: int)
    ensures Total(requests, gen, Running) == |Unfinished(requests, gen)|
    ensures Total(requests, gen, Done) == |Completed(requests, gen)|
  {
    hide Total;
    TotalCountsContributors(requests, gen, Running);
    TotalCountsContributors(requests, gen, Done);
    assert Contributors(requests, gen, Running) == Unfinished(requests, gen);
    assert Contributors(requests, gen, Done) == Completed(requests, gen);
  }

  // ------------------------------------------------------------------------
  // Heap objects
  // ------------------------------------------------------------------------

  class Pod {
    var spec: PodSpec
    var runningRequests: int
    var completedRequests: int
    var completedOutputTokens: int
    var pendingLoadUtilization: real
    var statsGeneration: int

    constructor (spec: PodSpec)
      ensures this.spec == spec && Clean()
    {
      this.spec := spec;
      runningRequests, completedRequests, completedOutputTokens := 0, 0, 0;
      pendingLoadUtilization := 0.0;
      statsGeneration := 0;
    }

    /** Takes a finished request off the counters; reports whether the zero floor fired. */
    method Complete(outputTokens: int, load: real) returns (clamped: bool)
      modifies this
      ensures spec == old(spec) && statsGeneration == old(statsGeneration)
      ensures clamped <==> old(runningRequests) <= 0
      ensures !clamped ==> runningRequests == old(runningRequests) - 1
      ensures completedRequests == old(completedRequests) + 1
      ensures completedOutputTokens == old(completedOutputTokens) + outputTokens
      ensures pendingLoadUtilization == old(pendingLoadUtilization) - load
    {
      var (requests, floored) := DecrementClamped(runningRequests);
      runningRequests, clamped := requests, floored;
      completedRequests := completedRequests + 1;
      completedOutputTokens := completedOutputTokens + outputTokens;
      pendingLoadUtilization := pendingLoadUtilization - load;
    }

    /** Takes over a deleted pod's counters and generation. */
    method Resume(snap: DeletedPodSnapshot)
      modifies this
      ensures CountersEqual(this, snap) && spec == old(spec)
    {
      runningRequests := snap.runningRequests;
      completedRequests := snap.completedRequests;
      completedOutputTokens := snap.completedOutputTokens;
      pendingLoadUtilization := snap.pendingLoadUtilization;
      statsGeneration := snap.statsGeneration;
    }

    /** Clears what a previous use may have seeded. */
    method Reset()
      modifies this
      ensures Clean() && spec == old(spec)
    {
      runningRequests := 0;
      completedRequests := 0;
      completedOutputTokens := 0;
      pendingLoadUtilization := 0.0;
      statsGeneration := 0;
    }

    ghost predicate Zero()
      reads this
    {
      runningRequests == 0 && completedRequests == 0 && completedOutputTokens == 0 && pendingLoadUtilization == 0.0
    }

    ghost predicate Clean()
      reads this
    {
      Zero() && statsGeneration == 0
    }

    ghost predicate Conserves(requests: seq<Request>)
      reads this
    {
      Agree(runningRequests, completedRequests, completedOutputTokens, pendingLoadUtilization,
            requests, statsGeneration)
    }
  }

  class DeletedPodSnapshot {
    const pod: Pod
    const podIP: Option<IP>
    const statsGeneration: int
    const deletedAt: int
    var runningRequests: int
    var completedRequests: int
    var completedOutputTokens: int
    var pendingLoadUtilization: real

    constructor (pod: Pod, deletedAt: int)
      ensures this.pod == pod && podIP == pod.spec.ip && this.deletedAt == deletedAt
      ensures CountersEqual(pod, this)
    {
      this.pod := pod;
      podIP := pod.spec.ip;
      statsGeneration := pod.statsGeneration;
      runningRequests := pod.runningRequests;
      completedRequests := pod.completedRequests;
      this.deletedAt := deletedAt;
      completedOutputTokens := pod.completedOutputTokens;
      pendingLoadUtilization := pod.pendingLoadUtilization;
    }

    /** Takes a finished request off the counters; reports whether the zero floor fired. */
    method Complete(outputTokens: int, load: real) returns (clamped: bool)
      modifies this
      ensures clamped <==> old(runningRequests) <= 0
      ensures !clamped ==> runningRequests == old(runningRequests) - 1
      ensures completedRequests == old(completedRequests) + 1
      ensures completedOutputTokens == old(completedOutputTokens) + outputTokens
      ensures pendingLoadUtilization == old(pendingLoadUtilization) - load
    {
      var (requests, floored) := DecrementClamped(runningRequests);
      runningRequests, clamped := requests, floored;
      completedRequests := completedRequests + 1;
      completedOutputTokens := completedOutputTokens + outputTokens;
      pendingLoadUtilization := pendingLoadUtilization - load;
    }

    ghost predicate Conserves(requests: seq<Request>)
      reads this
    {
      Agree(runningRequests, completedRequests, completedOutputTokens, pendingLoadUtilization,
            requests, statsGeneration)
    }
  }

  /** What a request remembers between its start and its completion. */
  class PodStatsRecord {
    const pod: Pod
    var pendingLoad: real

    constructor (pod: Pod)
      ensures this.pod == pod && pendingLoad == 0.0
    {
      this.pod := pod;
      pendingLoad := 0.0;
    }
  }

  /** A pod and a snapshot with the same counters and generation. */
  ghost predicate CountersEqual(p: Pod, s: DeletedPodSnapshot)
    reads p, s
  {
    && p.statsGeneration == s.statsGeneration
    && p.runningRequests == s.runningRequests
    && p.completedRequests == s.completedRequests
    && p.completedOutputTokens == s.completedOutputTokens
    && p.pendingLoadUtilization == s.pendingLoadUtilization
  }

  /** The object that carries a pod key's counters right now. */
  datatype Holder = Live(pod: Pod) | Pending(snap: DeletedPodSnapshot)

  /** `decrementClamped`: one less, never below zero; also reports whether the floor fired. */
  function DecrementClamped(counter: int): (r: (int, bool))
    ensures r.1 <==> counter <= 0
    ensures r.0 == if r.1 then 0 else counter - 1
  {
    if counter <= 0 then (0, true) else (counter - 1, false)
  }

  predicate SameStatsGeneration(a: int, b: int) {
    a != 0 && a == b
  }

  // ------------------------------------------------------------------------
  // Whole runs, on values
  // ------------------------------------------------------------------------

  /** One atomic step of some goroutine.  Requests are numbered in the order they were
      counted; a step of a request that is not at that point is not enabled. */
  datatype Action =
    | Start(target: PodSpec)
    | AddLoad(i: nat, consumption: Option<real>)
    | Complete(i: nat, outputTokens: int)
    | Delete(key: PodKey, now: int)
    | Add(spec: PodSpec, now: int)

  datatype Slot = Slot(ip: Option<IP>, gen: int)
  datatype Parked = Parked(ip: Option<IP>, gen: int, at: int)

  /** Which generation lives under which key, which is parked there, and every request. */
  datatype View = View(live: map<PodKey, Slot>, parked: map<PodKey, Parked>, lastGen: int, requests: seq<Request>)

  const EMPTY := View(map[], map[], 0, [])

  /** Some key carries generation `gen`. */
  predicate Carried(v: View, gen: int) {
    (exists k :: k in v.live && v.live[k].gen == gen) || (exists k :: k in v.parked && v.parked[k].gen == gen)
  }

  /** The generation a request routed to `target` is counted on. */
  function CountedOn(v: View, target: PodSpec): Option<int> {
    if target.key in v.live then Some(v.live[target.key].gen)
    else if target.ip != None && target.key in v.parked && v.parked[target.key].ip == target.ip
    then Some(v.parked[target.key].gen)
    else None
  }

  /** Whether re-adding `spec` at time `now` continues what is parked. */
  predicate Continues(v: View, spec: PodSpec, now: int) {
    && spec.key in v.parked && now - v.parked[spec.key].at < RECENTLY_DELETED_POD_GRACE_PERIOD
    && v.parked[spec.key].ip != None && v.parked[spec.key].ip == spec.ip
  }

  function Kept(parked: map<PodKey, Parked>, now: int): map<PodKey, Parked> {
    map k | k in parked && now - parked[k].at < RECENTLY_DELETED_POD_GRACE_PERIOD :: parked[k]
  }

  function After(v: View, hasPendingLoadProvider: bool, action: Action): View {
    match action
    case Start(target) =>
      var gen := CountedOn(v, target);
      if gen == None then v else v.(requests := v.requests + [Request(gen.value, Counted, 0.0, 0)])
    case AddLoad(i, consumption) =>
      if i < |v.requests| && v.requests[i].phase == Counted
      then
        var load := if hasPendingLoadProvider && consumption.Some? then consumption.value else 0.0;
        v.(requests := v.requests[i := v.requests[i].(phase := Loaded, load := load)])
      else v
    case Complete(i, outputTokens) =>
      if i < |v.requests| && v.requests[i].phase == Loaded
      then
        var tokens := if outputTokens < 0 then 0 else outputTokens;
        v.(requests := v.requests[i := v.requests[i].(phase := Finished, tokens := tokens)])
      else v
    case Delete(key, now) =>
      if key !in v.live then v
      else v.(live := v.live - {key},
              parked := Kept(v.parked[key := Parked(v.live[key].ip, v.live[key].gen, now)], now))
    case Add(spec, now) =>
      var renewed := !Continues(v, spec, now);
      var lastGen := if renewed then v.lastGen + 1 else v.lastGen;
      var gen := if renewed then lastGen else v.parked[spec.key].gen;
      View(if spec.key in v.live then v.live else v.live[spec.key := Slot(spec.ip, gen)],
           v.parked - {spec.key}, lastGen, v.requests)
  }

  /** The view after the first `n` actions of a schedule. */
  ghost function AfterFirst(hasPendingLoadProvider: bool, schedule: seq<Action>, n: nat): View
    requires n <= |schedule|
  {
    if n == 0 then EMPTY
    else After(AfterFirst(hasPendingLoadProvider, schedule, n - 1), hasPendingLoadProvider, schedule[n - 1])
  }

  // ------------------------------------------------------------------------
  // The store
  // ------------------------------------------------------------------------

  class Store {
    const hasPendingLoadProvider: bool
    var metaPods: map<PodKey, Pod>
    var recentlyDeletedPods: map<PodKey, DeletedPodSnapshot>
    var bufferPod: Pod?
    var nextStatsGeneration: int

    // Every request ever counted, in order, and the record each one holds.
    ghost var requests: seq<Request>
    ghost var records: seq<PodStatsRecord>
    // Every pod object ever published, every snapshot ever taken, and the pod key of
    // every generation issued.
    ghost var published: set<Pod>
    ghost var snapshots: set<DeletedPodSnapshot>
    ghost var keyOf: map<int, PodKey>
    ghost var repr: set<object>

    constructor (hasPendingLoadProvider: bool)
      ensures Valid() && repr == {this} && requests == [] && records == []
      ensures metaPods == map[] && recentlyDeletedPods == map[] && nextStatsGeneration == 0
      ensures this.hasPendingLoadProvider == hasPendingLoadProvider && CurrentView() == EMPTY
    {
      this.hasPendingLoadProvider := hasPendingLoadProvider;
      metaPods, recentlyDeletedPods, bufferPod := map[], map[], null;
      nextStatsGeneration := 0;
      requests, records, published, snapshots, keyOf, repr := [], [], {}, {}, map[], {this};
    }

    /** `repr` holds every object the store may touch. */
    ghost predicate ReprOk()
      reads this
    {
      && this in repr && published <= repr && snapshots <= repr
      && (forall i :: 0 <= i < |records| ==> records[i] in repr)
      && (bufferPod != null ==> bufferPod in repr)
    }

    /** The spare pod kept for the next add carries no counters and no generation. */
    ghost predicate BufferClean()
      reads this, bufferPod
    {
      bufferPod != null ==>
        bufferPod !in published && bufferPod.Clean()
    }

    /** Generations name pod keys, and every published pod belongs to one. */
    ghost predicate GenerationsOk()
      reads this, published
    {
      && nextStatsGeneration >= 0
      && (forall g :: g in keyOf <==> 1 <= g <= nextStatsGeneration)
      && (forall p :: p in published ==> p.statsGeneration in keyOf && keyOf[p.statsGeneration] == p.spec.key)
    }

    ghost predicate MapsOk()
      reads this, published
    {
      && metaPods.Keys !! recentlyDeletedPods.Keys
      && (forall k :: k in metaPods ==> metaPods[k] in published && metaPods[k].spec.key == k)
      && (forall k :: k in recentlyDeletedPods ==>
            var s := recentlyDeletedPods[k];
            s in snapshots && s.pod in published && s.pod.spec.key == k && s.statsGeneration == s.pod.statsGeneration)
    }

    /** Conservation: whichever object is reachable under a key carries exactly the
        totals of the requests counted on its generation. */
    ghost predicate Conserved()
      requires MapsOk()
      reads this, published, snapshots
    {
      && (forall k :: k in metaPods ==> metaPods[k].Conserves(requests))
      && (forall k :: k in recentlyDeletedPods ==> recentlyDeletedPods[k].Conserves(requests))
    }

    ghost predicate RecordsOk()
      reads this, published, records
    {
      && |records| == |requests|
      && (forall i :: 0 <= i < |requests| ==> requests[i].gen in keyOf)
      && (forall i :: 0 <= i < |records| ==>
            records[i].pod in published && records[i].pod.statsGeneration == requests[i].gen)
      && (forall i, j :: 0 <= i < j < |records| ==> records[i] != records[j])
      && (forall i :: 0 <= i < |records| && requests[i].phase == Loaded ==>
            records[i].pendingLoad == requests[i].load
            && (!hasPendingLoadProvider ==> requests[i].load == 0.0))
      && (forall i :: 0 <= i < |records| && requests[i].phase == Counted ==> records[i].pendingLoad == 0.0)
    }

    /** Everything but the spare pod. */
    ghost predicate Core()
      reads this, published, snapshots, records
    {
      GenerationsOk() && MapsOk() && Conserved() && RecordsOk()
    }

    ghost predicate Valid()
      reads this, bufferPod, published, snapshots, records
    {
      Core() && BufferClean() && ReprOk()
    }

    /** `h` is what the maps hold for `key`. */
    ghost predicate At(h: Holder, key: PodKey)
      reads this
    {
      match h
      case Live(p) => key in metaPods && metaPods[key] == p
      case Pending(s) => key in recentlyDeletedPods && recentlyDeletedPods[key] == s
    }

    ghost function GenerationOf(h: Holder): int
      reads if h.Live? then {h.pod} else {}
    {
      if h.Live? then h.pod.statsGeneration else h.snap.statsGeneration
    }

    /** At most one reachable object carries a generation. */
    lemma OneHolder(g: Holder, j: PodKey, h: Holder, k: PodKey)
      requires Core() && At(g, j) && At(h, k) && GenerationOf(g) == GenerationOf(h)
      ensures j == k && g == h
    {
    }

    /** `resolvePodOrSnapshotLocked`: which object represents `podKey` now, given a
        possibly outdated pod. */
    function ResolvePodOrSnapshotLocked(podKey: PodKey, staleMetaPod: Pod): Holder
      reads this, metaPods.Values, staleMetaPod
    {
      if podKey in metaPods then
        var current := metaPods[podKey];
        if current != staleMetaPod && SameStatsGeneration(current.statsGeneration, staleMetaPod.statsGeneration)
        then Live(current)
        else Live(staleMetaPod)
      else if podKey in recentlyDeletedPods
              && SameStatsGeneration(recentlyDeletedPods[podKey].statsGeneration, staleMetaPod.statsGeneration)
      then Pending(recentlyDeletedPods[podKey])
      else Live(staleMetaPod)
    }

    /** `h` stands for generation `gen` of `key`: it is the reachable carrier of that
        generation if there is one, and otherwise an object nothing reachable aliases. */
    ghost predicate StandsFor(h: Holder, key: PodKey, gen: int)
      reads this, published, metaPods.Values, if h.Live? then {h.pod} else {}
    {
      && GenerationOf(h) == gen
      && (h.Live? ==> h.pod in published && h.pod.spec.key == key)
      && (h.Pending? ==> At(h, key) && h.snap in snapshots)
      && (!At(h, key) ==> !Reachable(gen))
    }

    /** Some object in the maps carries generation `gen`. */
    ghost predicate Reachable(gen: int)
      reads this, metaPods.Values
    {
      || (exists k :: k in metaPods && metaPods[k].statsGeneration == gen)
      || (exists k :: k in recentlyDeletedPods && recentlyDeletedPods[k].statsGeneration == gen)
    }

    /** Resolving finds the reachable carrier of the outdated pod's generation whenever
        there is one, whatever happened to the pod in between. */
    lemma ResolveFindsCarrier(stale: Pod)
      requires Core() && stale in published
      ensures StandsFor(ResolvePodOrSnapshotLocked(stale.spec.key, stale), stale.spec.key, stale.statsGeneration)
    {
    }

    lemma RecordFacts(i: nat)
      requires Core() && i < |requests|
      ensures i < |records| && records[i].pod in published && records[i].pod.statsGeneration == requests[i].gen
      ensures requests[i].phase == Counted ==> records[i].pendingLoad == 0.0
      ensures requests[i].phase == Loaded ==>
                records[i].pendingLoad == requests[i].load && (!hasPendingLoadProvider ==> requests[i].load == 0.0)
      ensures forall j :: 0 <= j < |records| && j != i ==> records[j] != records[i]
    {
    }

    lemma LiveFacts(key: PodKey)
      requires Core() && key in metaPods
      ensures metaPods[key] in published && metaPods[key].spec.key == key
      ensures metaPods[key].Conserves(requests)
      ensures StandsFor(Live(metaPods[key]), key, metaPods[key].statsGeneration)
    {
    }

    lemma SnapshotFacts(key: PodKey)
      requires Core() && key in recentlyDeletedPods
      ensures key !in metaPods
      ensures var snap := recentlyDeletedPods[key];
              && snap in snapshots && snap.Conserves(requests)
              && snap.statsGeneration in keyOf && keyOf[snap.statsGeneration] == key
              && snap.pod in published && snap.pod.statsGeneration == snap.statsGeneration
              && StandsFor(Pending(snap), key, snap.statsGeneration)
    {
    }

    /** Read off the invariant: a live pod's running counter is the number of requests of
        its generation that started and are not done, its completed counter the number done,
        and the same holds of a parked snapshot. */
    lemma CountersAreRequests(h: Holder, key: PodKey)
      requires Core() && At(h, key)
      ensures RunningOn(h) == |Unfinished(requests, GenerationOf(h))|
      ensures CompletedOn(h) == |Completed(requests, GenerationOf(h))|
      ensures PendingLoadOn(h) == TotalLoad(requests, GenerationOf(h))
    {
      TotalsCount(requests, GenerationOf(h));
    }

    lemma CountersAreTotals(h: Holder, key: PodKey)
      requires Core() && At(h, key)
      ensures RunningOn(h) == Total(requests, GenerationOf(h), Running)
      ensures CompletedOn(h) == Total(requests, GenerationOf(h), Done)
      ensures TokensOn(h) == Total(requests, GenerationOf(h), OutputTokens)
      ensures PendingLoadOn(h) == TotalLoad(requests, GenerationOf(h))
    {
    }

    ghost function TokensOn(h: Holder): int
      reads if h.Live? then {h.pod} else {h.snap as object}
    {
      if h.Live? then h.pod.completedOutputTokens else h.snap.completedOutputTokens
    }

    ghost function RunningOn(h: Holder): int
      reads if h.Live? then {h.pod} else {h.snap as object}
    {
      if h.Live? then h.pod.runningRequests else h.snap.runningRequests
    }

    ghost function CompletedOn(h: Holder): int
      reads if h.Live? then {h.pod} else {h.snap as object}
    {
      if h.Live? then h.pod.completedRequests else h.snap.completedRequests
    }

    ghost function PendingLoadOn(h: Holder): real
      reads if h.Live? then {h.pod} else {h.snap as object}
    {
      if h.Live? then h.pod.pendingLoadUtilization else h.snap.pendingLoadUtilization
    }

    // ----------------------------------------------------------------------
    // How each kind of change keeps the invariant
    // ----------------------------------------------------------------------

    /** A pod moves from the live map into a snapshot. */
    twostate lemma HandoffKeeps(key: PodKey, new snap: DeletedPodSnapshot)
      requires old(Core()) && key in old(metaPods)
      requires metaPods == old(metaPods) - {key}
      requires recentlyDeletedPods == old(recentlyDeletedPods)[key := snap]
      requires snapshots == old(snapshots) + {snap}
      requires unchanged(`nextStatsGeneration, `requests, `records, `published, `keyOf)
      requires unchanged(old(published), old(snapshots), old(records))
      requires snap.pod == old(metaPods)[key] && CountersEqual(snap.pod, snap)
      ensures Core()
    {
    }

    /** Snapshots disappear. */
    twostate lemma ExpiryKeeps()
      requires old(Core())
      requires recentlyDeletedPods.Keys <= old(recentlyDeletedPods).Keys
      requires forall k :: k in recentlyDeletedPods ==> recentlyDeletedPods[k] == old(recentlyDeletedPods)[k]
      requires unchanged(`metaPods, `nextStatsGeneration, `requests, `records, `published, `snapshots, `keyOf)
      requires unchanged(published, snapshots, records)
      ensures Core()
    {
    }

    /** A generation number is issued for a key. */
    twostate lemma IssueKeeps(key: PodKey)
      requires old(Core())
      requires nextStatsGeneration == old(nextStatsGeneration) + 1
      requires keyOf == old(keyOf)[nextStatsGeneration := key]
      requires unchanged(`metaPods, `recentlyDeletedPods, `requests, `records, `published, `snapshots)
      requires unchanged(published, snapshots, records)
      ensures Core()
      ensures forall c :: Total(requests, nextStatsGeneration, c) == 0
      ensures TotalLoad(requests, nextStatsGeneration) == 0.0
    {
      TotalsUnused(requests, nextStatsGeneration);
    }

    /** A pod object that carries its generation's totals becomes the live pod of its key. */
    twostate lemma PublishKeeps(buffer: Pod)
      requires old(Core()) && old(CanPublish(buffer))
      requires metaPods == old(metaPods)[buffer.spec.key := buffer] && published == old(published) + {buffer}
      requires unchanged(`recentlyDeletedPods, `nextStatsGeneration, `requests, `records, `snapshots, `keyOf)
      requires unchanged(old(published), snapshots, records, buffer)
      ensures Core()
    {
    }

    /** `buffer` carries the totals of a generation issued for its key, which nothing
        reachable holds. */
    ghost predicate CanPublish(buffer: Pod)
      reads this, buffer
    {
      && buffer !in published && buffer.spec.key !in metaPods && buffer.spec.key !in recentlyDeletedPods
      && buffer.statsGeneration in keyOf && keyOf[buffer.statsGeneration] == buffer.spec.key
      && buffer.Conserves(requests)
    }

    /** No pod or snapshot other than `h` changed, and `h` kept its identity. */
    twostate predicate OnlyTouched(h: Holder)
      reads `published, `snapshots, published, snapshots
    {
      && unchanged(`published, `snapshots)
      && (forall p :: p in published && h != Live(p) ==> unchanged(p))
      && (forall s :: s in snapshots && h != Pending(s) ==> unchanged(s))
      && (h.Live? && h.pod in published ==>
            h.pod.spec == old(h.pod.spec) && h.pod.statsGeneration == old(h.pod.statsGeneration))
    }

    /** Published pods keep their key, address and generation. */
    twostate predicate NamesKept()
      reads `published, published
    {
      forall p :: p in old(published) && p in published ==>
        p.spec == old(p.spec) && p.statsGeneration == old(p.statsGeneration)
    }

    twostate lemma TouchKeepsNames(h: Holder)
      requires OnlyTouched(h)
      ensures NamesKept()
    {
    }

    /** `h`'s counters moved by the given amounts. */
    twostate predicate Shifted(h: Holder, running: int, completed: int, tokens: int, load: real)
      reads if h.Live? then {h.pod} else {h.snap as object}
    {
      match h
      case Live(p) =>
        && p.runningRequests == old(p.runningRequests) + running
        && p.completedRequests == old(p.completedRequests) + completed
        && p.completedOutputTokens == old(p.completedOutputTokens) + tokens
        && p.pendingLoadUtilization == old(p.pendingLoadUtilization) + load
      case Pending(s) =>
        && s.runningRequests == old(s.runningRequests) + running
        && s.completedRequests == old(s.completedRequests) + completed
        && s.completedOutputTokens == old(s.completedOutputTokens) + tokens
        && s.pendingLoadUtilization == old(s.pendingLoadUtilization) + load
    }

    /** Counter changes leave the maps and generations alone. */
    twostate lemma TouchKeepsMaps(h: Holder)
      requires old(Core())
      requires unchanged(`metaPods, `recentlyDeletedPods, `nextStatsGeneration, `published, `snapshots, `keyOf)
      requires OnlyTouched(h)
      ensures GenerationsOk() && MapsOk()
    {
      forall p | p in published ensures p.spec == old(p.spec) && p.statsGeneration == old(p.statsGeneration) {
        assert h == Live(p) || unchanged(p);
      }
    }

    /** When the totals of one generation move and the object standing for it moves with
        them, if it is reachable, every reachable object still agrees with its totals. */
    twostate lemma RecountConserves(h: Holder, new key: PodKey, new gen: int, new running: int,
                                    new completed: int, new tokens: int, new load: real)
      requires old(Core()) && old(StandsFor(h, key, gen))
      requires unchanged(`metaPods, `recentlyDeletedPods, `nextStatsGeneration, `published, `snapshots, `keyOf)
      requires OnlyTouched(h)
      requires Moved(old(requests), requests, gen, running, completed, tokens, load)
      requires At(h, key) ==> Shifted(h, running, completed, tokens, load)
      ensures GenerationsOk() && MapsOk() && Conserved()
    {
      hide Total, TotalLoad;
      TouchKeepsMaps(h);
      forall k | k in metaPods ensures metaPods[k].Conserves(requests) {
        var p := metaPods[k];
        assert old(p.Conserves(requests));
        if old(p.statsGeneration) == gen {
          assert old(Reachable(gen));
          assert h == Live(p);
        } else {
          assert h != Live(p);
        }
      }
      forall k | k in recentlyDeletedPods ensures recentlyDeletedPods[k].Conserves(requests) {
        var s := recentlyDeletedPods[k];
        assert old(s.Conserves(requests));
        if s.statsGeneration == gen {
          assert old(Reachable(gen));
          assert h == Pending(s);
        } else {
          assert h != Pending(s);
        }
      }
    }

    twostate lemma RecordAppended(h: Holder, new record: PodStatsRecord)
      requires old(Core())
      requires unchanged(`metaPods, `recentlyDeletedPods, `nextStatsGeneration, `published, `snapshots, `keyOf)
      requires OnlyTouched(h)
      requires record.pod in published && record !in old(records) && unchanged(old(records))
      requires record.pendingLoad == 0.0 && records == old(records) + [record]
      requires requests == old(requests) + [Request(record.pod.statsGeneration, Counted, 0.0, 0)]
      ensures RecordsOk()
    {
      forall i | 0 <= i < |old(records)|
        ensures records[i] == old(records)[i] && records[i].pod.statsGeneration == requests[i].gen
      {
        assert old(records[i].pod in published && records[i].pod.statsGeneration == requests[i].gen);
      }
    }

    twostate lemma RecordAdvanced(h: Holder, new i: nat, new r: Request)
      requires old(Core())
      requires unchanged(`metaPods, `recentlyDeletedPods, `nextStatsGeneration)
      requires unchanged(`published, `snapshots, `keyOf, `records)
      requires OnlyTouched(h)
      requires i < |old(requests)| && r.gen == old(requests)[i].gen && requests == old(requests)[i := r]
      requires forall j :: 0 <= j < |records| && j != i ==> records[j].pendingLoad == old(records[j].pendingLoad)
      requires r.phase != Counted
      requires r.phase == Loaded ==>
                 i < |records| && records[i].pendingLoad == r.load && (!hasPendingLoadProvider ==> r.load == 0.0)
      ensures RecordsOk()
    {
      forall j | 0 <= j < |records| ensures records[j].pod.statsGeneration == requests[j].gen {
        var p := records[j].pod;
        assert p in published && old(p.statsGeneration) == old(requests)[j].gen;
        assert h == Live(p) || unchanged(p);
      }
    }

    // ----------------------------------------------------------------------
    // Informer side
    // ----------------------------------------------------------------------

    /** Whether a re-add of `spec` at time `now` continues the parked counters. */
    predicate Resumes(spec: PodSpec, now: int)
      reads `recentlyDeletedPods
    {
      && spec.key in recentlyDeletedPods
      && now - recentlyDeletedPods[spec.key].deletedAt < RECENTLY_DELETED_POD_GRACE_PERIOD
      && recentlyDeletedPods[spec.key].podIP != None
      && recentlyDeletedPods[spec.key].podIP == spec.ip
    }

    /** The spare pod, allocated if there is none, now standing for `spec`. */
    method PrepareBuffer(spec: PodSpec) returns (buffer: Pod)
      requires Valid()
      modifies `bufferPod, `repr, bufferPod
      ensures ReprOk() && fresh(repr - old(repr))
      ensures Core() && bufferPod == buffer && buffer !in published && buffer.Clean() && buffer.spec == spec
      ensures buffer == old(bufferPod) || fresh(buffer)
    {
      if bufferPod == null {
        bufferPod := new Pod(spec);
        repr := repr + {bufferPod};
      } else {
        bufferPod.spec := spec;
      }
      buffer := bufferPod;
    }

    /** Takes the key's snapshot away and gives the buffer its counters, if the re-add
        resumes it, or a generation of its own. */
    method SeedBuffer(buffer: Pod, now: int)
      requires Core() && buffer !in published && buffer.Clean()
      modifies `recentlyDeletedPods, `nextStatsGeneration, `keyOf, buffer
      ensures Core() && buffer.spec == old(buffer.spec)
      ensures buffer.spec.key !in metaPods ==> CanPublish(buffer)
      ensures recentlyDeletedPods == old(recentlyDeletedPods) - {buffer.spec.key}
      ensures old(Resumes(buffer.spec, now)) ==>
                buffer.statsGeneration == old(recentlyDeletedPods[buffer.spec.key].statsGeneration)
      ensures !old(Resumes(buffer.spec, now)) ==>
                buffer.statsGeneration == nextStatsGeneration == old(nextStatsGeneration) + 1
      ensures old(Resumes(buffer.spec, now)) ==> nextStatsGeneration == old(nextStatsGeneration)
    {
      hide GenerationsOk, MapsOk, Conserved, RecordsOk;
      var spec := buffer.spec;
      var resumed := false;
      if spec.key in recentlyDeletedPods {
        var snap := recentlyDeletedPods[spec.key];
        SnapshotFacts(spec.key);
        recentlyDeletedPods := recentlyDeletedPods - {spec.key};
        ExpiryKeeps();
        if now - snap.deletedAt < RECENTLY_DELETED_POD_GRACE_PERIOD && snap.podIP != None && snap.podIP == spec.ip {
          buffer.Resume(snap);
          resumed := true;
        }
      }
      label seeded:
      if !resumed {
        nextStatsGeneration := nextStatsGeneration + 1;
        keyOf := keyOf[nextStatsGeneration := spec.key];
        IssueKeeps@seeded(spec.key);
        buffer.statsGeneration := nextStatsGeneration;
      }
    }

    method AddPodLocked(spec: PodSpec, now: int) returns (metaPod: Pod)
      requires Valid()
      modifies this, bufferPod
      ensures Valid() && fresh(repr - old(repr))
      ensures requests == old(requests) && records == old(records)
      ensures recentlyDeletedPods == old(recentlyDeletedPods) - {spec.key}
      ensures spec.key in old(metaPods) ==>
                metaPods == old(metaPods) && metaPod == metaPods[spec.key] && published == old(published)
      ensures spec.key !in old(metaPods) ==>
                && metaPods == old(metaPods)[spec.key := metaPod]
                && metaPod !in old(published) && metaPod.spec == spec && bufferPod == null
      ensures spec.key !in old(metaPods) && old(Resumes(spec, now)) ==>
                metaPod.statsGeneration == old(recentlyDeletedPods)[spec.key].statsGeneration
      ensures spec.key !in old(metaPods) && !old(Resumes(spec, now)) ==>
                metaPod.statsGeneration == old(nextStatsGeneration) + 1
      ensures nextStatsGeneration == old(nextStatsGeneration) + if old(Resumes(spec, now)) then 0 else 1
      ensures NamesKept() && old(published) <= published
    {
      hide GenerationsOk, MapsOk, Conserved, RecordsOk, CanPublish, Resumes;
      var buffer := PrepareBuffer(spec);
      SeedBuffer(buffer, now);
      metaPod := LoadOrStore(buffer);
    }

    /** Publishes the seeded buffer under its key; if the key is taken, the entry stays and the
        buffer is cleared for its next use. */
    method LoadOrStore(buffer: Pod) returns (metaPod: Pod)
      requires Core() && ReprOk() && bufferPod == buffer && buffer !in published
      requires buffer.spec.key !in metaPods ==> CanPublish(buffer)
      modifies `metaPods, `published, `bufferPod, buffer
      ensures Valid()
      ensures buffer.spec.key in old(metaPods) ==>
                metaPods == old(metaPods) && metaPod == metaPods[buffer.spec.key] && published == old(published)
      ensures old(buffer.spec.key) !in old(metaPods) ==>
                && metaPod == buffer && metaPods == old(metaPods)[buffer.spec.key := buffer] && bufferPod == null
                && published == old(published) + {buffer} && unchanged(buffer)
      ensures buffer.spec == old(buffer.spec)
    {
      hide GenerationsOk, MapsOk, Conserved, RecordsOk, CanPublish;
      if buffer.spec.key !in metaPods {
        metaPods, published, bufferPod := metaPods[buffer.spec.key := buffer], published + {buffer}, null;
        metaPod := buffer;
        PublishKeeps(buffer);
      } else {
        metaPod := metaPods[buffer.spec.key];
        buffer.Reset();
      }
    }

    method DeletePodLocked(key: PodKey, now: int) returns (metaPod: Pod?)
      requires Valid()
      modifies `metaPods, `recentlyDeletedPods, `snapshots, `repr
      ensures Valid() && fresh(repr - old(repr))
      ensures key !in old(metaPods) ==>
                metaPod == null && metaPods == old(metaPods) && recentlyDeletedPods == old(recentlyDeletedPods)
      ensures key in old(metaPods) ==>
                && metaPod == old(metaPods)[key] && metaPods == old(metaPods) - {key}
                && key in recentlyDeletedPods && recentlyDeletedPods[key].pod == metaPod
                && recentlyDeletedPods[key].deletedAt == now && recentlyDeletedPods[key].podIP == metaPod.spec.ip
                && recentlyDeletedPods - {key} == Unexpired(old(recentlyDeletedPods), now) - {key}
    {
      hide GenerationsOk, MapsOk, Conserved, RecordsOk;
      metaPod := null;
      if key in metaPods {
        LiveFacts(key);
        metaPod := metaPods[key];
        metaPods := metaPods - {key};
        var snap := new DeletedPodSnapshot(metaPod, now);
        recentlyDeletedPods := recentlyDeletedPods[key := snap];
        snapshots, repr := snapshots + {snap}, repr + {snap};
        HandoffKeeps(key, snap);
        PruneExpiredDeletedPodSnapshotsLocked(now);
      }
    }

    /** `snaps` without the entries whose grace period has elapsed. */
    static function Unexpired(snaps: map<PodKey, DeletedPodSnapshot>, now: int): map<PodKey, DeletedPodSnapshot> {
      map k | k in snaps && now - snaps[k].deletedAt < RECENTLY_DELETED_POD_GRACE_PERIOD :: snaps[k]
    }

    method PruneExpiredDeletedPodSnapshotsLocked(now: int)
      requires Core()
      modifies `recentlyDeletedPods
      ensures Core() && recentlyDeletedPods == Unexpired(old(recentlyDeletedPods), now)
      ensures forall k :: k in recentlyDeletedPods <==>
                k in old(recentlyDeletedPods) && now - old(recentlyDeletedPods)[k].deletedAt < 60_000
    {
      hide GenerationsOk, MapsOk, Conserved, RecordsOk;
      var rest := recentlyDeletedPods.Keys;
      while rest != {}
        invariant rest <= recentlyDeletedPods.Keys <= old(recentlyDeletedPods).Keys
        invariant forall k :: k in recentlyDeletedPods ==> recentlyDeletedPods[k] == old(recentlyDeletedPods)[k]
        invariant forall k :: k in old(recentlyDeletedPods) && k !in rest ==>
                    (k in recentlyDeletedPods <==> k in Unexpired(old(recentlyDeletedPods), now))
        decreases rest
      {
        var key :| key in rest;
        rest := rest - {key};
        if now - recentlyDeletedPods[key].deletedAt >= RECENTLY_DELETED_POD_GRACE_PERIOD {
          recentlyDeletedPods := recentlyDeletedPods - {key};
        }
      }
      ExpiryKeeps();
    }

    // ----------------------------------------------------------------------
    // Request side
    // ----------------------------------------------------------------------

    /** One more request on `h`. */
    method CountOn(h: Holder)
      requires h.Live? ==> h.pod in published
      modifies if h.Live? then {h.pod} else {h.snap as object}
      ensures OnlyTouched(h) && Shifted(h, 1, 0, 0, 0.0)
    {
      match h
      case Live(p) => p.runningRequests := p.runningRequests + 1;
      case Pending(s) => s.runningRequests := s.runningRequests + 1;
    }

    /** More pending load on `h`. */
    method LoadOn(h: Holder, load: real)
      requires h.Live? ==> h.pod in published
      modifies if h.Live? then {h.pod} else {h.snap as object}
      ensures OnlyTouched(h) && Shifted(h, 0, 0, 0, load)
    {
      match h
      case Live(p) => p.pendingLoadUtilization := p.pendingLoadUtilization + load;
      case Pending(s) => s.pendingLoadUtilization := s.pendingLoadUtilization + load;
    }

    /** A finished request taken off `h`. */
    method CompleteOn(h: Holder, outputTokens: int, load: real) returns (clamped: bool)
      requires h.Live? ==> h.pod in published
      modifies if h.Live? then {h.pod} else {h.snap as object}
      ensures OnlyTouched(h)
      ensures clamped <==> old(RunningOn(h)) <= 0
      ensures !clamped ==> Shifted(h, -1, 1, outputTokens, -load)
    {
      match h
      case Live(p) => clamped := p.Complete(outputTokens, load);
      case Pending(s) => clamped := s.Complete(outputTokens, load);
    }

    /** Where a request routed to `target` is counted: on the live pod, or on the parked
        counters of the same backend, or not at all. */
    function CountTarget(target: PodSpec): Option<Holder>
      reads `metaPods, `recentlyDeletedPods
    {
      if target.key in metaPods then Some(Live(metaPods[target.key]))
      else if target.ip != None && target.key in recentlyDeletedPods
              && recentlyDeletedPods[target.key].podIP == target.ip
      then Some(Pending(recentlyDeletedPods[target.key]))
      else None
    }

    /** The pod object a request counted on `h` remembers. */
    static function PodBehind(h: Holder): Pod {
      if h.Live? then h.pod else h.snap.pod
    }

    lemma CountTargetFacts(target: PodSpec)
      requires Core() && CountTarget(target).Some?
      ensures var h := CountTarget(target).value;
              && PodBehind(h) in published
              && StandsFor(h, target.key, PodBehind(h).statsGeneration)
              && (h.Live? ==> h.pod in published) && (h.Pending? ==> h.snap in snapshots)
    {
    }

    /** `addPodStats`, first critical section. */
    method AddPodStatsCount(target: PodSpec) returns (record: PodStatsRecord?)
      requires Valid()
      modifies `requests, `records, `repr, published, snapshots
      ensures Valid() && fresh(repr - old(repr))
      ensures record != null <==>
                || target.key in metaPods
                || (target.ip.Some? && target.key in recentlyDeletedPods
                    && recentlyDeletedPods[target.key].podIP == target.ip)
      ensures record != null ==>
                record.pod == if target.key in metaPods then metaPods[target.key]
                              else recentlyDeletedPods[target.key].pod
      ensures record == null ==> requests == old(requests) && records == old(records)
      ensures record != null ==>
                && fresh(record) && records == old(records) + [record]
                && requests == old(requests) + [Request(record.pod.statsGeneration, Counted, 0.0, 0)]
      ensures NamesKept()
    {
      hide GenerationsOk, MapsOk, Conserved, RecordsOk, StandsFor;
      if CountTarget(target) == None {
        return null;
      }
      var h := CountTarget(target).value;
      CountTargetFacts(target);
      record := new PodStatsRecord(PodBehind(h));
      CountRequest(record, h, target.key);
    }

    /** Counts the request of `record` on `h`, which stands for its generation. */
    method CountRequest(record: PodStatsRecord, h: Holder, key: PodKey)
      requires Valid() && record !in repr && record.pod in published && record.pendingLoad == 0.0
      requires StandsFor(h, key, record.pod.statsGeneration)
      requires (h.Live? ==> h.pod in published) && (h.Pending? ==> h.snap in snapshots)
      modifies `requests, `records, `repr, published, snapshots
      ensures Valid() && repr == old(repr) + {record} && records == old(records) + [record]
      ensures requests == old(requests) + [Request(record.pod.statsGeneration, Counted, 0.0, 0)]
      ensures NamesKept()
    {
      hide GenerationsOk, MapsOk, Conserved, RecordsOk, OnlyTouched, Shifted, StandsFor, Moved, Total, TotalLoad, Agree;
      ghost var before, gen := requests, record.pod.statsGeneration;
      CountOn(h);
      requests := requests + [Request(gen, Counted, 0.0, 0)];
      records, repr := records + [record], repr + {record};
      CountingMoves(before, gen);
      RecountConserves(h, key, gen, 1, 0, 0, 0.0);
      RecordAppended(h, record);
      TouchKeepsNames(h);
      hide NamesKept;
    }

    /** `addPodStats`, second critical section: add the request's load, if there is one, to
        whatever now stands for the generation the request was counted on. */
    method AddPodStatsLoad(record: PodStatsRecord, consumption: Option<real>, ghost i: nat)
      requires Valid()
      requires i < |requests| && i < |records| && records[i] == record && requests[i].phase == Counted
      modifies `requests, record, published, snapshots
      ensures Valid() && fresh(repr - old(repr))
      ensures record.pendingLoad == if hasPendingLoadProvider && consumption.Some? then consumption.value else 0.0
      ensures requests == old(requests)[i := old(requests)[i].(phase := Loaded, load := record.pendingLoad)]
      ensures NamesKept()
    {
      hide GenerationsOk, MapsOk, Conserved, RecordsOk, OnlyTouched, Shifted, StandsFor, Moved, Total, TotalLoad, Agree;
      RecordFacts(i);
      ResolveFindsCarrier(record.pod);
      var key, load := record.pod.spec.key, 0.0;
      var h := ResolvePodOrSnapshotLocked(key, record.pod);
      if hasPendingLoadProvider && consumption.Some? {
        load := consumption.value;
      }
      label resolved:
      LoadOn(h, load);
      record.pendingLoad := load;
      ghost var before, r := requests, requests[i].(phase := Loaded, load := load);
      requests := requests[i := r];
      UpdatingMoves(before, i, r);
      RecountConserves@resolved(h, key, r.gen, 0, 0, 0, load);
      RecordAdvanced@resolved(h, i, r);
      TouchKeepsNames@resolved(h);
    }

    /** `donePodStats` after its record was taken: complete the request on whatever now
        stands for its generation.  The zero floor fires on unreachable objects only. */
    method DonePodStats(record: PodStatsRecord, outputTokens: int, ghost i: nat) returns (clamped: bool)
      requires Valid()
      requires i < |requests| && i < |records| && records[i] == record && requests[i].phase == Loaded
      modifies `requests, published, snapshots
      ensures Valid() && fresh(repr - old(repr))
      ensures requests == old(requests)[i := old(requests)[i].(phase := Finished,
                tokens := if outputTokens < 0 then 0 else outputTokens)]
      ensures NamesKept()
      ensures clamped ==> !old(Reachable(requests[i].gen))
    {
      hide GenerationsOk, MapsOk, Conserved, RecordsOk, OnlyTouched, Shifted, StandsFor, Moved, Total, TotalLoad, Agree;
      RecordFacts(i);
      ResolveFindsCarrier(record.pod);
      var tokens := if outputTokens < 0 then 0 else outputTokens;
      var key := record.pod.spec.key;
      var h := ResolvePodOrSnapshotLocked(key, record.pod);
      CarrierRuns(h, key, i);
      var load := if record.pendingLoad != 0.0 && hasPendingLoadProvider then record.pendingLoad else 0.0;
      label resolved:
      clamped := CompleteOn(h, tokens, load);
      ghost var before, r := requests, requests[i].(phase := Finished, tokens := tokens);
      requests := requests[i := r];
      UpdatingMoves(before, i, r);
      RecountConserves@resolved(h, key, r.gen, -1, 1, tokens, -load);
      RecordAdvanced@resolved(h, i, r);
      TouchKeepsNames@resolved(h);
    }

    /** A reachable object standing for an unfinished request's generation counts it. */
    lemma CarrierRuns(h: Holder, key: PodKey, i: nat)
      requires Core() && i < |requests| && requests[i].phase != Finished
      requires StandsFor(h, key, requests[i].gen)
      ensures Reachable(requests[i].gen) ==> At(h, key)
      ensures At(h, key) ==> RunningOn(h) >= 1
      ensures h.Live? ==> h.pod in published
      ensures h.Pending? ==> h.snap in snapshots
    {
      TotalsCount(requests, requests[i].gen);
      assert i in Unfinished(requests, requests[i].gen);
    }

    // ----------------------------------------------------------------------
    // The store as a value
    // ----------------------------------------------------------------------

    ghost function LiveView(): map<PodKey, Slot>
      requires MapsOk()
      reads this, published
    {
      map k | k in metaPods :: Slot(metaPods[k].spec.ip, metaPods[k].statsGeneration)
    }

    ghost function ParkedView(): map<PodKey, Parked>
      reads `recentlyDeletedPods
    {
      map k | k in recentlyDeletedPods ::
        var s := recentlyDeletedPods[k]; Parked(s.podIP, s.statsGeneration, s.deletedAt)
    }

    ghost function CurrentView(): View
      requires MapsOk()
      reads this, published
    {
      View(LiveView(), ParkedView(), nextStatsGeneration, requests)
    }

    /** The steps of requests leave the generations alone. */
    twostate lemma MapsKeepView()
      requires old(MapsOk()) && MapsOk() && NamesKept() && unchanged(`metaPods, `recentlyDeletedPods, `published)
      ensures LiveView() == old(LiveView()) && ParkedView() == old(ParkedView())
    {
    }

    lemma CountedGeneration(target: PodSpec)
      requires MapsOk()
      ensures var h := CountTarget(target);
        && (h == None <==> CountedOn(CurrentView(), target) == None)
        && (h.Some? ==> CountedOn(CurrentView(), target) == Some(PodBehind(h.value).statsGeneration))
    {
    }

    lemma CarriedIsReachable(gen: int)
      requires MapsOk()
      ensures Reachable(gen) <==> Carried(CurrentView(), gen)
    {
      var v := CurrentView();
      if k :| k in metaPods && metaPods[k].statsGeneration == gen {
        assert v.live[k].gen == gen;
      } else if k :| k in recentlyDeletedPods && recentlyDeletedPods[k].statsGeneration == gen {
        assert v.parked[k].gen == gen;
      }
    }

    twostate lemma DeleteView(new key: PodKey, new now: int)
      requires old(MapsOk()) && MapsOk() && unchanged(`published, `nextStatsGeneration, `requests) && NamesKept()
      requires key !in old(metaPods) ==> unchanged(`metaPods, `recentlyDeletedPods)
      requires key in old(metaPods) ==>
        && metaPods == old(metaPods) - {key}
        && key in recentlyDeletedPods && recentlyDeletedPods[key].pod == old(metaPods)[key]
        && recentlyDeletedPods[key].deletedAt == now && recentlyDeletedPods[key].podIP == old(metaPods)[key].spec.ip
        && recentlyDeletedPods - {key} == Unexpired(old(recentlyDeletedPods), now) - {key}
      ensures CurrentView() == After(old(CurrentView()), hasPendingLoadProvider, Delete(key, now))
    {
      var v, w := old(CurrentView()), CurrentView();
      if key !in old(metaPods) {
        MapsKeepView();
      } else {
        assert w.live == v.live - {key};
        var parked := v.parked[key := Parked(v.live[key].ip, v.live[key].gen, now)];
        assert w.parked[key] == parked[key];
        forall k | k != key
          ensures k in w.parked <==> k in Kept(parked, now)
          ensures k in w.parked ==> w.parked[k] == v.parked[k]
        {
          assert k in recentlyDeletedPods <==> k in recentlyDeletedPods - {key};
          assert k in Unexpired(old(recentlyDeletedPods), now)
            <==> k in Unexpired(old(recentlyDeletedPods), now) - {key};
          if k in w.parked {
            assert recentlyDeletedPods[k] == (recentlyDeletedPods - {key})[k];
          }
        }
        assert w.parked == Kept(parked, now);
      }
    }

    twostate lemma AddView(new spec: PodSpec, new now: int, new metaPod: Pod)
      requires old(MapsOk()) && MapsOk() && unchanged(`requests) && NamesKept() && old(published) <= published
      requires recentlyDeletedPods == old(recentlyDeletedPods) - {spec.key}
      requires spec.key in old(metaPods) ==> metaPods == old(metaPods)
      requires spec.key !in old(metaPods) ==> metaPods == old(metaPods)[spec.key := metaPod] && metaPod.spec == spec
      requires spec.key !in old(metaPods) && old(Resumes(spec, now)) ==>
        metaPod.statsGeneration == old(recentlyDeletedPods)[spec.key].statsGeneration
      requires spec.key !in old(metaPods) && !old(Resumes(spec, now)) ==>
        metaPod.statsGeneration == old(nextStatsGeneration) + 1
      requires nextStatsGeneration == old(nextStatsGeneration) + if old(Resumes(spec, now)) then 0 else 1
      ensures CurrentView() == After(old(CurrentView()), hasPendingLoadProvider, Add(spec, now))
    {
      var v, w := old(CurrentView()), CurrentView();
      assert Continues(v, spec, now) <==> old(Resumes(spec, now));
      assert w.parked == v.parked - {spec.key};
      forall k | k in old(metaPods)
        ensures k in w.live && w.live[k] == v.live[k]
      {
        assert old(metaPods)[k] in old(published);
      }
      assert spec.key in old(metaPods) ==> w.live == v.live;
      assert spec.key !in old(metaPods) ==>
        w.live == v.live[spec.key := Slot(spec.ip, metaPod.statsGeneration)];
    }
  }

  // ------------------------------------------------------------------------
  // Whole runs
  // ------------------------------------------------------------------------

  /** The requests' records and phases, as the goroutines hold them. */
  ghost predicate Tracks(c: Store, records: seq<PodStatsRecord>, phases: seq<Phase>)
    reads c
  {
    && records == c.records && |phases| == |records| == |c.requests|
    && forall i :: 0 <= i < |phases| ==> phases[i] == c.requests[i].phase
  }

  /** The action completes a request whose generation no key carries any more. */
  ghost predicate Orphaned(v: View, action: Action) {
    action.Complete? && action.i < |v.requests| && !Carried(v, v.requests[action.i].gen)
  }

  /** One step: the store changes as its view does, and the zero floor fires at most for a
      request whose generation nothing reachable carries. */
  method Act(c: Store, action: Action, records: seq<PodStatsRecord>, phases: seq<Phase>)
    returns (records': seq<PodStatsRecord>, phases': seq<Phase>, clamped: bool)
    requires c.Valid() && Tracks(c, records, phases)
    modifies c.repr
    ensures c.Valid() && Tracks(c, records', phases') && fresh(c.repr - old(c.repr))
    ensures c.CurrentView() == After(old(c.CurrentView()), c.hasPendingLoadProvider, action)
    ensures clamped ==> Orphaned(old(c.CurrentView()), action)
  {
    hide Store.GenerationsOk, Store.MapsOk, Store.Conserved, Store.RecordsOk, Store.LiveView, Store.ParkedView;
    records', phases', clamped := records, phases, false;
    match action
    case Start(target) =>
      c.CountedGeneration(target);
      var record := c.AddPodStatsCount(target);
      c.MapsKeepView();
      if record != null {
        records', phases' := records + [record], phases + [Counted];
      }
    case AddLoad(i, consumption) =>
      if i < |records| && phases[i] == Counted {
        c.AddPodStatsLoad(records[i], consumption, i);
        c.MapsKeepView();
        phases' := phases[i := Loaded];
      }
    case Complete(i, outputTokens) =>
      if i < |records| && phases[i] == Loaded {
        c.CarriedIsReachable(c.requests[i].gen);
        clamped := c.DonePodStats(records[i], outputTokens, i);
        c.MapsKeepView();
        phases' := phases[i := Finished];
      }
    case Delete(key, now) =>
      var metaPod := c.DeletePodLocked(key, now);
      c.DeleteView(key, now);
    case Add(spec, now) =>
      var metaPod := c.AddPodLocked(spec, now);
      c.AddView(spec, now, metaPod);
  }

  /** Any schedule of steps, over any clock readings: the store ends with the generations and
      requests the schedule says, every reachable object agrees with its generation's requests,
      and the zero floor fired only for requests nothing reachable counted any more. */
  method Run(hasPendingLoadProvider: bool, schedule: seq<Action>) returns (c: Store, clamps: seq<bool>)
    ensures c.Valid() && c.CurrentView() == AfterFirst(hasPendingLoadProvider, schedule, |schedule|)
    ensures |clamps| == |schedule|
    ensures forall n :: 0 <= n < |schedule| && clamps[n] ==>
      Orphaned(AfterFirst(hasPendingLoadProvider, schedule, n), schedule[n])
  {
    hide Store.GenerationsOk, Store.MapsOk, Store.Conserved, Store.RecordsOk, Store.BufferClean, Store.ReprOk;
    hide Store.CurrentView, After, Orphaned;
    c := new Store(hasPendingLoadProvider);
    var records: seq<PodStatsRecord>, phases: seq<Phase> := [], [];
    clamps := [];
    assert Tracks(c, records, phases);
    hide Tracks;
    for n := 0 to |schedule|
      invariant fresh(c.repr) && c.Valid() && Tracks(c, records, phases) && |clamps| == n
      invariant c.hasPendingLoadProvider == hasPendingLoadProvider
      invariant c.CurrentView() == AfterFirst(hasPendingLoadProvider, schedule, n)
      invariant forall k :: 0 <= k < n && clamps[k] ==>
        Orphaned(AfterFirst(hasPendingLoadProvider, schedule, k), schedule[k])
    {
      var clamped;
      records, phases, clamped := Act(c, schedule[n], records, phases);
      clamps := clamps + [clamped];
    }
  }
}
