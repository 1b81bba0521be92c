/** Liveness, exclusion and pruning of the running-request fields of silent gateways.

  Every gateway's heartbeat is a score in one sorted set.  A short window decides whose
  fields a reader sums; a much longer one decides whose fields may be deleted.  The clock
  is shared and never goes back.  `lastBeat` is the true heartbeat history; the sorted set
  `scores` is the part of it that is still stored.
  */
module GatewayLiveness {
  import opened RequestHash

  /** Three heartbeat intervals, in milliseconds. */
  const LIVENESS_WINDOW: int := 3_000

  /** Ten minutes, in milliseconds. */
  const FIELD_PRUNE_WINDOW: int := 600_000

  type PodKey = nat

  /** Fields a flush found safe to delete, and when it checked. */
  datatype Flush = Flush(at: int, victims: set<(PodKey, Gateway)>)

  datatype State = State(
    now: int,
    scores: map<Gateway, int>,
    lastBeat: map<Gateway, int>,
    hashes: map<PodKey, Hash>,
    pending: map<Gateway, map<PodKey, set<Gateway>>>,
    flushes: map<Gateway, Flush>)

  const Init := State(0, map[], map[], map[], map[], map[])

  datatype Step =
    | Tick(millis: nat)
    | Beat(g: Gateway)                       // heartbeat: score, then trim old scores
    | Write(g: Gateway, pod: PodKey, delta: int)
    | Read(reader: Gateway, pod: PodKey)     // enqueues the fields it excluded
    | Check(g: Gateway)                      // flush, first half: look up who is protected
    | Delete(g: Gateway)                     // flush, second half: delete the rest
    | DeleteFails(g: Gateway)

  function HashOf(s: State, pod: PodKey): Hash {
    if pod in s.hashes then s.hashes[pod] else map[]
  }

  /** The gateways whose stored score is at or above the cutoff. */
  function Scored(s: State, cutoff: int): set<Gateway> {
    set g | g in s.scores && s.scores[g] >= cutoff
  }

  function LiveGateways(s: State): set<Gateway> {
    Scored(s, s.now - LIVENESS_WINDOW)
  }

  function ProtectedGateways(s: State): set<Gateway> {
    Scored(s, s.now - FIELD_PRUNE_WINDOW)
  }

  /** The scores after a heartbeat of `g`: its own is fresh, those past the long window go. */
  function Trimmed(scores: map<Gateway, int>, cutoff: int): map<Gateway, int> {
    map g | g in scores && scores[g] >= cutoff :: scores[g]
  }

  function Pending(s: State, g: Gateway): map<PodKey, set<Gateway>> {
    if g in s.pending then s.pending[g] else map[]
  }

  /** The enqueued fields whose owners the long window does not protect. */
  function Victims(s: State, g: Gateway): set<(PodKey, Gateway)> {
    set pod, x | pod in Pending(s, g) && x in Pending(s, g)[pod] && x !in ProtectedGateways(s) :: (pod, x)
  }

  function Without(h: Hash, pod: PodKey, victims: set<(PodKey, Gateway)>): Hash {
    map x | x in h && (pod, x) !in victims :: h[x]
  }

  ghost function Next(s: State, step: Step): State {
    match step
    case Tick(millis) => s.(now := s.now + millis)
    case Beat(g) =>
      s.(scores := Trimmed(s.scores[g := s.now], s.now - FIELD_PRUNE_WINDOW), lastBeat := s.lastBeat[g := s.now])
    case Write(g, pod, delta) => s.(hashes := s.hashes[pod := IncrDecr(HashOf(s, pod), g, delta).0])
    case Read(reader, pod) =>
      var excluded := HashOf(s, pod).Keys - (LiveGateways(s) + {reader});
      if excluded == {} then s
      else s.(pending := s.pending[reader := Pending(s, reader)[pod := excluded]])
    case Check(g) =>
      if g in s.flushes then s
      else s.(pending := s.pending[g := map[]], flushes := s.flushes[g := Flush(s.now, Victims(s, g))])
    case Delete(g) =>
      if g !in s.flushes then s
      else s.(hashes := map pod | pod in s.hashes :: Without(s.hashes[pod], pod, s.flushes[g].victims),
              flushes := s.flushes - {g})
    case DeleteFails(g) => s.(flushes := s.flushes - {g})
  }

  ghost function Run(steps: seq<Step>): State {
    if steps == [] then Init else Next(Run(steps[..|steps| - 1]), steps[|steps| - 1])
  }

  // ------------------------------------------------------------------------
  // What the stored scores still say about the true history
  // ------------------------------------------------------------------------

  /** `g` has not sent a heartbeat at or after time `t`. */
  predicate SilentSince(s: State, g: Gateway, t: int) {
    g !in s.lastBeat || s.lastBeat[g] < t
  }

  /** Stored scores are true last heartbeats, and a heartbeat is only forgotten once it is
      past the long window. */
  ghost predicate ScoresOk(s: State) {
    && (forall g :: g in s.lastBeat ==> s.lastBeat[g] <= s.now)
    && (forall g :: g in s.scores ==> g in s.lastBeat && s.scores[g] == s.lastBeat[g])
    && (forall g :: g in s.lastBeat && g !in s.scores ==> s.lastBeat[g] < s.now - FIELD_PRUNE_WINDOW)
  }

  /** Every victim had been silent for the whole long window when the flush checked; it may
      only have come back since. */
  ghost predicate FlushesOk(s: State) {
    forall f :: f in s.flushes ==>
      && s.flushes[f].at <= s.now
      && forall v :: v in s.flushes[f].victims ==>
           SilentSince(s, v.1, s.flushes[f].at - FIELD_PRUNE_WINDOW) || !SilentSince(s, v.1, s.flushes[f].at)
  }

  ghost predicate Inv(s: State) {
    ScoresOk(s) && FlushesOk(s)
  }

  lemma NextKeepsInv(s: State, step: Step)
    requires Inv(s)
    ensures Inv(Next(s, step))
  {
  }

  lemma {:induction false} RunsKeepInv(steps: seq<Step>)
    ensures Inv(Run(steps))
  {
    if steps != [] {
      RunsKeepInv(steps[..|steps| - 1]);
      NextKeepsInv(Run(steps[..|steps| - 1]), steps[|steps| - 1]);
    }
  }

  // ------------------------------------------------------------------------
  // What readers see
  // ------------------------------------------------------------------------

  /** `realtimeRunningRequests` of a pod the reader knows, with local count `local`: the live
      sum with the reader's own field replaced, or the local count if there is no hash. */
  ghost function Realtime(s: State, reader: Gateway, pod: PodKey, local: nat): int {
    var h := HashOf(s, pod);
    if h == map[] then local else LiveSum(h[reader := local], LiveGateways(s) + {reader})
  }

  /** `readPodRunningRequests` and the local fallback of its callers: the count, and the fields
      handed to the prune queue. */
  method ReadRunningRequests(s: State, reader: Gateway, pod: PodKey, local: nat)
    returns (count: int, excluded: seq<Gateway>)
    ensures count == Realtime(s, reader, pod, local)
    ensures (set g | g in excluded) == HashOf(s, pod).Keys - (LiveGateways(s) + {reader})
  {
    var fields := HashOf(s, pod);
    if fields == map[] {
      return local, [];
    }
    fields := fields[reader := local];
    var live := LiveGateways(s) + {reader};
    count, excluded := SumLiveFields(fields, live);
  }

  /** The other gateways that truly sent a heartbeat in the short window. */
  ghost function RecentOthers(s: State, reader: Gateway): set<Gateway> {
    set g | g in s.lastBeat && g != reader && s.lastBeat[g] >= s.now - 3_000
  }

  /** In every reachable state a reader sees its own local count plus the fields of exactly
      the other gateways that sent a heartbeat in the short window, whatever was trimmed. */
  lemma ReadsFollowHeartbeats(s: State, reader: Gateway, pod: PodKey, local: nat)
    requires Inv(s)
    ensures Realtime(s, reader, pod, local) == local + SumOver(RecentOthers(s, reader), HashOf(s, pod))
  {
    var h := HashOf(s, pod);
    var recent := RecentOthers(s, reader);
    var others := recent * h.Keys;
    SumOverDrop(recent, others, h);
    if h == map[] {
      assert others == {};
    } else {
      var h' := h[reader := local];
      assert h'.Keys * (LiveGateways(s) + {reader}) == others + {reader};
      SumOverRemove(others + {reader}, reader, h');
      assert others + {reader} - {reader} == others;
      SumOverSame(others, h, h');
    }
  }

  /** A heartbeat is seen: for the length of the short window its sender's field counts for
      every other reader. */
  lemma BeatIsSeen(steps: seq<Step>, g: Gateway, millis: nat, reader: Gateway, pod: PodKey, local: nat)
    requires millis <= 3_000 && reader != g
    ensures var s := Run(steps);
      Realtime(Next(Next(s, Beat(g)), Tick(millis)), reader, pod, local) >= local + Max(0, Field(HashOf(s, pod), g))
  {
    RunsKeepInv(steps);
    var s := Run(steps);
    var s' := Next(Next(s, Beat(g)), Tick(millis));
    NextKeepsInv(s, Beat(g));
    NextKeepsInv(Next(s, Beat(g)), Tick(millis));
    ReadsFollowHeartbeats(s', reader, pod, local);
    assert HashOf(s', pod) == HashOf(s, pod) && g in RecentOthers(s', reader);
    hide Run, Next, Inv, RecentOthers;
    SumOverRemove(RecentOthers(s', reader), g, HashOf(s, pod));
    SumOverMonotone({}, RecentOthers(s', reader) - {g}, HashOf(s, pod));
  }

  /** Two states look the same to a reader if they agree on the fields of every other gateway
      that is not silent. */
  lemma SameRecentFields(a: State, b: State, reader: Gateway, pod: PodKey, local: nat)
    requires Inv(a) && Inv(b) && a.now == b.now && a.lastBeat == b.lastBeat
    requires forall g :: g != reader && !SilentSince(a, g, a.now - LIVENESS_WINDOW) ==>
               Field(HashOf(a, pod), g) == Field(HashOf(b, pod), g)
    ensures Realtime(a, reader, pod, local) == Realtime(b, reader, pod, local)
  {
    ReadsFollowHeartbeats(a, reader, pod, local);
    ReadsFollowHeartbeats(b, reader, pod, local);
    assert RecentOthers(a, reader) == RecentOthers(b, reader);
    SumOverSame(RecentOthers(a, reader), HashOf(a, pod), HashOf(b, pod));
  }

  /** A gateway silent for more than three heartbeat intervals contributes nothing to any
      other gateway's count, whatever stands in its field and whatever others write. */
  lemma SilentContributesNothing(steps: seq<Step>, g: Gateway, v: int, reader: Gateway, pod: PodKey, local: nat)
    requires reader != g && SilentSince(Run(steps), g, Run(steps).now - LIVENESS_WINDOW)
    ensures var s := Run(steps);
            Realtime(s.(hashes := s.hashes[pod := HashOf(s, pod)[g := v]]), reader, pod, local)
            == Realtime(s, reader, pod, local)
  {
    RunsKeepInv(steps);
    var s := Run(steps);
    var s' := s.(hashes := s.hashes[pod := HashOf(s, pod)[g := v]]);
    hide Run, Realtime;
    assert Inv(s');
    SameRecentFields(s', s, reader, pod, local);
  }

  // ------------------------------------------------------------------------
  // Pruning
  // ------------------------------------------------------------------------

  /** The second loop of `flushPendingRunningRequestsPrunes`: of every enqueued key, the
      candidates the long window does not protect. */
  method SafeToPrune(s: State, g: Gateway) returns (victims: set<(PodKey, Gateway)>)
    ensures victims == Victims(s, g)
    ensures forall pod, x :: (pod, x) in victims <==>
      && pod in Pending(s, g) && x in Pending(s, g)[pod]
      && !(x in s.scores && s.scores[x] >= s.now - 600_000)
  {
    victims := {};
    var items, stillProtected := Pending(s, g), ProtectedGateways(s);
    var keys := items.Keys;
    while keys != {}
      invariant keys <= items.Keys
      invariant victims ==
        set pod, x | pod in items && pod !in keys && x in items[pod] && x !in stillProtected :: (pod, x)
      decreases keys
    {
      var pod :| pod in keys;
      keys := keys - {pod};
      ghost var before := victims;
      var candidates := items[pod];
      while candidates != {}
        invariant candidates <= items[pod]
        invariant victims == before + set x | x in items[pod] && x !in candidates && x !in stillProtected :: (pod, x)
        decreases candidates
      {
        var id :| id in candidates;
        candidates := candidates - {id};
        if id !in stillProtected {
          victims := victims + {(pod, id)};
        }
      }
    }
  }

  /** A flush marks only fields whose owner sent no heartbeat in the whole long window. */
  lemma CheckMarksOnlySilent(steps: seq<Step>, g: Gateway, pod: PodKey, x: Gateway)
    requires g !in Run(steps).flushes
    requires (pod, x) in Next(Run(steps), Check(g)).flushes[g].victims
    ensures SilentSince(Run(steps), x, Run(steps).now - FIELD_PRUNE_WINDOW)
  {
    RunsKeepInv(steps);
    assert x !in ProtectedGateways(Run(steps));
  }

  /** A pass of one gateway that meets no other: it reads a pod's hash, checks and deletes.  Of
      the other gateways' fields exactly those whose owners sent a heartbeat in the long window
      are left. */
  lemma PrunePassIsComplete(steps: seq<Step>, g: Gateway, pod: PodKey, x: Gateway)
    requires x != g && g !in Run(steps).flushes
    ensures var s := Run(steps);
      var pruned := Next(Next(Next(s, Read(g, pod)), Check(g)), Delete(g));
      x in HashOf(pruned, pod) <==>
        x in HashOf(s, pod) && x in s.lastBeat && s.lastBeat[x] >= s.now - 600_000
  {
    RunsKeepInv(steps);
    var s := Run(steps);
    hide Run, Inv, Victims, LiveGateways, IncrDecr, Trimmed;
    var read := Next(s, Read(g, pod));
    var checked := Next(read, Check(g));
    assert checked.flushes[g] == Flush(s.now, Victims(read, g));
    assert HashOf(Next(checked, Delete(g)), pod) == Without(HashOf(s, pod), pod, Victims(read, g));
    if x in HashOf(s, pod) {
      PrunePassMarks(s, g, pod, x);
    }
  }

  lemma PrunePassMarks(s: State, g: Gateway, pod: PodKey, x: Gateway)
    requires Inv(s) && x != g && x in HashOf(s, pod)
    ensures (pod, x) in Victims(Next(s, Read(g, pod)), g) <==> !(x in s.lastBeat && s.lastBeat[x] >= s.now - 600_000)
  {
    var read := Next(s, Read(g, pod));
    assert x in ProtectedGateways(read) <==> x in s.lastBeat && s.lastBeat[x] >= s.now - 600_000;
    var excluded := HashOf(s, pod).Keys - (LiveGateways(s) + {g});
    assert x in excluded || x in ProtectedGateways(read);
    if x in excluded {
      assert Pending(read, g) == Pending(s, g)[pod := excluded];
    }
  }

  /** Fields disappear only through a flush that marked them, and every other field keeps
      its value through a flush. */
  lemma OnlyMarkedFieldsDisappear(s: State, step: Step, pod: PodKey, x: Gateway)
    requires x in HashOf(s, pod)
    ensures x !in HashOf(Next(s, step), pod) ==>
              step.Delete? && step.g in s.flushes && (pod, x) in s.flushes[step.g].victims
    ensures step.Delete? && x in HashOf(Next(s, step), pod) ==>
              HashOf(Next(s, step), pod)[x] == HashOf(s, pod)[x]
  {
  }

  // ------------------------------------------------------------------------
  // Pruning is invisible
  // ------------------------------------------------------------------------

  ghost function From(s: State, steps: seq<Step>): State {
    if steps == [] then s else Next(From(s, steps[..|steps| - 1]), steps[|steps| - 1])
  }

  predicate Silent(s: State, g: Gateway) {
    SilentSince(s, g, s.now - LIVENESS_WINDOW)
  }

  /** The owners of the fields a step deletes. */
  function Deleted(s: State, step: Step): set<Gateway> {
    if step.Delete? && step.g in s.flushes then set v | v in s.flushes[step.g].victims :: v.1 else {}
  }

  /** Nobody in `gone`, and nobody the step deletes a field of, is back. */
  ghost predicate NoReturn(s: State, step: Step, gone: set<Gateway>) {
    && (step.Beat? ==> step.g !in gone)
    && (forall g :: g in Deleted(s, step) ==> Silent(s, g))
  }

  /** The gateways in `gone`, and those whose fields a flush deleted along the way. */
  ghost function Gone(s: State, steps: seq<Step>, gone: set<Gateway>): set<Gateway> {
    if steps == [] then gone
    else
      var init, last := steps[..|steps| - 1], steps[|steps| - 1];
      Gone(s, init, gone) + Deleted(From(s, init), last)
  }

  /** No gateway whose field was deleted, in the run from `a` or the one from `b`, is back when
      it is deleted or comes back later. */
  ghost predicate Undisturbed(a: State, b: State, steps: seq<Step>, gone: set<Gateway>) {
    if steps == [] then true
    else
      var init, last := steps[..|steps| - 1], steps[|steps| - 1];
      var all := Gone(a, init, gone) + Gone(b, init, gone);
      Undisturbed(a, b, init, gone) && NoReturn(From(a, init), last, all) && NoReturn(From(b, init), last, all)
  }

  /** Two states that differ only in the fields of silent gateways `gone`, and in what is
      queued or marked for pruning. */
  ghost predicate Alike(a: State, b: State, gone: set<Gateway>) {
    && a.now == b.now && a.scores == b.scores && a.lastBeat == b.lastBeat
    && (forall g :: g in gone ==> Silent(a, g))
    && (forall pod, g :: g !in gone ==> Field(HashOf(a, pod), g) == Field(HashOf(b, pod), g))
  }

  lemma StepKeepsAlike(a: State, b: State, step: Step, gone: set<Gateway>)
    requires Alike(a, b, gone) && NoReturn(a, step, gone) && NoReturn(b, step, gone)
    ensures Alike(Next(a, step), Next(b, step), gone + Deleted(a, step) + Deleted(b, step))
  {
    var a', b' := Next(a, step), Next(b, step);
    var gone' := gone + Deleted(a, step) + Deleted(b, step);
    SameClocks(a, b, step);
    hide Next, SilentSince, Deleted;
    forall g | g in gone'
      ensures Silent(a', g)
    {
      assert Silent(a, g) <==> Silent(b, g);
      StaysSilent(a, step, g);
    }
    forall pod, g | g !in gone'
      ensures Field(HashOf(a', pod), g) == Field(HashOf(b', pod), g)
    {
      StepOnField(a, step, pod, g);
      StepOnField(b, step, pod, g);
    }
  }

  lemma SameClocks(a: State, b: State, step: Step)
    requires a.now == b.now && a.scores == b.scores && a.lastBeat == b.lastBeat
    ensures var a', b' := Next(a, step), Next(b, step);
      && a'.now == b'.now && a'.scores == b'.scores && a'.lastBeat == b'.lastBeat
      && forall g :: Silent(a, g) <==> Silent(b, g)
  {
    hide IncrDecr, Victims, Without, LiveGateways;
  }

  lemma StaysSilent(s: State, step: Step, g: Gateway)
    requires Silent(s, g) && step != Beat(g)
    ensures Silent(Next(s, step), g)
  {
  }

  /** What a step does to one field depends on nothing but that field, unless it deletes it. */
  lemma StepOnField(s: State, step: Step, pod: PodKey, g: Gateway)
    requires g !in Deleted(s, step)
    ensures Field(HashOf(Next(s, step), pod), g) ==
      if step.Write? && step.pod == pod && step.g == g then Max(0, Field(HashOf(s, pod), g) + step.delta)
      else Field(HashOf(s, pod), g)
  {
  }

  lemma {:induction false} RunsStayAlike(a: State, b: State, more: seq<Step>, gone: set<Gateway>)
    requires Alike(a, b, gone) && Undisturbed(a, b, more, gone) && Inv(a) && Inv(b)
    ensures Alike(From(a, more), From(b, more), Gone(a, more, gone) + Gone(b, more, gone))
    ensures Inv(From(a, more)) && Inv(From(b, more))
  {
    hide Alike, Inv, NoReturn, Next;
    if more == [] {
      assert gone + gone == gone;
    } else {
      var init, last := more[..|more| - 1], more[|more| - 1];
      var a', b' := From(a, init), From(b, init);
      var all := Gone(a, init, gone) + Gone(b, init, gone);
      RunsStayAlike(a, b, init, gone);
      StepKeepsAlike(a', b', last, all);
      NextKeepsInv(a', last);
      NextKeepsInv(b', last);
      assert all + Deleted(a', last) + Deleted(b', last) == Gone(a, more, gone) + Gone(b, more, gone);
    }
  }

  lemma AlikeReadsAlike(a: State, b: State, gone: set<Gateway>, reader: Gateway, pod: PodKey, local: nat)
    requires Alike(a, b, gone) && Inv(a) && Inv(b)
    ensures Realtime(a, reader, pod, local) == Realtime(b, reader, pod, local)
  {
    hide Realtime, Inv;
    forall g | g != reader && !SilentSince(a, g, a.now - LIVENESS_WINDOW)
      ensures Field(HashOf(a, pod), g) == Field(HashOf(b, pod), g)
    {
      assert !Silent(a, g);
    }
    SameRecentFields(a, b, reader, pod, local);
  }

  /** Pruning changes no reader's count, at the delete or after any number of further steps of
      any gateways, compared with the same run without the delete: as long as no gateway is
      back when its field is deleted, and none comes back later. */
  lemma PruningIsInvisible(steps: seq<Step>, f: Gateway, more: seq<Step>, reader: Gateway, pod: PodKey, local: nat)
    requires var s, gone := Run(steps), Deleted(Run(steps), Delete(f));
      && NoReturn(s, Delete(f), {})
      && Undisturbed(Next(s, Delete(f)), Next(s, DeleteFails(f)), more, gone)
    ensures var s := Run(steps);
      Realtime(From(Next(s, Delete(f)), more), reader, pod, local)
      == Realtime(From(Next(s, DeleteFails(f)), more), reader, pod, local)
  {
    var s, gone := Run(steps), Deleted(Run(steps), Delete(f));
    var a, b := Next(s, Delete(f)), Next(s, DeleteFails(f));
    RunsKeepInv(steps);
    NextKeepsInv(s, Delete(f));
    NextKeepsInv(s, DeleteFails(f));
    DeletesAlike(s, f);
    hide Next, Realtime, Alike, Inv;
    RunsStayAlike(a, b, more, gone);
    AlikeReadsAlike(From(a, more), From(b, more), Gone(a, more, gone) + Gone(b, more, gone), reader, pod, local);
  }

  lemma DeletesAlike(s: State, f: Gateway)
    requires NoReturn(s, Delete(f), {})
    ensures Alike(Next(s, Delete(f)), Next(s, DeleteFails(f)), Deleted(s, Delete(f)))
  {
    var gone := Deleted(s, Delete(f));
    forall pod, g | g !in gone
      ensures Field(HashOf(Next(s, Delete(f)), pod), g) == Field(HashOf(Next(s, DeleteFails(f)), pod), g)
    {
      StepOnField(s, Delete(f), pod, g);
      StepOnField(s, DeleteFails(f), pod, g);
    }
  }

  /** In particular after any ticks, writes, reads, checks and failed flushes, and any
      heartbeats of gateways whose fields were not deleted. */
  lemma PruningIsInvisibleToTraffic(steps: seq<Step>, f: Gateway, more: seq<Step>,
                                    reader: Gateway, pod: PodKey, local: nat)
    requires NoReturn(Run(steps), Delete(f), {})
    requires forall n :: 0 <= n < |more| ==>
      !more[n].Delete? && (more[n].Beat? ==> more[n].g !in Deleted(Run(steps), Delete(f)))
    ensures var s := Run(steps);
      Realtime(From(Next(s, Delete(f)), more), reader, pod, local)
      == Realtime(From(Next(s, DeleteFails(f)), more), reader, pod, local)
  {
    var s, gone := Run(steps), Deleted(Run(steps), Delete(f));
    TrafficIsUndisturbed(Next(s, Delete(f)), Next(s, DeleteFails(f)), more, gone);
    PruningIsInvisible(steps, f, more, reader, pod, local);
  }

  lemma {:induction false} TrafficIsUndisturbed(a: State, b: State, more: seq<Step>, gone: set<Gateway>)
    requires forall n :: 0 <= n < |more| ==> !more[n].Delete? && (more[n].Beat? ==> more[n].g !in gone)
    ensures Undisturbed(a, b, more, gone)
    ensures Gone(a, more, gone) == gone && Gone(b, more, gone) == gone
  {
    if more != [] {
      TrafficIsUndisturbed(a, b, more[..|more| - 1], gone);
    }
  }

  // ------------------------------------------------------------------------
  // Exactly when a delete is seen
  // ------------------------------------------------------------------------

  /** A victim that counts: it is back, and its field is not empty. */
  predicate Counts(s: State, v: (PodKey, Gateway)) {
    !Silent(s, v.1) && Field(HashOf(s, v.0), v.1) > 0
  }

  ghost predicate DeleteUnseen(s: State, f: Gateway) {
    forall reader, pod, local: nat ::
      Realtime(Next(s, Delete(f)), reader, pod, local) == Realtime(s, reader, pod, local)
  }

  /** A delete leaves every reader's count alone exactly if every victim is still silent or has
      nothing in its field. */
  lemma DeleteUnseenIff(s: State, f: Gateway)
    requires Inv(s) && f in s.flushes
    ensures DeleteUnseen(s, f) <==> forall v :: v in s.flushes[f].victims ==> !Counts(s, v)
  {
    var victims := s.flushes[f].victims;
    if forall v :: v in victims ==> !Counts(s, v) {
      forall reader, pod, local: nat
        ensures Realtime(Next(s, Delete(f)), reader, pod, local) == Realtime(s, reader, pod, local)
      {
        UncountedDelete(s, f, reader, pod, local);
      }
    } else {
      var v :| v in victims && Counts(s, v);
      CountedDelete(s, f, v);
    }
  }

  lemma DeleteReads(s: State, f: Gateway, reader: Gateway, pod: PodKey, local: nat)
    requires Inv(s) && f in s.flushes
    ensures var gs, h := RecentOthers(s, reader), HashOf(s, pod);
      && Realtime(s, reader, pod, local) == local + SumOver(gs, h)
      && Realtime(Next(s, Delete(f)), reader, pod, local)
         == local + SumOver(gs, Without(h, pod, s.flushes[f].victims))
  {
    NextKeepsInv(s, Delete(f));
    ReadsFollowHeartbeats(s, reader, pod, local);
    ReadsFollowHeartbeats(Next(s, Delete(f)), reader, pod, local);
    assert RecentOthers(Next(s, Delete(f)), reader) == RecentOthers(s, reader);
    assert HashOf(Next(s, Delete(f)), pod) == Without(HashOf(s, pod), pod, s.flushes[f].victims);
  }

  lemma UncountedDelete(s: State, f: Gateway, reader: Gateway, pod: PodKey, local: nat)
    requires Inv(s) && f in s.flushes && forall v :: v in s.flushes[f].victims ==> !Counts(s, v)
    ensures Realtime(Next(s, Delete(f)), reader, pod, local) == Realtime(s, reader, pod, local)
  {
    DeleteReads(s, f, reader, pod, local);
    var gs, h, victims := RecentOthers(s, reader), HashOf(s, pod), s.flushes[f].victims;
    forall g | g in gs
      ensures Max(0, Field(h, g)) == Max(0, Field(Without(h, pod, victims), g))
    {
      if (pod, g) in victims {
        assert !Counts(s, (pod, g));
      }
    }
    SumOverSame(gs, h, Without(h, pod, victims));
  }

  lemma CountedDelete(s: State, f: Gateway, v: (PodKey, Gateway))
    requires Inv(s) && f in s.flushes && v in s.flushes[f].victims && Counts(s, v)
    ensures Realtime(Next(s, Delete(f)), v.1 + 1, v.0, 0) < Realtime(s, v.1 + 1, v.0, 0)
  {
    var reader, pod, g := v.1 + 1, v.0, v.1;
    DeleteReads(s, f, reader, pod, 0);
    var gs, h, h' := RecentOthers(s, reader), HashOf(s, pod), Without(HashOf(s, pod), pod, s.flushes[f].victims);
    assert v == (pod, g);
    SumOverRemove(gs, g, h);
    SumOverRemove(gs, g, h');
    SumOverAtMost(gs - {g}, h', h);
  }

  /** A flush of gateway 0 has marked the field of gateway 1, which has been silent. */
  const MARKED := State(600_001, map[1 := 0], map[1 := 0], map[0 := map[1 := 1]], map[0 := map[]],
                        map[0 := Flush(600_001, {(0, 1)})])

  const MARKING := [Beat(1), Write(1, 0, 1), Tick(600_001), Read(0, 0), Check(0)]

  lemma MarkingRun()
    ensures Run(MARKING) == MARKED
  {
    var a, b, c, d, e := Beat(1), Write(1, 0, 1), Tick(600_001), Read(0, 0), Check(0);
    assert [a, b, c, d, e][..4] == [a, b, c, d] && [a, b, c, d][..3] == [a, b, c] && [a, b, c][..2] == [a, b]
        && [a, b][..1] == [a] && [a][..0] == [];
    assert Run([a]) == State(0, map[1 := 0], map[1 := 0], map[], map[], map[]);
    assert Run([a, b]) == State(0, map[1 := 0], map[1 := 0], map[0 := map[1 := 1]], map[], map[]);
    var quiet := State(600_001, map[1 := 0], map[1 := 0], map[0 := map[1 := 1]], map[], map[]);
    assert Run([a, b, c]) == quiet;
    assert HashOf(quiet, 0).Keys - (LiveGateways(quiet) + {0}) == {1};
    var read := quiet.(pending := map[0 := map[0 := {1}]]);
    assert Run([a, b, c, d]) == read;
    assert Victims(read, 0) == {(0, 1)};
  }

  /** A gateway marked while silent and back before the delete: its request is counted, and
      then no longer. */
  lemma ReturningGatewayLosesItsField()
    ensures var s := Run(MARKING + [Beat(1)]);
      && Realtime(s, 0, 0, 0) == 1 && Realtime(Next(s, Delete(0)), 0, 0, 0) == 0
  {
    MarkingRun();
    assert (MARKING + [Beat(1)])[..|MARKING|] == MARKING;
    RunsKeepInv(MARKING + [Beat(1)]);
    var s := Run(MARKING + [Beat(1)]);
    assert s == Next(MARKED, Beat(1));
    hide Run, Realtime, Inv;
    DeleteReads(s, 0, 0, 0, 0);
    ReturnedReads(s);
  }

  lemma ReturnedReads(s: State)
    requires s == Next(MARKED, Beat(1))
    ensures s.flushes == MARKED.flushes && SumOver(RecentOthers(s, 0), HashOf(s, 0)) == 1
    ensures SumOver(RecentOthers(s, 0), Without(HashOf(s, 0), 0, {(0, 1)})) == 0
  {
    assert s.lastBeat == map[1 := 600_001] && s.now == 600_001;
    assert 1 in RecentOthers(s, 0) && forall g :: g in RecentOthers(s, 0) ==> g == 1;
    assert RecentOthers(s, 0) == {1};
    SumOverRemove({1}, 1, HashOf(s, 0));
    SumOverRemove({1}, 1, Without(HashOf(s, 0), 0, {(0, 1)}));
    assert {1} - {1} == {};
  }

  // ------------------------------------------------------------------------
  // Trimming is invisible
  // ------------------------------------------------------------------------

  /** A step of a store that never trims its heartbeat set. */
  ghost function NextUntrimmed(s: State, step: Step): State {
    if step.Beat? then s.(scores := s.scores[step.g := s.now], lastBeat := s.lastBeat[step.g := s.now])
    else Next(s, step)
  }

  ghost function RunUntrimmed(steps: seq<Step>): State {
    if steps == [] then Init else NextUntrimmed(RunUntrimmed(steps[..|steps| - 1]), steps[|steps| - 1])
  }

  /** `s` is `u` but for scores past the long window. */
  ghost predicate TrimmedOf(s: State, u: State) {
    && s == u.(scores := s.scores)
    && (forall g :: g in s.scores ==> g in u.scores && s.scores[g] == u.scores[g])
    && (forall g :: g in u.scores && g !in s.scores ==> u.scores[g] < u.now - FIELD_PRUNE_WINDOW)
  }

  lemma StepKeepsTrimmed(s: State, u: State, step: Step)
    requires TrimmedOf(s, u)
    ensures TrimmedOf(Next(s, step), NextUntrimmed(u, step))
  {
    SameGateways(s, u);
    if step.Beat? {
      BeatKeepsTrimmed(s, u, step.g);
    } else {
      ScoresDoNotMatter(u, s.scores, step);
      assert u.now <= Next(u, step).now;
      hide Next;
    }
  }

  /** Only heartbeats change the scores, and only who is live and who is protected matters. */
  lemma ScoresDoNotMatter(u: State, scores: map<Gateway, int>, step: Step)
    requires !step.Beat?
    requires LiveGateways(u.(scores := scores)) == LiveGateways(u)
    requires ProtectedGateways(u.(scores := scores)) == ProtectedGateways(u)
    ensures Next(u.(scores := scores), step) == Next(u, step).(scores := scores)
    ensures Next(u, step).scores == u.scores
  {
    hide LiveGateways, ProtectedGateways, IncrDecr, Without;
    if step.Check? {
      assert Victims(u.(scores := scores), step.g) == Victims(u, step.g);
    }
  }

  lemma BeatKeepsTrimmed(s: State, u: State, g: Gateway)
    requires TrimmedOf(s, u)
    ensures TrimmedOf(Next(s, Beat(g)), NextUntrimmed(u, Beat(g)))
  {
    var s', u' := Next(s, Beat(g)), NextUntrimmed(u, Beat(g));
    assert s' == u'.(scores := s'.scores);
    forall x | x in u'.scores && x !in s'.scores
      ensures u'.scores[x] < u'.now - FIELD_PRUNE_WINDOW
    {
      assert x != g ==> x in u.scores && u.scores[x] == u'.scores[x];
    }
  }

  lemma SameGateways(s: State, u: State)
    requires TrimmedOf(s, u)
    ensures LiveGateways(s) == LiveGateways(u) && ProtectedGateways(s) == ProtectedGateways(u)
  {
  }

  /** Trimming the heartbeat set changes nothing: after every run the hashes, the prune queues
      and the marks are what they would be had nothing ever been trimmed, and so is every
      reader's count. */
  lemma {:induction false} TrimmingIsInvisible(steps: seq<Step>)
    ensures var s, u := Run(steps), RunUntrimmed(steps);
      && TrimmedOf(s, u) && s.hashes == u.hashes && s.pending == u.pending && s.flushes == u.flushes
      && forall reader, pod, local: nat :: Realtime(s, reader, pod, local) == Realtime(u, reader, pod, local)
  {
    if steps != [] {
      var init, last := steps[..|steps| - 1], steps[|steps| - 1];
      TrimmingIsInvisible(init);
      StepKeepsTrimmed(Run(init), RunUntrimmed(init), last);
    }
    SameGateways(Run(steps), RunUntrimmed(steps));
    hide Next, NextUntrimmed, LiveGateways, ProtectedGateways;
  }
}
