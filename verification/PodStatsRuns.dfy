/** What whole schedules do to the counters, read off the schedule's own actions. */
module PodStatsRuns {
  import opened Options
  import opened PodStats

  // ------------------------------------------------------------------------
  // Which actions take effect
  // ------------------------------------------------------------------------

  /** The action starts a request of generation `gen`: its pod is live with that generation, or
      is parked with it under the same known address. */
  predicate StartsOn(v: View, a: Action, gen: int) {
    && a.Start?
    && if a.target.key in v.live then v.live[a.target.key].gen == gen
       else && a.target.key in v.parked && v.parked[a.target.key].gen == gen
            && a.target.ip.Some? && v.parked[a.target.key].ip == a.target.ip
  }

  /** The action completes a request of generation `gen`. */
  predicate CompletesOn(v: View, a: Action, gen: int) {
    a.Complete? && a.i < |v.requests| && v.requests[a.i].phase == Loaded && v.requests[a.i].gen == gen
  }

  /** The action is the second critical section of request `i`. */
  predicate LoadsRequest(v: View, a: Action, i: nat) {
    a.AddLoad? && a.i == i && i < |v.requests| && v.requests[i].phase == Counted
  }

  // ------------------------------------------------------------------------
  // What the first `n` actions add up to
  // ------------------------------------------------------------------------

  ghost function Started(p: bool, schedule: seq<Action>, n: nat, gen: int): nat
    requires n <= |schedule|
  {
    if n == 0 then 0
    else
      Started(p, schedule, n - 1, gen) + if StartsOn(AfterFirst(p, schedule, n - 1), schedule[n - 1], gen) then 1 else 0
  }

  ghost function Completions(p: bool, schedule: seq<Action>, n: nat, gen: int): nat
    requires n <= |schedule|
  {
    if n == 0 then 0
    else
      Completions(p, schedule, n - 1, gen)
      + if CompletesOn(AfterFirst(p, schedule, n - 1), schedule[n - 1], gen) then 1 else 0
  }

  /** The output tokens reported, bogus negative reports counting as none. */
  ghost function TokensReported(p: bool, schedule: seq<Action>, n: nat, gen: int): int
    requires n <= |schedule|
  {
    if n == 0 then 0
    else
      var a := schedule[n - 1];
      TokensReported(p, schedule, n - 1, gen)
      + if CompletesOn(AfterFirst(p, schedule, n - 1), a, gen) && a.outputTokens > 0 then a.outputTokens else 0
  }

  /** The load request `i` added: what its consumption came to, if there is a provider. */
  ghost function LoadAdded(p: bool, schedule: seq<Action>, n: nat, i: nat): real
    requires n <= |schedule|
  {
    if n == 0 then 0.0
    else
      var a := schedule[n - 1];
      if LoadsRequest(AfterFirst(p, schedule, n - 1), a, i) && p && a.consumption.Some? then a.consumption.value
      else LoadAdded(p, schedule, n - 1, i)
  }

  /** The loads of the first `k` requests that are of generation `gen`, added and not given back. */
  ghost function LoadsHeld(p: bool, schedule: seq<Action>, n: nat, gen: int, k: nat): real
    requires n <= |schedule| && k <= |AfterFirst(p, schedule, n).requests|
  {
    if k == 0 then 0.0
    else
      var r := AfterFirst(p, schedule, n).requests[k - 1];
      LoadsHeld(p, schedule, n, gen, k - 1)
      + if r.gen == gen && r.phase == Loaded then LoadAdded(p, schedule, n, k - 1) else 0.0
  }

  lemma StartOnTotals(v: View, p: bool, a: Action, gen: int, c: Counter)
    requires a.Start?
    ensures Total(After(v, p, a).requests, gen, c)
      == Total(v.requests, gen, c) + if c == Running && StartsOn(v, a, gen) then 1 else 0
  {
    var after := After(v, p, a).requests;
    if after != v.requests {
      TotalsAppend(v.requests, after[|v.requests|], gen);
    }
    hide Total;
  }

  lemma AdvanceOnTotals(v: View, p: bool, a: Action, gen: int, c: Counter)
    requires a.AddLoad? || a.Complete?
    ensures Total(After(v, p, a).requests, gen, c) == Total(v.requests, gen, c) +
      if !CompletesOn(v, a, gen) then 0
      else match c
        case Running => -1
        case Done => 1
        case OutputTokens => if a.outputTokens > 0 then a.outputTokens else 0
  {
    hide Total;
    if a.i < |v.requests| {
      TotalUpdate(v.requests, a.i, After(v, p, a).requests[a.i], gen, c);
      assert v.requests[a.i := v.requests[a.i]] == v.requests;
    }
  }

  lemma StepOnTotals(v: View, p: bool, a: Action, gen: int)
    ensures var after := After(v, p, a).requests;
      var started, completed := if StartsOn(v, a, gen) then 1 else 0, if CompletesOn(v, a, gen) then 1 else 0;
      && Total(after, gen, Running) == Total(v.requests, gen, Running) + started - completed
      && Total(after, gen, Done) == Total(v.requests, gen, Done) + completed
      && Total(after, gen, OutputTokens) == Total(v.requests, gen, OutputTokens)
           + if CompletesOn(v, a, gen) && a.outputTokens > 0 then a.outputTokens else 0
  {
    if a.Start? {
      StartOnTotals(v, p, a, gen, Running);
      StartOnTotals(v, p, a, gen, Done);
      StartOnTotals(v, p, a, gen, OutputTokens);
    } else if a.AddLoad? || a.Complete? {
      AdvanceOnTotals(v, p, a, gen, Running);
      AdvanceOnTotals(v, p, a, gen, Done);
      AdvanceOnTotals(v, p, a, gen, OutputTokens);
    } else {
      assert After(v, p, a).requests == v.requests;
    }
    hide Total, After;
  }

  lemma {:induction false} TotalsFollowSchedule(p: bool, schedule: seq<Action>, n: nat, gen: int)
    requires n <= |schedule|
    ensures var requests := AfterFirst(p, schedule, n).requests;
      && Total(requests, gen, Running) == Started(p, schedule, n, gen) - Completions(p, schedule, n, gen)
      && Total(requests, gen, Done) == Completions(p, schedule, n, gen)
      && Total(requests, gen, OutputTokens) == TokensReported(p, schedule, n, gen)
  {
    if n > 0 {
      TotalsFollowSchedule(p, schedule, n - 1, gen);
      StepOnTotals(AfterFirst(p, schedule, n - 1), p, schedule[n - 1], gen);
      hide After, Total;
    }
  }

  /** A request carries the load its own second section added. */
  lemma {:induction false} LoadsFollowSchedule(p: bool, schedule: seq<Action>, n: nat, i: nat)
    requires n <= |schedule|
    ensures var requests := AfterFirst(p, schedule, n).requests;
      && (i < |requests| ==> requests[i].load == LoadAdded(p, schedule, n, i))
      && (i < |requests| && requests[i].phase == Counted ==> LoadAdded(p, schedule, n, i) == 0.0)
      && (i >= |requests| ==> LoadAdded(p, schedule, n, i) == 0.0)
  {
    if n > 0 {
      LoadsFollowSchedule(p, schedule, n - 1, i);
    }
  }

  lemma {:induction false} HeldIsTotal(p: bool, schedule: seq<Action>, n: nat, gen: int, k: nat)
    requires n <= |schedule| && k <= |AfterFirst(p, schedule, n).requests|
    ensures TotalLoad(AfterFirst(p, schedule, n).requests[..k], gen) == LoadsHeld(p, schedule, n, gen, k)
  {
    hide AfterFirst, LoadAdded;
    if k > 0 {
      HeldIsTotal(p, schedule, n, gen, k - 1);
      LoadsFollowSchedule(p, schedule, n, k - 1);
      var requests := AfterFirst(p, schedule, n).requests;
      assert requests[..k][..k - 1] == requests[..k - 1];
    }
  }

  /** Whatever the schedule, a reachable object's running count is the requests of its
      generation started and not completed, its completed counts are those completed and the
      tokens they reported, and its pending load is the sum of the loads they added and have
      not given back. */
  lemma CountersFollowSchedule(c: Store, h: Holder, key: PodKey, schedule: seq<Action>)
    requires c.Core() && c.At(h, key)
    requires c.CurrentView() == AfterFirst(c.hasPendingLoadProvider, schedule, |schedule|)
    ensures var p, n, gen := c.hasPendingLoadProvider, |schedule|, c.GenerationOf(h);
      && c.RunningOn(h) == Started(p, schedule, n, gen) - Completions(p, schedule, n, gen)
      && c.CompletedOn(h) == Completions(p, schedule, n, gen)
      && c.TokensOn(h) == TokensReported(p, schedule, n, gen)
      && c.PendingLoadOn(h) == LoadsHeld(p, schedule, n, gen, |c.requests|)
  {
    var p, n, gen := c.hasPendingLoadProvider, |schedule|, c.GenerationOf(h);
    assert c.requests[..|c.requests|] == c.requests;
    HeldIsTotal(p, schedule, n, gen, |c.requests|);
    TotalsFollowSchedule(p, schedule, n, gen);
    c.CountersAreTotals(h, key);
    hide AfterFirst, Total, TotalLoad;
  }

  // ------------------------------------------------------------------------
  // Flaps and recreations
  // ------------------------------------------------------------------------

  /** Every generation in use has been issued. */
  ghost predicate Issued(v: View) {
    && v.lastGen >= 0
    && (forall k :: k in v.live ==> 1 <= v.live[k].gen <= v.lastGen)
    && (forall k :: k in v.parked ==> 1 <= v.parked[k].gen <= v.lastGen)
    && (forall i :: 0 <= i < |v.requests| ==> 1 <= v.requests[i].gen <= v.lastGen)
  }

  lemma StepUsesIssued(v: View, p: bool, a: Action)
    requires Issued(v)
    ensures Issued(After(v, p, a))
  {
  }

  lemma {:induction false} RunsUseIssued(p: bool, schedule: seq<Action>, n: nat)
    requires n <= |schedule|
    ensures Issued(AfterFirst(p, schedule, n))
  {
    hide After, Issued;
    if n > 0 {
      RunsUseIssued(p, schedule, n - 1);
      StepUsesIssued(AfterFirst(p, schedule, n - 1), p, schedule[n - 1]);
    } else {
      assert AfterFirst(p, schedule, 0) == EMPTY;
      NothingIssued();
    }
  }

  lemma NothingIssued()
    ensures Issued(EMPTY)
  {
  }

  /** Deleting a live pod parks it and sweeps away exactly what has been parked for a minute. */
  lemma DeleteSweepsExactly(v: View, p: bool, key: PodKey, now: int, k: PodKey)
    requires key in v.live
    ensures var w := After(v, p, Delete(key, now));
      && (k in w.live <==> k in v.live && k != key)
      && (k == key ==> k in w.parked && w.parked[k] == Parked(v.live[key].ip, v.live[key].gen, now))
      && (k != key ==> (k in w.parked <==> k in v.parked && now - v.parked[k].at < 60_000))
      && (k != key && k in w.parked ==> w.parked[k] == v.parked[k])
  {
  }

  /** Between the delete and the re-add nothing else happens to the key, and no other delete
      comes so late that it sweeps the parked counters away. */
  ghost predicate Undisturbed(schedule: seq<Action>, d: nat, a: nat, key: PodKey, at: int)
    requires d < a <= |schedule|
  {
    forall j :: d < j < a ==>
      && (schedule[j].Add? ==> schedule[j].spec.key != key)
      && (schedule[j].Delete? ==> schedule[j].key != key && schedule[j].now - at < 60_000)
  }

  lemma {:induction false} StaysParked(p: bool, schedule: seq<Action>, d: nat, n: nat)
    requires d < n <= |schedule| && schedule[d].Delete?
    requires schedule[d].key in AfterFirst(p, schedule, d).live
    requires Undisturbed(schedule, d, n, schedule[d].key, schedule[d].now)
    ensures var v, key := AfterFirst(p, schedule, n), schedule[d].key;
      var was := AfterFirst(p, schedule, d).live[key];
      key !in v.live && key in v.parked && v.parked[key] == Parked(was.ip, was.gen, schedule[d].now)
    decreases n
  {
    if n > d + 1 {
      StaysParked(p, schedule, d, n - 1);
    }
  }

  /** A pod deleted at step `d` and added again at step `a` goes on with its generation exactly
      if it comes back under the same known address within a minute; otherwise it gets one
      nothing was ever counted on. */
  lemma FlapResumesExactly(p: bool, schedule: seq<Action>, d: nat, a: nat)
    requires d < a < |schedule| && schedule[d].Delete? && schedule[a].Add?
    requires schedule[a].spec.key == schedule[d].key && schedule[d].key in AfterFirst(p, schedule, d).live
    requires Undisturbed(schedule, d, a, schedule[d].key, schedule[d].now)
    ensures var key, was := schedule[d].key, AfterFirst(p, schedule, d).live[schedule[d].key];
      var v := AfterFirst(p, schedule, a + 1);
      && key in v.live && v.live[key].ip == schedule[a].spec.ip
      && (was.ip.Some? && was.ip == schedule[a].spec.ip && schedule[a].now - schedule[d].now < 60_000 ==>
            v.live[key].gen == was.gen)
      && (!(was.ip.Some? && was.ip == schedule[a].spec.ip && schedule[a].now - schedule[d].now < 60_000) ==>
            && v.live[key].gen != was.gen && Started(p, schedule, a + 1, v.live[key].gen) == 0
            && forall i :: 0 <= i < |v.requests| ==> v.requests[i].gen != v.live[key].gen)
  {
    StaysParked(p, schedule, d, a);
    RunsUseIssued(p, schedule, d);
    RunsUseIssued(p, schedule, a);
    GenerationsGrow(p, schedule, d, a);
    var v, gen := AfterFirst(p, schedule, a), AfterFirst(p, schedule, a).lastGen + 1;
    NothingStartedLater(p, schedule, a, gen);
  }

  lemma {:induction false} GenerationsGrow(p: bool, schedule: seq<Action>, m: nat, n: nat)
    requires m <= n <= |schedule|
    ensures AfterFirst(p, schedule, m).lastGen <= AfterFirst(p, schedule, n).lastGen
    decreases n
  {
    if m < n {
      GenerationsGrow(p, schedule, m, n - 1);
    }
  }

  lemma {:induction false} NothingStartedLater(p: bool, schedule: seq<Action>, n: nat, gen: int)
    requires n <= |schedule| && gen > AfterFirst(p, schedule, n).lastGen
    ensures Started(p, schedule, n, gen) == 0
  {
    if n > 0 {
      GenerationsGrow(p, schedule, n - 1, n);
      RunsUseIssued(p, schedule, n - 1);
      NothingStartedLater(p, schedule, n - 1, gen);
    }
  }
}
