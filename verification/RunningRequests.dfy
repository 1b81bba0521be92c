/** The per-pod running-request hash in Redis and the two scripts that change it.

  A pod's hash has one field per gateway; a hash without fields does not exist.  Each Lua
  script is one atomic step.
  */
module RequestHash {

  type Gateway = nat

  type Hash = map<Gateway, int>

  /** What a reader takes a missing field for. */
  function Field(h: Hash, g: Gateway): int {
    if g in h then h[g] else 0
  }

  function Max(a: int, b: int): (m: int)
    ensures m >= a && m >= b && (m == a || m == b)
  {
    if a > b then a else b
  }

  /** The increment/decrement script: the new hash and the script's reply.  A negative delta
      leaves a missing hash missing, and a field never goes below zero. */
  function IncrDecr(h: Hash, g: Gateway, delta: int): (r: (Hash, int))
    ensures forall f :: f != g ==> (f in r.0 <==> f in h) && Field(r.0, f) == Field(h, f)
    ensures delta < 0 && h == map[] ==> r == (h, -1)
    ensures !(delta < 0 && h == map[]) ==> g in r.0 && Field(r.0, g) == r.1 == Max(0, Field(h, g) + delta)
  {
    if delta < 0 && h == map[] then (h, -1)
    else
      var newVal := Field(h, g) + delta;
      if newVal < 0 then (h[g := 0], 0) else (h[g := newVal], newVal)
  }

  // ------------------------------------------------------------------------
  // Sums over gateways
  // ------------------------------------------------------------------------

  /** The sum of the fields of `gs`, each counted as at least zero. */
  ghost function SumOver(gs: set<Gateway>, h: Hash): int {
    if gs == {} then 0
    else
      var g :| g in gs;
      Max(0, Field(h, g)) + SumOver(gs - {g}, h)
  }

  /** The order of summation does not matter. */
  lemma {:induction false} SumOverRemove(gs: set<Gateway>, g: Gateway, h: Hash)
    requires g in gs
    ensures SumOver(gs, h) == Max(0, Field(h, g)) + SumOver(gs - {g}, h)
  {
    var c :| c in gs && SumOver(gs, h) == Max(0, Field(h, c)) + SumOver(gs - {c}, h);
    if c != g {
      SumOverRemove(gs - {c}, g, h);
      SumOverRemove(gs - {g}, c, h);
      assert gs - {c} - {g} == gs - {g} - {c};
    }
  }

  lemma {:induction false} SumOverSame(gs: set<Gateway>, h: Hash, h': Hash)
    requires forall g :: g in gs ==> Max(0, Field(h, g)) == Max(0, Field(h', g))
    ensures SumOver(gs, h) == SumOver(gs, h')
  {
    if gs != {} {
      var g :| g in gs;
      SumOverRemove(gs, g, h);
      SumOverRemove(gs, g, h');
      SumOverSame(gs - {g}, h, h');
    }
  }

  lemma {:induction false} SumOverMonotone(gs: set<Gateway>, more: set<Gateway>, h: Hash)
    requires gs <= more
    ensures 0 <= SumOver(gs, h) <= SumOver(more, h)
  {
    if gs != {} {
      var g :| g in gs;
      SumOverRemove(gs, g, h);
      SumOverRemove(more, g, h);
      SumOverMonotone(gs - {g}, more - {g}, h);
    } else if more != {} {
      var g :| g in more;
      SumOverRemove(more, g, h);
      SumOverMonotone({}, more - {g}, h);
    }
  }

  lemma {:induction false} SumOverAtMost(gs: set<Gateway>, h: Hash, h': Hash)
    requires forall g :: g in gs ==> Max(0, Field(h, g)) <= Max(0, Field(h', g))
    ensures SumOver(gs, h) <= SumOver(gs, h')
  {
    if gs != {} {
      var g :| g in gs;
      SumOverRemove(gs, g, h);
      SumOverRemove(gs, g, h');
      SumOverAtMost(gs - {g}, h, h');
    }
  }

  /** Gateways without a positive field do not matter. */
  lemma {:induction false} SumOverDrop(gs: set<Gateway>, fewer: set<Gateway>, h: Hash)
    requires fewer <= gs
    requires forall g :: g in gs && g !in fewer ==> Field(h, g) <= 0
    ensures SumOver(gs, h) == SumOver(fewer, h)
    decreases gs
  {
    if gs != fewer {
      var g :| g in gs && g !in fewer;
      SumOverRemove(gs, g, h);
      SumOverDrop(gs - {g}, fewer, h);
    }
  }

  /** The sum of the fields of live gateways. */
  ghost function LiveSum(h: Hash, live: set<Gateway>): int {
    SumOver(h.Keys * live, h)
  }

  /** What one field adds to the live sum: its value if its gateway is live and the value is
      positive, and nothing otherwise. */
  lemma LiveSumByField(h: Hash, g: Gateway, v: int, live: set<Gateway>)
    requires g !in h
    ensures LiveSum(map[], live) == 0
    ensures LiveSum(h[g := v], live) == LiveSum(h, live) + if g in live && v > 0 then v else 0
  {
    var h' := h[g := v];
    SumOverSame(h.Keys * live, h, h');
    if g in live {
      SumOverRemove(h'.Keys * live, g, h');
      assert h'.Keys * live - {g} == h.Keys * live;
    } else {
      assert h'.Keys * live == h.Keys * live;
    }
    var none: Hash := map[];
    assert none.Keys * live == {};
  }

  /** `sumLiveFields`: the live sum, and the fields that were left out. */
  method SumLiveFields(fields: Hash, live: set<Gateway>) returns (total: int, excluded: seq<Gateway>)
    ensures total == LiveSum(fields, live)
    ensures forall g :: g in excluded <==> g in fields && g !in live
    ensures forall i, j :: 0 <= i < j < |excluded| ==> excluded[i] != excluded[j]
  {
    total, excluded := 0, [];
    var rest := fields.Keys;
    while rest != {}
      invariant rest <= fields.Keys
      invariant total + SumOver(rest * live, fields) == LiveSum(fields, live)
      invariant forall g :: g in excluded <==> g in fields && g !in live && g !in rest
      invariant forall i, j :: 0 <= i < j < |excluded| ==> excluded[i] != excluded[j]
      decreases rest
    {
      var g :| g in rest;
      if g !in live {
        excluded := excluded + [g];
        assert (rest - {g}) * live == rest * live;
      } else {
        var n := fields[g];
        if n < 0 {
          n := 0;
        }
        total := total + n;
        SumOverRemove(rest * live, g, fields);
        assert (rest - {g}) * live == rest * live - {g};
      }
      rest := rest - {g};
    }
    assert {} * live == {};
  }

  // ------------------------------------------------------------------------
  // The admit script
  // ------------------------------------------------------------------------

  /** What the admit script holds against the limit: the live fields of the others, and for
      the caller itself the larger of its field and its local count. */
  ghost function AdmitTotal(h: Hash, live: set<Gateway>, self: Gateway, local: int): int {
    SumOver(h.Keys * live - {self}, h) + Max(0, Max(Field(h, self), local))
  }

  /** That is the live sum a reader would see if the caller were live and its field were
      raised to its local count. */
  lemma AdmitTotalIsLiveSum(h: Hash, live: set<Gateway>, self: Gateway, local: int)
    ensures AdmitTotal(h, live, self, local) == LiveSum(h[self := Max(Field(h, self), local)], live + {self})
  {
    var h', others := h[self := Max(Field(h, self), local)], h.Keys * live - {self};
    SumOverRemove(h'.Keys * (live + {self}), self, h');
    assert h'.Keys * (live + {self}) - {self} == others;
    SumOverSame(others, h, h');
  }

  /** The hash after the admit script. */
  ghost function Admitted(h: Hash, live: set<Gateway>, self: Gateway, limit: int, local: int): (r: (bool, Hash)) {
    if AdmitTotal(h, live, self, local) < limit then (true, h[self := Field(h, self) + 1]) else (false, h)
  }

  /** The admit script, field by field. */
  method AdmitScript(h: Hash, live: set<Gateway>, self: Gateway, limit: int, local: int)
    returns (ok: bool, sum: int, h': Hash)
    ensures sum == LiveSum(h[self := Max(Field(h, self), local)], live + {self})
    ensures ok <==> sum < limit
    ensures h' == if ok then h[self := Field(h, self) + 1] else h
    ensures (ok, h') == Admitted(h, live, self, limit, local)
  {
    AdmitTotalIsLiveSum(h, live, self, local);
    var liveSet := live + {self};
    var selfSeen := false;
    sum := 0;
    var rest := h.Keys;
    while rest != {}
      invariant rest <= h.Keys
      invariant selfSeen <==> self in h && self !in rest
      invariant sum + SumOver(rest * live - {self}, h)
             == SumOver(h.Keys * live - {self}, h) + if selfSeen then Max(0, Max(Field(h, self), local)) else 0
      decreases rest
    {
      var f :| f in rest;
      if f in liveSet {
        var v := h[f];
        if f == self {
          selfSeen := true;
          if local > v {
            v := local;
          }
          assert (rest - {f}) * live - {self} == rest * live - {self};
        } else {
          SumOverRemove(rest * live - {self}, f, h);
          assert (rest - {f}) * live - {self} == rest * live - {self} - {f};
        }
        if v > 0 {
          sum := sum + v;
        }
      } else {
        assert (rest - {f}) * live - {self} == rest * live - {self};
      }
      rest := rest - {f};
    }
    assert {} * live - {self} == {};
    if !selfSeen && local > 0 {
      sum := sum + local;
    }
    if sum >= limit {
      return false, sum, h;
    }
    return true, sum, h[self := Field(h, self) + 1];
  }
}

/** The cross-gateway counting protocol of one pod, as a state machine.

  Gateways start requests, write +1 and -1 to their own field asynchronously, or get the
  +1 from the admit script; the writes of different requests land in any order.
  */
module RequestProtocol {
  import opened RequestHash

  datatype Increment = InFlight | Landed | Failed

  /** One request of one gateway.  `admitted`: its +1 came from the admit script.
      `done`: it completed, or its admission was released.  `decremented`: its -1 landed. */
  datatype Request = Request(gw: Gateway, admitted: bool, incr: Increment, done: bool, decremented: bool)

  datatype State = State(hash: Hash, requests: seq<Request>)

  const Init := State(map[], [])

  datatype Step =
    | Start(g: Gateway)          // a request that bypasses admission; its +1 is sent
    | IncrLands(i: nat)          // the +1 of request i reaches Redis
    | IncrFails(i: nat)          // the +1 of request i is known not to have run
    | Admit(g: Gateway, live: set<Gateway>, limit: int, local: int)
    | Finish(i: nat)             // request i completes, or is released
    | DecrLands(i: nat)          // the -1 of request i reaches Redis

  /** Whether request i may send its -1: it is done and its +1 is known to have landed. */
  predicate MayDecrement(r: Request) {
    r.done && r.incr == Landed && !r.decremented
  }

  /** One step; a step that is not enabled changes nothing. */
  ghost function Next(s: State, step: Step): State {
    match step
    case Start(g) => s.(requests := s.requests + [Request(g, false, InFlight, false, false)])
    case IncrLands(i) =>
      if i < |s.requests| && s.requests[i].incr == InFlight
      then State(IncrDecr(s.hash, s.requests[i].gw, 1).0, s.requests[i := s.requests[i].(incr := Landed)])
      else s
    case IncrFails(i) =>
      if i < |s.requests| && s.requests[i].incr == InFlight
      then s.(requests := s.requests[i := s.requests[i].(incr := Failed)])
      else s
    case Admit(g, live, limit, local) =>
      var r := Admitted(s.hash, live, g, limit, local);
      if r.0 then State(r.1, s.requests + [Request(g, true, Landed, false, false)]) else s
    case Finish(i) =>
      if i < |s.requests| then s.(requests := s.requests[i := s.requests[i].(done := true)]) else s
    case DecrLands(i) =>
      if i < |s.requests| && MayDecrement(s.requests[i])
      then State(IncrDecr(s.hash, s.requests[i].gw, -1).0, s.requests[i := s.requests[i].(decremented := true)])
      else s
  }

  ghost function Run(steps: seq<Step>): State {
    if steps == [] then Init else Next(Run(steps[..|steps| - 1]), steps[|steps| - 1])
  }

  // ------------------------------------------------------------------------
  // Counting requests
  // ------------------------------------------------------------------------

  /** Which requests a count is about. */
  datatype Kind = OfGateway(g: Gateway) | OfAnyone | OfAdmitted

  predicate Counts(r: Request, kind: Kind) {
    && r.incr == Landed && !r.decremented
    && match kind
       case OfGateway(g) => r.gw == g
       case OfAnyone => true
       case OfAdmitted => r.admitted
  }

  /** The requests whose +1 landed and whose -1 has not. */
  ghost function Outstanding(requests: seq<Request>, kind: Kind): nat {
    if requests == [] then 0
    else
      var last := |requests| - 1;
      Outstanding(requests[..last], kind) + if Counts(requests[last], kind) then 1 else 0
  }

  /** That is their number. */
  lemma {:induction false} OutstandingIsCount(requests: seq<Request>, kind: Kind)
    ensures Outstanding(requests, kind) == |set i | 0 <= i < |requests| && Counts(requests[i], kind)|
  {
    hide Counts;
    if requests != [] {
      var last := |requests| - 1;
      OutstandingIsCount(requests[..last], kind);
      var before := set i | 0 <= i < last && Counts(requests[..last][i], kind);
      assert (set i | 0 <= i < |requests| && Counts(requests[i], kind))
          == before + if Counts(requests[last], kind) then {last} else {};
    }
  }

  lemma OutstandingAppend(requests: seq<Request>, r: Request, kind: Kind)
    ensures Outstanding(requests + [r], kind) == Outstanding(requests, kind) + if Counts(r, kind) then 1 else 0
  {
    assert (requests + [r])[..|requests|] == requests;
  }

  lemma {:induction false} OutstandingUpdate(requests: seq<Request>, i: nat, r: Request, kind: Kind)
    requires i < |requests|
    ensures Outstanding(requests[i := r], kind) + (if Counts(requests[i], kind) then 1 else 0)
         == Outstanding(requests, kind) + if Counts(r, kind) then 1 else 0
  {
    var last := |requests| - 1;
    if i == last {
      assert requests[i := r][..last] == requests[..last];
    } else {
      assert requests[i := r][..last] == requests[..last][i := r];
      OutstandingUpdate(requests[..last], i, r, kind);
    }
  }

  /** If nothing counts, nothing is outstanding. */
  lemma {:induction false} NothingOutstanding(requests: seq<Request>, kind: Kind)
    requires forall i :: 0 <= i < |requests| ==> !Counts(requests[i], kind)
    ensures Outstanding(requests, kind) == 0
  {
    if requests != [] {
      NothingOutstanding(requests[..|requests| - 1], kind);
    }
  }

  lemma {:induction false} KindsNest(requests: seq<Request>)
    ensures Outstanding(requests, OfAdmitted) <= Outstanding(requests, OfAnyone)
    ensures (forall i :: 0 <= i < |requests| ==> requests[i].admitted) ==>
              Outstanding(requests, OfAdmitted) == Outstanding(requests, OfAnyone)
  {
    if requests != [] {
      KindsNest(requests[..|requests| - 1]);
    }
  }

  // ------------------------------------------------------------------------
  // Paired writes
  // ------------------------------------------------------------------------

  /** Every gateway's field is the number of its requests whose +1 landed and -1 has not. */
  ghost predicate Paired(s: State) {
    && (forall g :: Field(s.hash, g) == Outstanding(s.requests, OfGateway(g)))
    && (forall i :: 0 <= i < |s.requests| && s.requests[i].decremented ==> s.requests[i].incr == Landed)
  }

  lemma NextKeepsPaired(s: State, step: Step)
    requires Paired(s)
    ensures Paired(Next(s, step))
  {
    forall g
      ensures Field(Next(s, step).hash, g) == Outstanding(Next(s, step).requests, OfGateway(g))
    {
      NextKeepsField(s, step, g);
    }
    hide Outstanding, Field, Admitted, IncrDecr;
  }

  lemma NextKeepsField(s: State, step: Step, g: Gateway)
    requires Paired(s)
    ensures Field(Next(s, step).hash, g) == Outstanding(Next(s, step).requests, OfGateway(g))
  {
    hide Outstanding, AdmitTotal;
    var s', kind := Next(s, step), OfGateway(g);
    match step
    case Start(f) => OutstandingAppend(s.requests, Request(f, false, InFlight, false, false), kind);
    case Admit(f, live, limit, local) => OutstandingAppend(s.requests, Request(f, true, Landed, false, false), kind);
    case IncrLands(i) =>
      if s' != s { OutstandingUpdate(s.requests, i, s'.requests[i], kind); }
    case IncrFails(i) =>
      if s' != s { OutstandingUpdate(s.requests, i, s'.requests[i], kind); }
    case Finish(i) =>
      if i < |s.requests| { OutstandingUpdate(s.requests, i, s'.requests[i], kind); }
    case DecrLands(i) =>
      if i < |s.requests| && MayDecrement(s.requests[i]) {
        OutstandingUpdate(s.requests, i, s'.requests[i], kind);
        DecrementIsExact(s, i);
      }
  }

  /** Neither the missing-hash guard nor the zero clamp ever fires: a -1 that is sent always
      finds its +1. */
  lemma DecrementIsExact(s: State, i: nat)
    requires Paired(s) && i < |s.requests| && MayDecrement(s.requests[i])
    ensures var g := s.requests[i].gw;
            && g in s.hash && s.hash[g] >= 1
            && IncrDecr(s.hash, g, -1) == (s.hash[g := s.hash[g] - 1], s.hash[g] - 1)
  {
    var g := s.requests[i].gw;
    if Outstanding(s.requests, OfGateway(g)) == 0 {
      OutstandingUpdate(s.requests, i, s.requests[i].(decremented := true), OfGateway(g));
    }
  }

  /** In every run, at every point, each field counts its gateway's outstanding requests. */
  lemma {:induction false} RunsArePaired(steps: seq<Step>)
    ensures Paired(Run(steps))
  {
    if steps == [] {
      assert forall g :: Outstanding([], OfGateway(g)) == 0;
    } else {
      RunsArePaired(steps[..|steps| - 1]);
      NextKeepsPaired(Run(steps[..|steps| - 1]), steps[|steps| - 1]);
    }
  }

  /** Once every +1 has landed or failed and every landed one has had its -1 land, every
      field is back at zero. */
  lemma QuietRunsEndAtZero(steps: seq<Step>, g: Gateway)
    requires forall i :: 0 <= i < |Run(steps).requests| ==>
               var r := Run(steps).requests[i]; r.incr == Failed || (r.incr == Landed && r.decremented)
    ensures Field(Run(steps).hash, g) == 0
  {
    RunsArePaired(steps);
    NothingOutstanding(Run(steps).requests, OfGateway(g));
  }

  /** One request that bypasses admission, from start to end, in any run: it raises its
      gateway's field by one and lowers it again, and touches no other field. */
  lemma PlainRequest(steps: seq<Step>, g: Gateway)
    ensures var s, i := Run(steps), |Run(steps).requests|;
      var landed := Next(Next(s, Start(g)), IncrLands(i));
      var done := Next(Next(landed, Finish(i)), DecrLands(i));
      && landed.hash == s.hash[g := Field(s.hash, g) + 1]
      && done.hash == s.hash[g := Field(s.hash, g)]
      && done.requests == s.requests + [Request(g, false, Landed, true, true)]
  {
    RunsArePaired(steps);
    var s, i := Run(steps), |Run(steps).requests|;
    hide Run, Outstanding;
    var landed := Next(Next(s, Start(g)), IncrLands(i));
    assert landed == State(s.hash[g := Field(s.hash, g) + 1], s.requests + [Request(g, false, Landed, false, false)]);
    assert Next(landed, Finish(i)) == landed.(requests := s.requests + [Request(g, false, Landed, true, false)]);
  }

  // ------------------------------------------------------------------------
  // The hard cap
  // ------------------------------------------------------------------------

  /** Only gateways in `members` take part, all of them are live whenever the admit script
      runs, and no admission uses a limit above `cap`.  The local counts passed in, and the
      order of the steps, are arbitrary. */
  ghost predicate CapApplies(steps: seq<Step>, members: set<Gateway>, cap: int) {
    forall n :: 0 <= n < |steps| ==>
      match steps[n]
      case Start(g) => g in members
      case Admit(g, live, limit, local) => g in members && members <= live && limit <= cap
      case _ => true
  }

  /** Summed over all gateways that take part, the fields count all outstanding requests. */
  lemma {:induction false} OutstandingByGateway(requests: seq<Request>, members: set<Gateway>, h: Hash)
    requires forall g :: Field(h, g) == Outstanding(requests, OfGateway(g))
    requires forall i :: 0 <= i < |requests| ==> requests[i].gw in members
    ensures SumOver(members, h) == Outstanding(requests, OfAnyone)
  {
    if requests == [] {
      SumOverDrop(members, {}, h);
    } else {
      var last := requests[|requests| - 1];
      var init := requests[..|requests| - 1];
      assert requests == init + [last];
      forall kind ensures Outstanding(requests, kind) == Outstanding(init, kind) + if Counts(last, kind) then 1 else 0 {
        OutstandingAppend(init, last, kind);
      }
      if Counts(last, OfAnyone) {
        var h' := h[last.gw := Field(h, last.gw) - 1];
        OutstandingByGateway(init, members, h');
        SumOverRemove(members, last.gw, h);
        SumOverRemove(members, last.gw, h');
        SumOverSame(members - {last.gw}, h, h');
      } else {
        OutstandingByGateway(init, members, h);
      }
    }
  }

  ghost predicate Capped(s: State, members: set<Gateway>, cap: int) {
    && Paired(s)
    && (forall i :: 0 <= i < |s.requests| ==> s.requests[i].gw in members)
    && (forall i :: 0 <= i < |s.requests| && s.requests[i].admitted ==> s.requests[i].incr == Landed)
    && s.hash.Keys <= members
    && Outstanding(s.requests, OfAdmitted) <= Max(0, cap)
  }

  lemma NextKeepsCapped(s: State, step: Step, members: set<Gateway>, cap: int)
    requires Capped(s, members, cap) && CapApplies([step], members, cap)
    ensures Capped(Next(s, step), members, cap)
  {
    assert [step][0] == step;
    NextKeepsPaired(s, step);
    NextKeepsMembers(s, step, members);
    NextKeepsAdmitted(s, step, members, cap);
    hide Outstanding, Next, Paired;
  }

  lemma NextKeepsMembers(s: State, step: Step, members: set<Gateway>)
    requires step.Start? || step.Admit? ==> step.g in members
    requires forall i :: 0 <= i < |s.requests| ==> s.requests[i].gw in members
    requires forall i :: 0 <= i < |s.requests| && s.requests[i].admitted ==> s.requests[i].incr == Landed
    requires s.hash.Keys <= members
    ensures var s' := Next(s, step);
      && (forall i :: 0 <= i < |s'.requests| ==> s'.requests[i].gw in members)
      && (forall i :: 0 <= i < |s'.requests| && s'.requests[i].admitted ==> s'.requests[i].incr == Landed)
      && s'.hash.Keys <= members
  {
    hide AdmitTotal;
  }

  lemma NextKeepsAdmitted(s: State, step: Step, members: set<Gateway>, cap: int)
    requires Capped(s, members, cap)
    requires step.Admit? ==> step.g in members && members <= step.live && step.limit <= cap
    ensures Outstanding(Next(s, step).requests, OfAdmitted) <= Max(0, cap)
  {
    hide Outstanding, AdmitTotal, IncrDecr;
    var s' := Next(s, step);
    match step
    case Start(f) => OutstandingAppend(s.requests, Request(f, false, InFlight, false, false), OfAdmitted);
    case Admit(f, live, limit, local) =>
      OutstandingAppend(s.requests, Request(f, true, Landed, false, false), OfAdmitted);
      AdmitTotalIsExact(s, live, f, local, members);
      KindsNest(s.requests);
    case IncrLands(i) =>
      if s' != s { OutstandingUpdate(s.requests, i, s'.requests[i], OfAdmitted); }
    case IncrFails(i) =>
      if s' != s { OutstandingUpdate(s.requests, i, s'.requests[i], OfAdmitted); }
    case Finish(i) =>
      if i < |s.requests| { OutstandingUpdate(s.requests, i, s'.requests[i], OfAdmitted); }
    case DecrLands(i) =>
      if i < |s.requests| && MayDecrement(s.requests[i]) {
        OutstandingUpdate(s.requests, i, s'.requests[i], OfAdmitted);
      }
  }

  /** What the admit script compares with the limit is exactly what is outstanding, plus what
      the caller's local count is ahead of its field. */
  lemma AdmitTotalIsExact(s: State, live: set<Gateway>, self: Gateway, local: int, members: set<Gateway>)
    requires Paired(s) && s.hash.Keys <= members <= live && self in members
    requires forall i :: 0 <= i < |s.requests| ==> s.requests[i].gw in members
    ensures AdmitTotal(s.hash, live, self, local)
         == Outstanding(s.requests, OfAnyone) + Max(0, local - Field(s.hash, self))
  {
    OutstandingByGateway(s.requests, members, s.hash);
    SumOverRemove(members, self, s.hash);
    var others := s.hash.Keys * live - {self};
    SumOverDrop(members - {self}, others, s.hash);
  }

  lemma {:induction false} RunsAreCapped(steps: seq<Step>, members: set<Gateway>, cap: int)
    requires CapApplies(steps, members, cap)
    ensures Capped(Run(steps), members, cap)
  {
    if steps == [] {
      RunsArePaired([]);
    } else {
      var init, last := steps[..|steps| - 1], steps[|steps| - 1];
      RunsAreCapped(init, members, cap);
      NextKeepsCapped(Run(init), last, members, cap);
    }
  }

  /** The hard cap.  However the gateways interleave and whatever local counts they pass, the
      admitted requests that still hold their place never exceed the limit, even next to
      requests that bypass admission.  If nothing bypasses admission, neither does the
      live sum every reader sees. */
  lemma HardCap(steps: seq<Step>, members: set<Gateway>, cap: int)
    requires CapApplies(steps, members, cap)
    ensures Outstanding(Run(steps).requests, OfAdmitted) <= Max(0, cap)
    ensures (forall n :: 0 <= n < |steps| ==> !steps[n].Start?) ==>
              LiveSum(Run(steps).hash, members) <= Max(0, cap)
  {
    RunsAreCapped(steps, members, cap);
    var s := Run(steps);
    if forall n :: 0 <= n < |steps| ==> !steps[n].Start? {
      AllAdmitted(steps);
      KindsNest(s.requests);
      OutstandingByGateway(s.requests, members, s.hash);
      SumOverMonotone(s.hash.Keys * members, members, s.hash);
    }
  }

  /** In such a run the live sum is what is outstanding, no more and no less. */
  lemma LiveSumIsOutstanding(steps: seq<Step>, members: set<Gateway>, cap: int, live: set<Gateway>)
    requires CapApplies(steps, members, cap) && members <= live
    ensures LiveSum(Run(steps).hash, live) == Outstanding(Run(steps).requests, OfAnyone)
  {
    RunsAreCapped(steps, members, cap);
    var s := Run(steps);
    OutstandingByGateway(s.requests, members, s.hash);
    assert s.hash.Keys * live == s.hash.Keys;
    SumOverDrop(members, s.hash.Keys, s.hash);
  }

  /** The other half of the cap: in such a run an admission succeeds exactly if what is
      outstanding, plus what the caller's local count is ahead of its field, is below the
      limit.  It then takes one place, and otherwise changes nothing. */
  lemma AdmissionIsExact(steps: seq<Step>, members: set<Gateway>, cap: int,
                         g: Gateway, live: set<Gateway>, limit: int, local: int)
    requires CapApplies(steps, members, cap) && g in members && members <= live
    ensures var s := Run(steps);
      var ahead := local - Outstanding(s.requests, OfGateway(g));
      Next(s, Admit(g, live, limit, local)) ==
        if Outstanding(s.requests, OfAnyone) + (if ahead > 0 then ahead else 0) < limit
        then State(s.hash[g := Outstanding(s.requests, OfGateway(g)) + 1],
                   s.requests + [Request(g, true, Landed, false, false)])
        else s
  {
    RunsAreCapped(steps, members, cap);
    hide Run, Outstanding, AdmitTotal, CapApplies;
    AdmitTotalIsExact(Run(steps), live, g, local, members);
  }

  lemma {:induction false} AllAdmitted(steps: seq<Step>)
    requires forall n :: 0 <= n < |steps| ==> !steps[n].Start?
    ensures forall i :: 0 <= i < |Run(steps).requests| ==> Run(steps).requests[i].admitted
  {
    if steps != [] {
      AllAdmitted(steps[..|steps| - 1]);
    }
  }

  /** The number of requests admitted and not yet done is below that. */
  ghost function AdmittedUnfinished(requests: seq<Request>): nat {
    if requests == [] then 0
    else
      var r := requests[|requests| - 1];
      AdmittedUnfinished(requests[..|requests| - 1]) + if r.admitted && !r.done then 1 else 0
  }

  lemma {:induction false} UnfinishedAreOutstanding(requests: seq<Request>)
    requires forall i :: 0 <= i < |requests| ==>
               (requests[i].admitted ==> requests[i].incr == Landed) && (requests[i].decremented ==> requests[i].done)
    ensures AdmittedUnfinished(requests) <= Outstanding(requests, OfAdmitted)
  {
    if requests != [] {
      UnfinishedAreOutstanding(requests[..|requests| - 1]);
    }
  }

  lemma {:induction false} RequestShape(steps: seq<Step>)
    ensures forall i :: 0 <= i < |Run(steps).requests| ==>
              var r := Run(steps).requests[i];
              (r.admitted ==> r.incr == Landed) && (r.decremented ==> r.done)
  {
    if steps != [] {
      RequestShape(steps[..|steps| - 1]);
    }
  }

  lemma HardCapOnUnfinished(steps: seq<Step>, members: set<Gateway>, cap: int)
    requires CapApplies(steps, members, cap)
    ensures AdmittedUnfinished(Run(steps).requests) <= Max(0, cap)
  {
    HardCap(steps, members, cap);
    RequestShape(steps);
    UnfinishedAreOutstanding(Run(steps).requests);
  }

  // ------------------------------------------------------------------------
  // Why the cap theorem is scoped the way it is
  // ------------------------------------------------------------------------

  /** An admission into a hash that holds nothing of the other live gateways. */
  lemma AdmitAlone(s: State, g: Gateway, live: set<Gateway>, limit: int, local: int)
    requires s.hash.Keys * live - {g} == {} && Max(0, Max(Field(s.hash, g), local)) < limit
    ensures Next(s, Admit(g, live, limit, local))
      == State(s.hash[g := Field(s.hash, g) + 1], s.requests + [Request(g, true, Landed, false, false)])
  {
  }

  /** With a plain +1 still in flight and an admission the local count does not show yet, the
      larger of field and local count covers only one of them: three requests under a
      limit of two. */
  lemma PlainRequestsEscapeTheSum()
    ensures var steps := [Admit(0, {0}, 2, 0), Start(0), Admit(0, {0}, 2, 1), IncrLands(1)];
            CapApplies(steps, {0}, 2) && LiveSum(Run(steps).hash, {0}) == 3
  {
    var a, b, c, d := Admit(0, {0}, 2, 0), Start(0), Admit(0, {0}, 2, 1), IncrLands(1);
    var steps := [a, b, c, d];
    assert CapApplies(steps, {0}, 2);
    hide AdmitTotal, SumOver, Outstanding, CapApplies, Counts;
    assert steps[..3] == [a, b, c] && [a, b, c][..2] == [a, b] && [a, b][..1] == [a] && [a][..0] == [];
    var q, r := Request(0, true, Landed, false, false), Request(0, false, InFlight, false, false);
    AdmitAlone(Init, 0, {0}, 2, 0);
    assert Run([a]) == State(map[0 := 1], [q]);
    assert Run([a, b]) == State(map[0 := 1], [q, r]);
    AdmitAlone(Run([a, b]), 0, {0}, 2, 1);
    assert Run([a, b, c]) == State(map[0 := 2], [q, r, q]);
    assert Run(steps).hash == map[0 := 3];
    OneField(3);
  }

  lemma OneField(n: nat)
    ensures LiveSum(map[0 := n], {0}) == n
  {
    var h: Hash := map[0 := n];
    assert h.Keys * {0} == {0};
    SumOverRemove({0}, 0, h);
    assert {0} - {0} == {};
  }

  /** A gateway that is not live when another one admits is not counted: two requests under
      a limit of one. */
  lemma SilentGatewaysEscapeTheCap()
    ensures var steps := [Admit(0, {0}, 1, 0), Admit(1, {1}, 1, 0)];
            !CapApplies(steps, {0, 1}, 1) && Outstanding(Run(steps).requests, OfAdmitted) == 2
  {
    hide AdmitTotal, SumOver, Outstanding;
    var a, b := Admit(0, {0}, 1, 0), Admit(1, {1}, 1, 0);
    var steps := [a, b];
    assert steps[0] == a && 1 !in a.live;
    assert steps[..1] == [a] && [a][..0] == [];
    var q, r := Request(0, true, Landed, false, false), Request(1, true, Landed, false, false);
    AdmitAlone(Init, 0, {0}, 1, 0);
    assert Run([a]) == State(map[0 := 1], [q]);
    AdmitAlone(Run([a]), 1, {1}, 1, 0);
    assert Run(steps).requests == [q, r];
    TwoOutstanding(q, r);
  }

  lemma TwoOutstanding(q: Request, r: Request)
    requires Counts(q, OfAdmitted) && Counts(r, OfAdmitted)
    ensures Outstanding([q, r], OfAdmitted) == 2
  {
    OutstandingAppend([q], r, OfAdmitted);
    OutstandingAppend([], q, OfAdmitted);
    assert [q] + [r] == [q, r] && [] + [q] == [q];
  }
}
