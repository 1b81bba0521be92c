/** Storing and taking the per-attempt statistics records.

  A routing attempt stores its record under its own key and, if vacant, under an alias
  shared by all attempts of the same request ID.  A completion that knows the attempt
  takes the record by the attempt's key, one that does not takes it by the alias.

  Calls that know the attempt go through its gate: a flag lets one call add and one call
  complete, and a lock keeps every adding call inside until the record is stored.  Every
  operation on the shared map, the flag and the lock is one atomic step; the operations of
  different goroutines interleave freely.
  */
module StatsRecords {
  import opened Options

  type Context = nat     // a routing context, by pointer identity; reused after an attempt ends
  type RequestId = nat   // model name and request ID
  type RecordId = nat    // a record, by the attempt that owns it

  datatype Key = AttemptKey(ctx: Context, id: RequestId) | AliasKey(id: RequestId)

  /** How far an attempt has come in storing its record. */
  datatype Storing = NotStored | PrimaryStored | Stored

  /** How far a completion has come: it was let through, found a record, deleted the other key,
      tried to take. */
  datatype Taking =
    | Idle
    | Claimed
    | Found(rec: RecordId)
    | Unlinked(rec: RecordId)
    | Finished(result: Option<RecordId>)

  /** Whether the attempt's statistics were added, were completed, or, because it ended before
      it was routed, never will be. */
  datatype Flag = Initial | Added | Done | Retired

  /** The lock around adding.  `winner`: the holder won the flag and stores the record.
      `routed`: the holder found the attempt routed. */
  datatype Lock = Free | Held(winner: bool, routed: bool)

  /** `waited`: some call that found the attempt routed has left the lock again. */
  datatype Gate = Gate(routed: bool, flag: Flag, lock: Lock, waited: bool)

  /** One attempt, its gate, and the completion the gate let through.  `early`: that completion
      looked the record up before the attempt had stored it. */
  datatype Attempt = Attempt(ctx: Context, id: RequestId, gate: Gate, storing: Storing, taking: Taking, early: bool)

  /** One completion that only knows the request ID. */
  datatype Anonymous = Anonymous(id: RequestId, taking: Taking)

  datatype Taker = ByAttempt(a: nat) | ByAnonymous(n: nat)

  /** `takenBy`: the records whose consumed flag is set, and who set it. */
  datatype State = State(
    table: map<Key, RecordId>,
    attempts: seq<Attempt>,
    anonymous: seq<Anonymous>,
    takenBy: map<RecordId, Taker>)

  const Init := State(map[], [], [], map[])

  datatype GateCall =
    | Route
    | Retire      // the attempt ends before its statistics were added
    | EnterAdd    // an adding call takes the lock and tries the flag
    | LeaveAdd    // it gives the lock back and returns
    | Claim       // a completing call tries the flag

  datatype Step =
    | Begin(ctx: Context, id: RequestId)
    | AtGate(a: nat, call: GateCall)
    | StorePrimary(a: nat)
    | StoreAlias(a: nat)
    | CompleteAttempt(a: nat)      // the next map operation of the completion that was let through
    | BeginAnonymous(id: RequestId)
    | CompleteAnonymous(n: nat)    // the next atomic operation of an anonymous completion

  /** An attempt is over once it has stored its record and its completion has returned, or it
      has retired; only then may its context be reused. */
  predicate Over(a: Attempt) {
    a.gate.flag == Retired || (a.storing == Stored && a.taking.Finished?)
  }

  function PrimaryKey(a: Attempt): Key {
    AttemptKey(a.ctx, a.id)
  }

  /** `CompareAndDelete`: removes the key only if it still holds the record. */
  function CompareAndDelete(table: map<Key, RecordId>, key: Key, rec: RecordId): map<Key, RecordId> {
    if key in table && table[key] == rec then table - {key} else table
  }

  /** The consumed flag is set only once. */
  function Take(takenBy: map<RecordId, Taker>, rec: RecordId, taker: Taker): (map<RecordId, Taker>, Option<RecordId>) {
    if rec in takenBy then (takenBy, None) else (takenBy[rec := taker], Some(rec))
  }

  /** `WithStatsUpdate`, `CanAddStats` and `CanDoneStats`; a step that is not enabled changes
      nothing. */
  function GateStep(a: Attempt, call: GateCall): Attempt {
    var g := a.gate;
    match call
    case Route => a.(gate := g.(routed := true))
    case Retire => if g.flag == Initial && g.lock == Free then a.(gate := g.(flag := Retired)) else a
    case EnterAdd =>
      if g.lock != Free || g.flag == Retired then a
      else if g.routed && g.flag == Initial then a.(gate := g.(flag := Added, lock := Held(true, true)))
      else a.(gate := g.(lock := Held(false, g.routed)))
    case LeaveAdd =>
      if g.lock == Free || (g.lock.winner && a.storing != Stored) then a
      else a.(gate := g.(lock := Free, waited := g.waited || g.lock.routed))
    case Claim =>
      if g.flag == Added && a.taking == Idle then a.(gate := g.(flag := Done), taking := Claimed) else a
  }

  /** Whether the holder of the lock is the one to store. */
  predicate MayStore(a: Attempt) {
    a.gate.lock.Held? && a.gate.lock.winner
  }

  ghost function Next(s: State, step: Step): State {
    match step
    case Begin(ctx, id) =>
      if forall a :: 0 <= a < |s.attempts| && s.attempts[a].ctx == ctx ==> Over(s.attempts[a])
      then s.(attempts := s.attempts + [Attempt(ctx, id, Gate(false, Initial, Free, false), NotStored, Idle, false)])
      else s
    case StorePrimary(a) =>
      if a < |s.attempts| && MayStore(s.attempts[a]) && s.attempts[a].storing == NotStored
      then s.(table := s.table[PrimaryKey(s.attempts[a]) := a],
              attempts := s.attempts[a := s.attempts[a].(storing := PrimaryStored)])
      else s
    case StoreAlias(a) =>
      if a < |s.attempts| && s.attempts[a].storing == PrimaryStored
      then var alias := AliasKey(s.attempts[a].id);
           s.(table := if alias in s.table then s.table else s.table[alias := a],
              attempts := s.attempts[a := s.attempts[a].(storing := Stored)])
      else s
    case CompleteAttempt(a) =>
      if a < |s.attempts| then AttemptStep(s, a, s.attempts[a]) else s
    case BeginAnonymous(id) => s.(anonymous := s.anonymous + [Anonymous(id, Idle)])
    case CompleteAnonymous(n) =>
      if n < |s.anonymous| then AnonymousStep(s, n, s.anonymous[n]) else s
    case AtGate(a, call) =>
      if a < |s.attempts| then s.(attempts := s.attempts[a := GateStep(s.attempts[a], call)]) else s
  }

  /** `takePodStats` with a context, one map operation at a time. */
  ghost function AttemptStep(s: State, i: nat, a: Attempt): State
    requires i < |s.attempts| && s.attempts[i] == a
  {
    match a.taking
    case Idle => s
    case Claimed =>
      var key := PrimaryKey(a);
      var marked := a.(early := a.storing == NotStored);
      if key in s.table
      then s.(table := s.table - {key}, attempts := s.attempts[i := marked.(taking := Found(s.table[key]))])
      else s.(attempts := s.attempts[i := marked.(taking := Finished(None))])
    case Found(rec) =>
      s.(table := CompareAndDelete(s.table, AliasKey(a.id), rec),
         attempts := s.attempts[i := a.(taking := Unlinked(rec))])
    case Unlinked(rec) =>
      var (takenBy, result) := Take(s.takenBy, rec, ByAttempt(i));
      s.(takenBy := takenBy, attempts := s.attempts[i := a.(taking := Finished(result))])
    case Finished(_) => s
  }

  /** `takePodStats` without a context. */
  ghost function AnonymousStep(s: State, n: nat, c: Anonymous): State
    requires n < |s.anonymous| && s.anonymous[n] == c
  {
    match c.taking
    case Claimed => s
    case Idle =>
      var key := AliasKey(c.id);
      if key in s.table
      then s.(table := s.table - {key}, anonymous := s.anonymous[n := c.(taking := Found(s.table[key]))])
      else s.(anonymous := s.anonymous[n := c.(taking := Finished(None))])
    case Found(rec) =>
      if rec < |s.attempts|
      then s.(table := CompareAndDelete(s.table, PrimaryKey(s.attempts[rec]), rec),
              anonymous := s.anonymous[n := c.(taking := Unlinked(rec))])
      else s
    case Unlinked(rec) =>
      var (takenBy, result) := Take(s.takenBy, rec, ByAnonymous(n));
      s.(takenBy := takenBy, anonymous := s.anonymous[n := c.(taking := Finished(result))])
    case Finished(_) => s
  }

  ghost function Run(steps: seq<Step>): State {
    if steps == [] then Init else Next(Run(steps[..|steps| - 1]), steps[|steps| - 1])
  }

  // ------------------------------------------------------------------------
  // Taken once
  // ------------------------------------------------------------------------

  /** The completion `t` returned record `rec`. */
  ghost predicate Returned(s: State, t: Taker, rec: RecordId) {
    match t
    case ByAttempt(a) => a < |s.attempts| && s.attempts[a].taking == Finished(Some(rec))
    case ByAnonymous(n) => n < |s.anonymous| && s.anonymous[n].taking == Finished(Some(rec))
  }

  ghost predicate TakersOk(s: State) {
    && (forall t, rec :: Returned(s, t, rec) ==> rec in s.takenBy && s.takenBy[rec] == t)
    && (forall rec :: rec in s.takenBy ==> Returned(s, s.takenBy[rec], rec))
  }

  /** A completion reaching its end records itself if and only if it got the record. */
  lemma TakingKeepsTakers(s: State, s': State, t: Taker, rec: RecordId)
    requires TakersOk(s)
    requires forall r :: !Returned(s, t, r)
    requires forall u, r :: u != t ==> (Returned(s', u, r) <==> Returned(s, u, r))
    requires s'.takenBy == Take(s.takenBy, rec, t).0
    requires forall r: RecordId :: Returned(s', t, r) <==> Take(s.takenBy, rec, t).1 == Some(r)
    ensures TakersOk(s')
  {
  }

  lemma AttemptStepKeepsTakers(s: State, i: nat)
    requires TakersOk(s) && i < |s.attempts|
    ensures TakersOk(AttemptStep(s, i, s.attempts[i]))
  {
    var a, s' := s.attempts[i], AttemptStep(s, i, s.attempts[i]);
    if a.taking.Unlinked? {
      TakingKeepsTakers(s, s', ByAttempt(i), a.taking.rec);
    } else {
      assert forall t, r :: Returned(s', t, r) <==> Returned(s, t, r);
    }
  }

  lemma AnonymousStepKeepsTakers(s: State, n: nat)
    requires TakersOk(s) && n < |s.anonymous|
    ensures TakersOk(AnonymousStep(s, n, s.anonymous[n]))
  {
    var c, s' := s.anonymous[n], AnonymousStep(s, n, s.anonymous[n]);
    if c.taking.Unlinked? {
      TakingKeepsTakers(s, s', ByAnonymous(n), c.taking.rec);
    } else {
      assert forall t, r :: Returned(s', t, r) <==> Returned(s, t, r);
    }
  }

  lemma NextKeepsTakers(s: State, step: Step)
    requires TakersOk(s)
    ensures TakersOk(Next(s, step))
  {
    hide AttemptStep, AnonymousStep;
    match step
    case CompleteAttempt(a) => if a < |s.attempts| { AttemptStepKeepsTakers(s, a); }
    case CompleteAnonymous(n) => if n < |s.anonymous| { AnonymousStepKeepsTakers(s, n); }
    case _ => SameReturns(s, step);
  }

  lemma SameReturns(s: State, step: Step)
    requires !step.CompleteAttempt? && !step.CompleteAnonymous?
    ensures Next(s, step).takenBy == s.takenBy
    ensures forall t, r :: Returned(Next(s, step), t, r) <==> Returned(s, t, r)
  {
  }

  lemma {:induction false} RunsKeepTakers(steps: seq<Step>)
    ensures TakersOk(Run(steps))
  {
    if steps != [] {
      RunsKeepTakers(steps[..|steps| - 1]);
      NextKeepsTakers(Run(steps[..|steps| - 1]), steps[|steps| - 1]);
    }
  }

  /** No record is ever returned by two completions, whoever they are. */
  lemma NoRecordIsTakenTwice(steps: seq<Step>, t: Taker, u: Taker, rec: RecordId)
    requires Returned(Run(steps), t, rec) && Returned(Run(steps), u, rec)
    ensures t == u
  {
    RunsKeepTakers(steps);
  }

  // ------------------------------------------------------------------------
  // Taken by its own attempt, or on its way
  // ------------------------------------------------------------------------

  /** The record has been taken, or an anonymous completion is about to take it. */
  ghost predicate Settled(s: State, rec: RecordId) {
    rec in s.takenBy || exists n :: 0 <= n < |s.anonymous| && s.anonymous[n].taking == Unlinked(rec)
  }

  /** The gate: nothing is stored or completed before the flag was won; once it was, the record
      is stored or its winner still holds the lock; and a call that found the attempt routed
      leaves only after the record was stored. */
  predicate GateOk(a: Attempt) {
    var g := a.gate;
    && (g.flag == Initial || g.flag == Retired ==> a.storing == NotStored && a.taking == Idle && !MayStore(a))
    && (g.flag == Added ==> a.taking == Idle)
    && (g.flag == Added || g.flag == Done ==> a.storing == Stored || MayStore(a))
    && (g.waited || (g.lock.Held? && !g.lock.winner && g.lock.routed) ==> a.storing == Stored)
  }

  ghost predicate GatesOk(s: State) {
    forall i :: 0 <= i < |s.attempts| ==> GateOk(s.attempts[i])
  }

  lemma GateStepKeepsGate(a: Attempt, call: GateCall)
    requires GateOk(a)
    ensures GateOk(GateStep(a, call))
  {
  }

  lemma NextKeepsGate(s: State, step: Step, i: nat)
    requires i < |s.attempts| && GateOk(s.attempts[i])
    ensures i < |Next(s, step).attempts| && GateOk(Next(s, step).attempts[i])
  {
    if step.AtGate? {
      GateStepKeepsGate(s.attempts[i], step.call);
    }
    hide GateStep, AnonymousStep;
  }

  lemma NextKeepsGates(s: State, step: Step)
    requires GatesOk(s)
    ensures GatesOk(Next(s, step))
  {
    var s' := Next(s, step);
    assert forall i :: |s.attempts| <= i < |s'.attempts| ==> GateOk(s'.attempts[i]);
    hide Next, GateOk;
    forall i | 0 <= i < |s'.attempts|
      ensures GateOk(s'.attempts[i])
    {
      if i < |s.attempts| {
        NextKeepsGate(s, step, i);
      }
    }
  }

  /** Contexts are not shared by attempts that are not over. */
  ghost predicate ContextsOk(s: State) {
    forall a, b :: 0 <= a < b < |s.attempts| && s.attempts[a].ctx == s.attempts[b].ctx ==> Over(s.attempts[a])
  }

  ghost predicate TableOk(s: State) {
    && (forall key :: key in s.table && key.AttemptKey? ==>
          s.table[key] < |s.attempts| && key == PrimaryKey(s.attempts[s.table[key]]))
    && (forall key :: key in s.table ==>
          s.table[key] < |s.attempts| && s.attempts[s.table[key]].storing != NotStored)
    && (forall n :: 0 <= n < |s.anonymous| && (s.anonymous[n].taking.Found? || s.anonymous[n].taking.Unlinked?) ==>
          s.anonymous[n].taking.rec < |s.attempts|)
  }

  /** While the completion of attempt `i` has not looked, its record is in the table or settled. */
  ghost predicate Waiting(s: State, i: nat)
    requires i < |s.attempts|
  {
    var a := s.attempts[i];
    && !a.early
    && (a.storing != NotStored && PrimaryKey(a) in s.table ==> s.table[PrimaryKey(a)] == i)
    && (a.storing != NotStored && PrimaryKey(a) !in s.table ==> Settled(s, i))
  }

  /** A completion that did not look too early holds its own record, and has left it settled
      when it is finished. */
  ghost predicate AttemptOk(s: State, i: nat)
    requires i < |s.attempts|
  {
    var a := s.attempts[i];
    match a.taking
    case Idle => Waiting(s, i)
    case Claimed => Waiting(s, i)
    case Found(rec) => (a.early <==> rec != i) && (a.early || a.storing != NotStored)
    case Unlinked(rec) => (a.early <==> rec != i) && (a.early || a.storing != NotStored)
    case Finished(result) =>
      && (result.Some? ==> (a.early <==> result.value != i))
      && (a.early || Settled(s, i))
  }

  ghost predicate Owned(s: State) {
    && ContextsOk(s) && TableOk(s) && GatesOk(s)
    && (forall i :: 0 <= i < |s.attempts| ==> AttemptOk(s, i))
  }

  /** Once settled, always settled. */
  lemma SettledStays(s: State, step: Step, rec: RecordId)
    requires Settled(s, rec)
    ensures Settled(Next(s, step), rec)
  {
    var s' := Next(s, step);
    if rec !in s.takenBy {
      var n :| 0 <= n < |s.anonymous| && s.anonymous[n].taking == Unlinked(rec);
      if step != CompleteAnonymous(n) {
        assert s'.anonymous[n].taking == Unlinked(rec);
      }
    }
  }

  /** The gate leaves the record alone: a completion may be let through, nothing more. */
  lemma GateStepEffect(a: Attempt, call: GateCall)
    ensures var a' := GateStep(a, call);
      && a'.ctx == a.ctx && a'.id == a.id && a'.storing == a.storing && a'.early == a.early
      && (a'.taking == a.taking || (a.taking == Idle && a'.taking == Claimed)) && (Over(a) ==> Over(a'))
  {
  }

  /** `s'` has the attempts of `s`, further on but with the same keys. */
  ghost predicate Further(s: State, s': State) {
    && |s'.attempts| >= |s.attempts|
    && forall i :: 0 <= i < |s.attempts| ==>
         && s'.attempts[i].ctx == s.attempts[i].ctx && s'.attempts[i].id == s.attempts[i].id
         && (s.attempts[i].storing != NotStored ==> s'.attempts[i].storing != NotStored)
         && (Over(s.attempts[i]) ==> Over(s'.attempts[i]))
  }

  lemma FurtherKeepsContexts(s: State, s': State)
    requires ContextsOk(s) && Further(s, s') && |s'.attempts| == |s.attempts|
    ensures ContextsOk(s')
  {
  }

  lemma FurtherKeepsTable(s: State, s': State)
    requires TableOk(s) && Further(s, s')
    requires forall key :: key in s'.table ==> key in s.table && s'.table[key] == s.table[key]
    requires forall n :: 0 <= n < |s'.anonymous| ==>
      var t := s'.anonymous[n].taking; t.Found? || t.Unlinked? ==> t.rec < |s.attempts|
    ensures TableOk(s')
  {
  }

  lemma NextIsFurther(s: State, step: Step)
    requires GatesOk(s)
    ensures Further(s, Next(s, step)) && (!step.Begin? ==> |Next(s, step).attempts| == |s.attempts|)
  {
    var s' := Next(s, step);
    forall i | 0 <= i < |s.attempts|
      ensures s'.attempts[i].ctx == s.attempts[i].ctx && s'.attempts[i].id == s.attempts[i].id
      ensures s.attempts[i].storing != NotStored ==> s'.attempts[i].storing != NotStored
      ensures Over(s.attempts[i]) ==> Over(s'.attempts[i])
    {
      assert GateOk(s.attempts[i]);
      if step.AtGate? { GateStepEffect(s.attempts[i], step.call); }
      hide GateStep;
    }
  }

  predicate Quiet(step: Step) {
    !step.CompleteAttempt? && !step.CompleteAnonymous? && !step.StorePrimary?
  }

  /** Steps that leave the record of `i` where it is. */
  lemma QuietStepKeepsOne(s: State, step: Step, i: nat)
    requires Owned(s) && i < |s.attempts| && Quiet(step)
    ensures AttemptOk(Next(s, step), i)
  {
    assert AttemptOk(s, i) && GateOk(s.attempts[i]);
    if step.AtGate? { GateStepEffect(s.attempts[i], step.call); }
    hide GateStep, TableOk, ContextsOk;
    if Settled(s, i) { SettledStays(s, step, i); }
  }

  lemma QuietStepKeepsTable(s: State, step: Step)
    requires Owned(s) && Quiet(step)
    ensures ContextsOk(Next(s, step)) && TableOk(Next(s, step))
  {
    hide AttemptOk, GateStep;
    match step
    case Begin(ctx, id) => BeginKeepsTable(s, ctx, id);
    case StoreAlias(a) => StoreAliasKeepsTable(s, a);
    case _ =>
      NextIsFurther(s, step);
      hide GatesOk;
      FurtherKeepsContexts(s, Next(s, step));
      FurtherKeepsTable(s, Next(s, step));
  }

  lemma BeginKeepsTable(s: State, ctx: Context, id: RequestId)
    requires ContextsOk(s) && TableOk(s)
    ensures ContextsOk(Next(s, Begin(ctx, id))) && TableOk(Next(s, Begin(ctx, id)))
  {
  }

  lemma StoreAliasKeepsTable(s: State, j: nat)
    requires ContextsOk(s) && TableOk(s)
    ensures ContextsOk(Next(s, StoreAlias(j))) && TableOk(Next(s, StoreAlias(j)))
  {
  }

  lemma QuietStepKeepsOwned(s: State, step: Step)
    requires Owned(s) && Quiet(step)
    ensures Owned(Next(s, step))
  {
    var s' := Next(s, step);
    QuietStepKeepsTable(s, step);
    NextKeepsGates(s, step);
    assert forall i :: |s.attempts| <= i < |s'.attempts| ==> AttemptOk(s', i);
    hide AttemptOk, ContextsOk, TableOk, GatesOk, Next;
    forall i | 0 <= i < |s'.attempts| ensures AttemptOk(s', i) {
      if i < |s.attempts| { QuietStepKeepsOne(s, step, i); }
    }
  }

  lemma StorePrimaryKeepsTable(s: State, j: nat)
    requires Owned(s)
    ensures ContextsOk(Next(s, StorePrimary(j))) && TableOk(Next(s, StorePrimary(j)))
  {
    hide AttemptOk;
  }

  lemma StorePrimaryKeepsOne(s: State, j: nat, i: nat)
    requires Owned(s) && i < |s.attempts|
    ensures AttemptOk(Next(s, StorePrimary(j)), i)
  {
    assert AttemptOk(s, i) && GateOk(s.attempts[i]);
    if j < |s.attempts| {
      assert GateOk(s.attempts[j]) && AttemptOk(s, j);
    }
    if Settled(s, i) { SettledStays(s, StorePrimary(j), i); }
  }

  lemma StorePrimaryKeepsOwned(s: State, j: nat)
    requires Owned(s)
    ensures Owned(Next(s, StorePrimary(j)))
  {
    var s' := Next(s, StorePrimary(j));
    StorePrimaryKeepsTable(s, j);
    NextKeepsGates(s, StorePrimary(j));
    assert |s'.attempts| == |s.attempts|;
    hide AttemptOk, ContextsOk, TableOk, GatesOk, Next;
    forall i | 0 <= i < |s'.attempts| ensures AttemptOk(s', i) {
      StorePrimaryKeepsOne(s, j, i);
    }
  }

  lemma AttemptStepKeepsTable(s: State, j: nat)
    requires Owned(s) && j < |s.attempts|
    ensures ContextsOk(AttemptStep(s, j, s.attempts[j])) && TableOk(AttemptStep(s, j, s.attempts[j]))
  {
    var s' := AttemptStep(s, j, s.attempts[j]);
    NextIsFurther(s, CompleteAttempt(j));
    AttemptStepShrinksTable(s, j);
    AnonymousRecords(s);
    assert Next(s, CompleteAttempt(j)) == s';
    hide AttemptOk, GatesOk, Further, ContextsOk, TableOk, AttemptStep, Next;
    FurtherKeepsContexts(s, s');
    FurtherKeepsTable(s, s');
  }

  lemma AttemptStepShrinksTable(s: State, j: nat)
    requires j < |s.attempts|
    ensures var s' := AttemptStep(s, j, s.attempts[j]);
      s'.anonymous == s.anonymous && forall key :: key in s'.table ==> key in s.table && s'.table[key] == s.table[key]
  {
  }

  lemma AnonymousRecords(s: State)
    requires TableOk(s)
    ensures forall n :: 0 <= n < |s.anonymous| && (s.anonymous[n].taking.Found? || s.anonymous[n].taking.Unlinked?) ==>
      s.anonymous[n].taking.rec < |s.attempts|
  {
  }

  lemma AttemptStepKeepsOwn(s: State, j: nat)
    requires Owned(s) && j < |s.attempts|
    ensures AttemptOk(AttemptStep(s, j, s.attempts[j]), j)
  {
    assert AttemptOk(s, j);
    if Settled(s, j) { SettledStays(s, CompleteAttempt(j), j); }
  }

  lemma AttemptStepKeepsOther(s: State, j: nat, i: nat)
    requires Owned(s) && j < |s.attempts| && i < |s.attempts| && i != j
    ensures AttemptOk(AttemptStep(s, j, s.attempts[j]), i)
  {
    assert AttemptOk(s, i);
    if Settled(s, i) { SettledStays(s, CompleteAttempt(j), i); }
    assert GateOk(s.attempts[i]) && GateOk(s.attempts[j]);
  }

  lemma AttemptStepKeepsOwned(s: State, j: nat)
    requires Owned(s) && j < |s.attempts|
    ensures Owned(AttemptStep(s, j, s.attempts[j]))
  {
    var s' := AttemptStep(s, j, s.attempts[j]);
    AttemptStepKeepsTable(s, j);
    NextKeepsGates(s, CompleteAttempt(j));
    assert |s'.attempts| == |s.attempts|;
    hide AttemptStep, AttemptOk, ContextsOk, TableOk, GatesOk;
    forall i | 0 <= i < |s'.attempts| ensures AttemptOk(s', i) {
      if i == j { AttemptStepKeepsOwn(s, j); } else { AttemptStepKeepsOther(s, j, i); }
    }
  }

  lemma AnonymousStepKeepsTable(s: State, n: nat)
    requires Owned(s) && n < |s.anonymous|
    ensures ContextsOk(AnonymousStep(s, n, s.anonymous[n])) && TableOk(AnonymousStep(s, n, s.anonymous[n]))
  {
    hide AttemptOk;
  }

  lemma AnonymousStepKeepsOne(s: State, n: nat, i: nat)
    requires Owned(s) && n < |s.anonymous| && i < |s.attempts|
    ensures AttemptOk(AnonymousStep(s, n, s.anonymous[n]), i)
  {
    var s' := AnonymousStep(s, n, s.anonymous[n]);
    assert AttemptOk(s, i);
    if Settled(s, i) { SettledStays(s, CompleteAnonymous(n), i); }
    if s.anonymous[n].taking == Found(i) {
      assert s'.anonymous[n].taking == Unlinked(i);
    }
  }

  lemma AnonymousStepKeepsOwned(s: State, n: nat)
    requires Owned(s) && n < |s.anonymous|
    ensures Owned(AnonymousStep(s, n, s.anonymous[n]))
  {
    var s' := AnonymousStep(s, n, s.anonymous[n]);
    AnonymousStepKeepsTable(s, n);
    NextKeepsGates(s, CompleteAnonymous(n));
    assert |s'.attempts| == |s.attempts|;
    hide AnonymousStep, AttemptOk, ContextsOk, TableOk, GatesOk;
    forall i | 0 <= i < |s'.attempts| ensures AttemptOk(s', i) {
      AnonymousStepKeepsOne(s, n, i);
    }
  }

  lemma NextKeepsOwned(s: State, step: Step)
    requires Owned(s)
    ensures Owned(Next(s, step))
  {
    hide AttemptStep, AnonymousStep, Owned;
    match step
    case CompleteAttempt(a) => if a < |s.attempts| { AttemptStepKeepsOwned(s, a); }
    case CompleteAnonymous(n) => if n < |s.anonymous| { AnonymousStepKeepsOwned(s, n); }
    case StorePrimary(a) => StorePrimaryKeepsOwned(s, a);
    case _ => QuietStepKeepsOwned(s, step);
  }

  lemma {:induction false} RunsKeepOwned(steps: seq<Step>)
    ensures Owned(Run(steps))
  {
    if steps != [] {
      RunsKeepOwned(steps[..|steps| - 1]);
      NextKeepsOwned(Run(steps[..|steps| - 1]), steps[|steps| - 1]);
    }
  }

  // ------------------------------------------------------------------------
  // Exactly once
  // ------------------------------------------------------------------------

  /** A completion that looked after the record was stored never returns another attempt's
      record. */
  lemma NoForeignRecord(steps: seq<Step>, a: nat, rec: RecordId)
    requires a < |Run(steps).attempts| && !Run(steps).attempts[a].early
    requires Returned(Run(steps), ByAttempt(a), rec)
    ensures rec == a
  {
    RunsKeepOwned(steps);
    assert AttemptOk(Run(steps), a);
  }

  ghost predicate TakenOnce(s: State, rec: RecordId) {
    exists t :: Returned(s, t, rec) && forall u :: Returned(s, u, rec) ==> u == t
  }

  /** When an attempt's completion has returned, having looked after the record was stored, and
      no anonymous completion is about to take that record, it has been taken exactly once. */
  lemma ReleasedExactlyOnce(steps: seq<Step>, a: nat)
    requires a < |Run(steps).attempts|
    requires Run(steps).attempts[a].taking.Finished? && !Run(steps).attempts[a].early
    requires forall n :: 0 <= n < |Run(steps).anonymous| ==> Run(steps).anonymous[n].taking != Unlinked(a)
    ensures TakenOnce(Run(steps), a)
  {
    RunsKeepOwned(steps);
    RunsKeepTakers(steps);
    var s := Run(steps);
    assert AttemptOk(s, a);
    assert Returned(s, s.takenBy[a], a);
  }

  /** Every completing call that is let through comes after an adding call that found the
      attempt routed has returned, as in a caller that adds, then completes. */
  ghost predicate CallersWait(steps: seq<Step>) {
    forall n :: 0 <= n < |steps| && steps[n].AtGate? && steps[n].call == Claim ==>
      var s, a := Run(steps[..n]), steps[n].a;
      a < |s.attempts| && s.attempts[a].gate.flag == Added ==> s.attempts[a].gate.waited
  }

  ghost predicate NoneEarly(s: State) {
    forall i :: 0 <= i < |s.attempts| ==>
      !s.attempts[i].early && (s.attempts[i].taking != Idle ==> s.attempts[i].storing == Stored)
  }

  lemma StepKeepsNoneEarly(s: State, step: Step)
    requires NoneEarly(s) && GatesOk(s)
    requires step.AtGate? && step.call == Claim && step.a < |s.attempts| && s.attempts[step.a].gate.flag == Added ==>
      s.attempts[step.a].gate.waited
    ensures NoneEarly(Next(s, step))
  {
    forall i | 0 <= i < |Next(s, step).attempts|
      ensures var a := Next(s, step).attempts[i]; !a.early && (a.taking != Idle ==> a.storing == Stored)
    {
      if i < |s.attempts| {
        assert GateOk(s.attempts[i]);
      }
      hide AnonymousStep;
    }
  }

  lemma {:induction false} WaitingCallersAreNotEarly(steps: seq<Step>)
    requires CallersWait(steps)
    ensures NoneEarly(Run(steps))
  {
    if steps != [] {
      var init, last := steps[..|steps| - 1], steps[|steps| - 1];
      assert forall n :: 0 <= n < |init| ==> init[n] == steps[n] && init[..n] == steps[..n];
      WaitingCallersAreNotEarly(init);
      RunsKeepOwned(init);
      StepKeepsNoneEarly(Run(init), last);
    }
  }

  /** If callers wait, every attempt whose completion has returned has had its record taken
      exactly once, by that completion or an anonymous one, and by none of another attempt. */
  lemma WaitingCallersReleaseExactlyOnce(steps: seq<Step>, a: nat)
    requires CallersWait(steps) && a < |Run(steps).attempts| && Run(steps).attempts[a].taking.Finished?
    requires forall n :: 0 <= n < |Run(steps).anonymous| ==> Run(steps).anonymous[n].taking != Unlinked(a)
    ensures TakenOnce(Run(steps), a)
    ensures forall b :: Returned(Run(steps), ByAttempt(b), a) ==> b == a
  {
    WaitingCallersAreNotEarly(steps);
    ReleasedExactlyOnce(steps, a);
    forall b | Returned(Run(steps), ByAttempt(b), a)
      ensures b == a
    {
      NoForeignRecord(steps, b, a);
    }
  }

  // ------------------------------------------------------------------------
  // Nothing stays behind
  // ------------------------------------------------------------------------

  /** The alias of `a`'s request ID leads to `a`. */
  ghost predicate Aliased(s: State, a: nat)
    requires a < |s.attempts|
  {
    var key := AliasKey(s.attempts[a].id);
    key in s.table && s.table[key] == a
  }

  ghost predicate Keyed(s: State, a: nat)
    requires a < |s.attempts|
  {
    var key := PrimaryKey(s.attempts[a]);
    key in s.table && s.table[key] == a
  }

  /** Aliases lead to attempts of their own request ID. */
  ghost predicate AliasesOk(s: State) {
    forall key :: key in s.table && key.AliasKey? ==>
      s.table[key] < |s.attempts| && s.attempts[s.table[key]].id == key.id && s.attempts[s.table[key]].storing == Stored
  }

  /** Which keys still lead to `a`: a completion that has found the record has removed its own
      key, one that has gone on has removed the alias too, and so has an anonymous completion
      the other way round; a stored record without its own key has no alias either. */
  ghost predicate Unlinking(s: State, a: nat)
    requires a < |s.attempts|
  {
    var at := s.attempts[a];
    && (at.taking.Found? ==> !Keyed(s, a))
    && (at.taking.Unlinked? || at.taking.Finished? ==> !Keyed(s, a) && !Aliased(s, a))
    && (at.storing == PrimaryStored ==> Keyed(s, a))
    && (at.storing == Stored && !Keyed(s, a) && (at.taking == Idle || at.taking == Claimed) ==> !Aliased(s, a))
  }

  ghost predicate HeldByAnonymous(s: State, n: nat)
    requires n < |s.anonymous|
  {
    var t := s.anonymous[n].taking;
    t.Found? || t.Unlinked? ==>
      t.rec < |s.attempts| && !Aliased(s, t.rec) && s.attempts[t.rec].storing == Stored
  }

  ghost predicate Tidy(s: State) {
    && AliasesOk(s)
    && (forall a :: 0 <= a < |s.attempts| ==> Unlinking(s, a))
    && (forall n :: 0 <= n < |s.anonymous| ==> HeldByAnonymous(s, n))
    && (forall rec :: rec in s.takenBy ==> rec < |s.attempts|)
  }

  /** No two attempts that are not over share a key. */
  lemma KeysAreOwn(s: State, a: nat, b: nat)
    requires ContextsOk(s) && a < |s.attempts| && b < |s.attempts| && a != b
    requires PrimaryKey(s.attempts[a]) == PrimaryKey(s.attempts[b])
    ensures Over(s.attempts[a]) || Over(s.attempts[b])
  {
  }

  lemma NextKeepsAliases(s: State, step: Step)
    requires AliasesOk(s)
    ensures AliasesOk(Next(s, step))
  {
  }

  lemma {:induction false} RunsKeepAliases(steps: seq<Step>)
    ensures AliasesOk(Run(steps))
  {
    if steps != [] {
      RunsKeepAliases(steps[..|steps| - 1]);
      NextKeepsAliases(Run(steps[..|steps| - 1]), steps[|steps| - 1]);
    }
  }

  /** In every run every key leads to an attempt that has stored its record under it: its own
      key, or the alias of its request ID. */
  lemma KeysLeadToTheirOwn(steps: seq<Step>, key: Key)
    requires key in Run(steps).table
    ensures var s := Run(steps);
      && s.table[key] < |s.attempts|
      && var a := s.attempts[s.table[key]];
         a.storing != NotStored && (key == AttemptKey(a.ctx, a.id) || (key == AliasKey(a.id) && a.storing == Stored))
  {
    RunsKeepOwned(steps);
    RunsKeepAliases(steps);
    hide Run;
  }

  lemma StorePrimaryKeepsTidy(s: State, j: nat)
    requires Tidy(s) && Owned(s) && NoneEarly(s)
    ensures Tidy(Next(s, StorePrimary(j)))
  {
    var s' := Next(s, StorePrimary(j));
    forall a | 0 <= a < |s'.attempts|
      ensures Unlinking(s', a)
    {
      assert Unlinking(s, a) && GateOk(s.attempts[a]);
      if s' != s && a != j && PrimaryKey(s.attempts[a]) == PrimaryKey(s.attempts[j]) {
        assert GateOk(s.attempts[j]);
        KeysAreOwn(s, a, j);
      }
      hide Owned, AttemptOk;
    }
    forall n | 0 <= n < |s'.anonymous|
      ensures HeldByAnonymous(s', n)
    {
      assert HeldByAnonymous(s, n);
    }
  }

  lemma StoreAliasKeepsTidy(s: State, j: nat)
    requires Tidy(s) && TableOk(s)
    ensures Tidy(Next(s, StoreAlias(j)))
  {
    var s' := Next(s, StoreAlias(j));
    forall a | 0 <= a < |s'.attempts|
      ensures Unlinking(s', a)
    {
      assert Unlinking(s, a);
    }
    forall n | 0 <= n < |s'.anonymous|
      ensures HeldByAnonymous(s', n)
    {
      assert HeldByAnonymous(s, n);
    }
  }

  lemma OtherQuietKeepsTidy(s: State, step: Step)
    requires Tidy(s) && TableOk(s) && Quiet(step) && !step.StoreAlias?
    ensures Tidy(Next(s, step))
  {
    var s' := Next(s, step);
    assert s'.table == s.table;
    forall a | 0 <= a < |s'.attempts|
      ensures Unlinking(s', a)
    {
      if a < |s.attempts| {
        assert Unlinking(s, a);
        if step.AtGate? { GateStepEffect(s.attempts[a], step.call); }
        hide GateStep;
      }
    }
    forall n | 0 <= n < |s'.anonymous|
      ensures HeldByAnonymous(s', n)
    {
      if n < |s.anonymous| {
        assert HeldByAnonymous(s, n);
      }
    }
  }

  lemma AttemptStepUnlinks(s: State, j: nat, a: nat)
    requires Tidy(s) && Owned(s) && NoneEarly(s) && j < |s.attempts| && a < |s.attempts|
    ensures Unlinking(AttemptStep(s, j, s.attempts[j]), a)
  {
    assert AttemptOk(s, j) && Unlinking(s, j) && Unlinking(s, a);
    hide Owned, GatesOk, ContextsOk, AliasesOk;
  }

  lemma AttemptStepKeepsTidy(s: State, j: nat)
    requires Tidy(s) && Owned(s) && NoneEarly(s) && j < |s.attempts|
    ensures Tidy(AttemptStep(s, j, s.attempts[j]))
  {
    var s' := AttemptStep(s, j, s.attempts[j]);
    assert AttemptOk(s, j);
    hide Unlinking, GatesOk, ContextsOk;
    forall a | 0 <= a < |s'.attempts|
      ensures Unlinking(s', a)
    {
      AttemptStepUnlinks(s, j, a);
    }
    forall n | 0 <= n < |s'.anonymous|
      ensures HeldByAnonymous(s', n)
    {
      assert HeldByAnonymous(s, n);
    }
  }

  lemma AnonymousStepKeepsTidy(s: State, m: nat)
    requires Tidy(s) && TableOk(s) && m < |s.anonymous|
    ensures Tidy(AnonymousStep(s, m, s.anonymous[m]))
  {
    var s' := AnonymousStep(s, m, s.anonymous[m]);
    assert HeldByAnonymous(s, m);
    forall a | 0 <= a < |s'.attempts|
      ensures Unlinking(s', a)
    {
      assert Unlinking(s, a);
    }
    forall n | 0 <= n < |s'.anonymous|
      ensures HeldByAnonymous(s', n)
    {
      assert HeldByAnonymous(s, n);
    }
  }

  lemma NextKeepsTidy(s: State, step: Step)
    requires Tidy(s) && Owned(s) && NoneEarly(s)
    ensures Tidy(Next(s, step))
  {
    hide AttemptStep, AnonymousStep, Tidy, NoneEarly;
    match step
    case CompleteAttempt(a) => if a < |s.attempts| { AttemptStepKeepsTidy(s, a); }
    case CompleteAnonymous(n) => if n < |s.anonymous| { AnonymousStepKeepsTidy(s, n); }
    case StorePrimary(a) => StorePrimaryKeepsTidy(s, a);
    case StoreAlias(a) => StoreAliasKeepsTidy(s, a);
    case _ => OtherQuietKeepsTidy(s, step);
  }

  lemma {:induction false} RunsStayTidy(steps: seq<Step>)
    requires CallersWait(steps)
    ensures Tidy(Run(steps))
  {
    if steps != [] {
      var init := steps[..|steps| - 1];
      assert forall n :: 0 <= n < |init| ==> init[n] == steps[n] && init[..n] == steps[..n];
      RunsStayTidy(init);
      RunsKeepOwned(init);
      WaitingCallersAreNotEarly(init);
      NextKeepsTidy(Run(init), steps[|steps| - 1]);
    }
  }

  /** If callers wait, an attempt whose completion has returned has left nothing in the map:
      neither its own key nor the alias leads to its record any more. */
  lemma NothingStaysBehind(steps: seq<Step>, a: nat, key: Key)
    requires CallersWait(steps) && a < |Run(steps).attempts| && Run(steps).attempts[a].taking.Finished?
    requires key in Run(steps).table
    ensures Run(steps).table[key] != a
  {
    RunsStayTidy(steps);
    RunsKeepOwned(steps);
    assert Unlinking(Run(steps), a);
  }

  // ------------------------------------------------------------------------
  // An ordinary request, and an anonymous completion
  // ------------------------------------------------------------------------

  ghost function Adding(s: State, ctx: Context, id: RequestId): State {
    var a := |s.attempts|;
    var routed := Next(Next(s, Begin(ctx, id)), AtGate(a, Route));
    var stored := Next(Next(Next(routed, AtGate(a, EnterAdd)), StorePrimary(a)), StoreAlias(a));
    Next(stored, AtGate(a, LeaveAdd))
  }

  ghost function Completing(s: State, a: nat): State {
    Next(Next(Next(Next(s, AtGate(a, Claim)), CompleteAttempt(a)), CompleteAttempt(a)), CompleteAttempt(a))
  }

  lemma AddingStores(s: State, ctx: Context, id: RequestId)
    requires forall b :: 0 <= b < |s.attempts| && s.attempts[b].ctx == ctx ==> Over(s.attempts[b])
    ensures var a, table := |s.attempts|, s.table[AttemptKey(ctx, id) := |s.attempts|];
      Adding(s, ctx, id) == s.(
        attempts := s.attempts + [Attempt(ctx, id, Gate(true, Added, Free, true), Stored, Idle, false)],
        table := if AliasKey(id) in s.table then table else table[AliasKey(id) := a])
  {
    var a := |s.attempts|;
    var routed := Next(Next(s, Begin(ctx, id)), AtGate(a, Route));
    assert routed.attempts == s.attempts + [Attempt(ctx, id, Gate(true, Initial, Free, false), NotStored, Idle, false)];
    var entered := Next(routed, AtGate(a, EnterAdd));
    assert entered.attempts ==
      s.attempts + [Attempt(ctx, id, Gate(true, Added, Held(true, true), false), NotStored, Idle, false)];
    var stored := Next(Next(entered, StorePrimary(a)), StoreAlias(a));
    assert stored.attempts ==
      s.attempts + [Attempt(ctx, id, Gate(true, Added, Held(true, true), false), Stored, Idle, false)];
    assert Adding(s, ctx, id).attempts ==
      s.attempts + [Attempt(ctx, id, Gate(true, Added, Free, true), Stored, Idle, false)];
  }

  lemma CompletingTakes(s: State, a: nat)
    requires a < |s.attempts| && a !in s.takenBy && Keyed(s, a)
    requires s.attempts[a].gate.flag == Added && s.attempts[a].storing == Stored && s.attempts[a].taking == Idle
    ensures var done := Completing(s, a);
      && |done.attempts| == |s.attempts| && done.attempts[a].taking == Finished(Some(a))
      && done.takenBy == s.takenBy[a := ByAttempt(a)]
      && done.table == CompareAndDelete(s.table - {PrimaryKey(s.attempts[a])}, AliasKey(s.attempts[a].id), a)
  {
  }

  lemma FreeKey(s: State, ctx: Context, id: RequestId)
    requires Tidy(s) && Owned(s)
    requires forall b :: 0 <= b < |s.attempts| && s.attempts[b].ctx == ctx ==> Over(s.attempts[b])
    ensures AttemptKey(ctx, id) !in s.table
  {
    forall key | key in s.table
      ensures key != AttemptKey(ctx, id)
    {
      assert Unlinking(s, s.table[key]) && GateOk(s.attempts[s.table[key]]);
    }
  }

  lemma OrdinaryFrom(s: State, ctx: Context, id: RequestId)
    requires forall b :: 0 <= b < |s.attempts| && s.attempts[b].ctx == ctx ==> Over(s.attempts[b])
    requires AttemptKey(ctx, id) !in s.table && |s.attempts| !in s.takenBy
    requires forall key :: key in s.table ==> s.table[key] < |s.attempts|
    ensures var a := |s.attempts|;
      var done := Completing(Adding(s, ctx, id), a);
      && a < |done.attempts| && done.attempts[a].taking == Finished(Some(a))
      && done.takenBy == s.takenBy[a := ByAttempt(a)]
      && done.table == s.table
  {
    AddingStores(s, ctx, id);
    hide Adding, Completing;
    var a, added := |s.attempts|, Adding(s, ctx, id);
    CompletingTakes(added, a);
    assert CompareAndDelete(added.table - {AttemptKey(ctx, id)}, AliasKey(id), a) == s.table;
  }

  /** One request from start to end, in any state waiting callers can reach: its completion
      returns its record, and the map is exactly what it was before. */
  lemma OrdinaryRequest(steps: seq<Step>, ctx: Context, id: RequestId)
    requires CallersWait(steps)
    requires forall b :: 0 <= b < |Run(steps).attempts| && Run(steps).attempts[b].ctx == ctx ==>
                           Over(Run(steps).attempts[b])
    ensures var s, a := Run(steps), |Run(steps).attempts|;
      var done := Completing(Adding(s, ctx, id), a);
      && a < |done.attempts| && done.attempts[a].taking == Finished(Some(a))
      && done.takenBy == s.takenBy[a := ByAttempt(a)]
      && done.table == s.table
  {
    RunsStayTidy(steps);
    RunsKeepOwned(steps);
    FreeKey(Run(steps), ctx, id);
    hide Run, Adding, Completing, Over;
    OrdinaryFrom(Run(steps), ctx, id);
  }

  /** An attempt that ends before its statistics were added leaves nothing, and its context is
      free again. */
  lemma UnaddedAttempt(s: State, ctx: Context, id: RequestId)
    requires forall b :: 0 <= b < |s.attempts| && s.attempts[b].ctx == ctx ==> Over(s.attempts[b])
    ensures var ended := Next(Next(s, Begin(ctx, id)), AtGate(|s.attempts|, Retire));
      && ended.table == s.table && ended.takenBy == s.takenBy && |ended.attempts| == |s.attempts| + 1
      && forall b :: 0 <= b < |ended.attempts| && ended.attempts[b].ctx == ctx ==> Over(ended.attempts[b])
  {
    var ended := Next(Next(s, Begin(ctx, id)), AtGate(|s.attempts|, Retire));
    assert ended.attempts ==
      s.attempts + [Attempt(ctx, id, Gate(false, Retired, Free, false), NotStored, Idle, false)];
  }

  /** How far anonymous completion `n` is with record `rec` it has found. */
  ghost predicate Pursues(s: State, n: nat, rec: RecordId) {
    && n < |s.anonymous|
    && match s.anonymous[n].taking
       case Idle => false
       case Claimed => false
       case Found(r) => r == rec
       case Unlinked(r) => r == rec
       case Finished(result) => result == Some(rec) || (result == None && rec in s.takenBy)
  }

  lemma NextKeepsPursuing(s: State, step: Step, n: nat, rec: RecordId)
    requires Pursues(s, n, rec)
    ensures Pursues(Next(s, step), n, rec)
  {
    hide GateStep;
  }

  lemma {:induction false} RunsKeepPursuing(steps: seq<Step>, more: seq<Step>, n: nat, rec: RecordId)
    requires Pursues(Run(steps), n, rec)
    ensures Pursues(Run(steps + more), n, rec)
  {
    if more == [] {
      assert steps + more == steps;
    } else {
      var init, last := more[..|more| - 1], more[|more| - 1];
      RunsKeepPursuing(steps, init, n, rec);
      assert (steps + more)[..|steps + more| - 1] == steps + init;
      NextKeepsPursuing(Run(steps + init), last, n, rec);
    }
  }

  /** An anonymous completion that looks while the alias leads to a record ends up returning
      that record, unless another completion takes it first. */
  lemma AnonymousTakesWhatItFinds(steps: seq<Step>, more: seq<Step>, n: nat, rec: RecordId)
    requires n < |Run(steps).anonymous| && Run(steps).anonymous[n].taking == Idle
    requires AliasKey(Run(steps).anonymous[n].id) in Run(steps).table
    requires Run(steps).table[AliasKey(Run(steps).anonymous[n].id)] == rec
    ensures var s := Run(steps + [CompleteAnonymous(n)] + more);
      && n < |s.anonymous|
      && (s.anonymous[n].taking.Finished? ==>
            Returned(s, ByAnonymous(n), rec) || exists t :: t != ByAnonymous(n) && Returned(s, t, rec))
  {
    var looked := steps + [CompleteAnonymous(n)];
    assert looked[..|looked| - 1] == steps;
    RunsKeepPursuing(looked, more, n, rec);
    RunsKeepTakers(looked + more);
  }

  /** And three steps are enough. */
  lemma AnonymousFinishes(s: State, n: nat, rec: RecordId)
    requires n < |s.anonymous| && s.anonymous[n].taking == Idle && AliasKey(s.anonymous[n].id) in s.table
    requires s.table[AliasKey(s.anonymous[n].id)] == rec && rec < |s.attempts| && rec !in s.takenBy
    ensures var done := Next(Next(Next(s, CompleteAnonymous(n)), CompleteAnonymous(n)), CompleteAnonymous(n));
      Returned(done, ByAnonymous(n), rec) && !Keyed(done, rec) && AliasKey(s.anonymous[n].id) !in done.table
  {
  }

  // ------------------------------------------------------------------------
  // Callers that do not wait
  // ------------------------------------------------------------------------

  /** A completion that looked before the record was stored never gets its own record. */
  lemma EarlyCompletionMisses(steps: seq<Step>, a: nat)
    requires a < |Run(steps).attempts| && Run(steps).attempts[a].early
    ensures !Returned(Run(steps), ByAttempt(a), a)
  {
    RunsKeepOwned(steps);
    assert AttemptOk(Run(steps), a);
  }

  /** Where every completion knows its attempt and no other one is early, a finished attempt's
      record is released exactly if its completion did not look before the store. */
  lemma ReleasedIffNotEarly(steps: seq<Step>, a: nat)
    requires a < |Run(steps).attempts| && Run(steps).attempts[a].taking.Finished?
    requires Run(steps).anonymous == []
    requires forall b :: 0 <= b < |Run(steps).attempts| && b != a ==> !Run(steps).attempts[b].early
    ensures (exists t :: Returned(Run(steps), t, a)) <==> !Run(steps).attempts[a].early
  {
    if Run(steps).attempts[a].early {
      forall t
        ensures !Returned(Run(steps), t, a)
      {
        if t.ByAttempt? && t.a != a && Returned(Run(steps), t, a) {
          NoForeignRecord(steps, t.a, a);
        }
        EarlyCompletionMisses(steps, a);
      }
    } else {
      ReleasedExactlyOnce(steps, a);
    }
  }

  const EARLY_RUN := [
    Begin(0, 0), AtGate(0, Route), AtGate(0, EnterAdd), AtGate(0, Claim), CompleteAttempt(0),
    StorePrimary(0), StoreAlias(0), AtGate(0, LeaveAdd)]

  /** A caller that completes while another one is still adding gets through the gate and
      misses the record: everything has returned, and nothing is taken. */
  lemma EarlyCompletionLeaks()
    ensures var s := Run(EARLY_RUN);
      && |s.attempts| == 1 && Over(s.attempts[0]) && s.attempts[0].early && s.attempts[0].gate.lock == Free
      && s.anonymous == [] && s.takenBy == map[] && AttemptKey(0, 0) in s.table
  {
    EarlyLook();
    var look := EARLY_RUN[..5];
    assert EARLY_RUN[..6][..5] == look && EARLY_RUN[..7][..6] == EARLY_RUN[..6] && EARLY_RUN[..8] == EARLY_RUN;
    var s := Run(look);
    assert Run(EARLY_RUN[..6]) == Next(s, StorePrimary(0));
    assert Run(EARLY_RUN[..7]) == Next(Next(s, StorePrimary(0)), StoreAlias(0));
  }

  lemma EarlyLook()
    ensures Run(EARLY_RUN[..5]) == Init.(attempts :=
      [Attempt(0, 0, Gate(true, Done, Held(true, true), false), NotStored, Finished(None), true)])
  {
    hide AnonymousStep;
    var a, b, c, d, e := Begin(0, 0), AtGate(0, Route), AtGate(0, EnterAdd), AtGate(0, Claim), CompleteAttempt(0);
    assert EARLY_RUN[..5] == [a, b, c, d, e];
    assert [a, b, c, d, e][..4] == [a, b, c, d] && [a, b, c, d][..3] == [a, b, c] && [a, b, c][..2] == [a, b]
        && [a, b][..1] == [a] && [a][..0] == [];
    var gate := Gate(false, Initial, Free, false);
    assert Run([a]) == Init.(attempts := [Attempt(0, 0, gate, NotStored, Idle, false)]);
    assert Run([a, b]) == Init.(attempts := [Attempt(0, 0, gate.(routed := true), NotStored, Idle, false)]);
    assert Run([a, b, c]) ==
      Init.(attempts := [Attempt(0, 0, Gate(true, Added, Held(true, true), false), NotStored, Idle, false)]);
    assert Run([a, b, c, d]) ==
      Init.(attempts := [Attempt(0, 0, Gate(true, Done, Held(true, true), false), NotStored, Claimed, false)]);
  }
}
