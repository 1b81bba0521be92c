/** The shared decode ledger.

  Each gateway keeps, per decode pod, the prompt tokens it has charged and not yet released.
  A publisher copies that ledger to the gateway's own field in a Redis hash: it remembers
  which pods are dirty, and a flush reads each one's current ledger, queues a write, and
  sends all writes at once.  Ledger changes, signals and flushes interleave freely.
  */
module DecodeLedger {

  type PodKey = nat

  /** One gateway's ledger for one pod; charge times are on its own clock. */
  datatype Ledger = Ledger(tokens: real, charges: int, sumChargedAt: real)
  {
    predicate IsZero() {
      tokens == 0.0 && charges == 0
    }
  }

  const NO_CHARGES := Ledger(0.0, 0, 0.0)

  /** What a hash field packs: charge times are on the Redis clock. */
  datatype Packed = Packed(tokens: real, charges: int, sumAt: real)

  function Pack(l: Ledger, offset: real): Packed {
    Packed(l.tokens, l.charges, l.sumChargedAt + l.charges as real * offset)
  }

  /** A queued write of one field. */
  datatype Write = HDel | HSet(value: Packed)

  function WriteFor(l: Ledger, offset: real): Write {
    if l.IsZero() then HDel else HSet(Pack(l, offset))
  }

  /** The fields after the writes of `pods` have reached Redis. */
  function Applied(fields: map<PodKey, Packed>, queued: map<PodKey, Write>, pods: set<PodKey>): map<PodKey, Packed> {
    map p | p in fields.Keys + queued.Keys &&
            (if p in pods && p in queued then queued[p].HSet? else p in fields) ::
      if p in pods && p in queued then queued[p].value else fields[p]
  }

  datatype Action =
    | Change(pod: PodKey, ledger: Ledger)
    | Signal(pod: PodKey)
    | Tick
    | Begin
    | Read(pod: PodKey)
    | Succeed
    | Fail(applied: set<PodKey>)

  // ------------------------------------------------------------------------
  // Whole runs, on values
  // ------------------------------------------------------------------------

  /** The publisher's sets, the flush that is running, what it reads and writes, and the
      changes nobody has signalled yet. */
  datatype View = View(
    dirty: set<PodKey>,
    published: set<PodKey>,
    flushing: bool,
    batch: set<PodKey>,
    queued: map<PodKey, Write>,
    ledger: map<PodKey, Ledger>,
    fields: map<PodKey, Packed>,
    unsignalled: set<PodKey>)
  {
    function Current(p: PodKey): Ledger {
      if p in ledger then ledger[p] else NO_CHARGES
    }

    /** The pods a finished flush leaves to be republished: those last written as nonzero. */
    function Republished(): set<PodKey> {
      (published - batch) + set p | p in queued && p in batch && queued[p].HSet?
    }

    predicate Enabled(a: Action) {
      match a
      case Begin => !flushing
      case Read(p) => flushing && p in batch
      case Succeed => flushing && queued.Keys == batch
      case Fail(_) => flushing && queued.Keys == batch
      case _ => true
    }

    /** One action; an action that is not enabled changes nothing. */
    function After(a: Action, offset: real): View {
      if !Enabled(a) then this
      else match a
        case Change(p, l) => this.(ledger := ledger[p := l], unsignalled := unsignalled + {p})
        case Signal(p) => this.(dirty := dirty + {p}, unsignalled := unsignalled - {p})
        case Tick => this.(dirty := dirty + published)
        case Begin => this.(flushing := true, batch := dirty, dirty := {}, queued := map[])
        case Read(p) => this.(queued := queued[p := WriteFor(Current(p), offset)])
        case Succeed =>
          this.(flushing := false, batch := {}, queued := map[],
                fields := Applied(fields, queued, batch), published := Republished())
        case Fail(applied) =>
          this.(flushing := false, batch := {}, queued := map[],
                fields := Applied(fields, queued, applied), dirty := dirty + batch)
    }
  }

  /** The view after the first `n` actions. */
  ghost function AfterFirst(v: View, actions: seq<Action>, n: nat, offset: real): View
    requires n <= |actions|
  {
    if n == 0 then v else AfterFirst(v, actions, n - 1, offset).After(actions[n - 1], offset)
  }

  /** The ledgers after the first `n` actions: what the changes among them say. */
  ghost function LedgersAfter(ledger: map<PodKey, Ledger>, actions: seq<Action>, n: nat): map<PodKey, Ledger>
    requires n <= |actions|
  {
    if n == 0 then ledger
    else
      var before := LedgersAfter(ledger, actions, n - 1);
      if actions[n - 1].Change? then before[actions[n - 1].pod := actions[n - 1].ledger] else before
  }

  /** The pods among the first `n` actions whose last change no signal has followed. */
  ghost function OpenAfter(open: set<PodKey>, actions: seq<Action>, n: nat): set<PodKey>
    requires n <= |actions|
  {
    if n == 0 then open
    else
      var before := OpenAfter(open, actions, n - 1);
      match actions[n - 1]
      case Change(p, _) => before + {p}
      case Signal(p) => before - {p}
      case _ => before
  }

  /** Flushes and ticks change neither the ledgers nor what has been signalled. */
  lemma {:induction false} LedgersFollowChanges(v: View, actions: seq<Action>, n: nat, offset: real)
    requires n <= |actions|
    ensures AfterFirst(v, actions, n, offset).ledger == LedgersAfter(v.ledger, actions, n)
    ensures AfterFirst(v, actions, n, offset).unsignalled == OpenAfter(v.unsignalled, actions, n)
  {
    if n > 0 {
      LedgersFollowChanges(v, actions, n - 1, offset);
    }
  }

  /** The view after the flush has read the pods of `order`. */
  ghost function AfterReads(v: View, order: seq<PodKey>, offset: real): View {
    if order == [] then v
    else AfterReads(v, order[..|order| - 1], offset).After(Read(order[|order| - 1]), offset)
  }

  lemma {:induction false} ReadsQueueWrites(v: View, order: seq<PodKey>, offset: real)
    requires v.flushing && v.queued == map[] && forall p :: p in order ==> p in v.batch
    ensures AfterReads(v, order, offset) == v.(queued := map p | p in order :: WriteFor(v.Current(p), offset))
  {
    hide WriteFor;
    if order == [] {
      var none: map<PodKey, Write> := map p | p in order :: WriteFor(v.Current(p), offset);
      assert none == map[];
    } else {
      var init, last := order[..|order| - 1], order[|order| - 1];
      assert order == init + [last];
      ReadsQueueWrites(v, init, offset);
      assert (map p | p in order :: WriteFor(v.Current(p), offset))
          == (map p | p in init :: WriteFor(v.Current(p), offset))[last := WriteFor(v.Current(last), offset)];
    }
  }

  lemma FlushWrites(v: View, order: seq<PodKey>, offset: real)
    requires !v.flushing && forall p :: p in order <==> p in v.dirty
    ensures var done := AfterReads(v.After(Begin, offset), order, offset).After(Succeed, offset);
      && !done.flushing && done.dirty == {} && done.ledger == v.ledger
      && done.fields == Applied(v.fields, map p | p in order :: WriteFor(v.Current(p), offset), v.dirty)
  {
    var begun := v.After(Begin, offset);
    ReadsQueueWrites(begun, order, offset);
    var read := AfterReads(begun, order, offset);
    hide AfterReads, Applied, WriteFor;
    assert read.queued == map p | p in order :: WriteFor(v.Current(p), offset);
    assert read.queued.Keys == read.batch;
  }

  /** A flush that reads the dirty pods in any order and succeeds leaves nothing dirty: it has
      written every one of them, deleted those without tokens and charges, and touched no
      other field. */
  lemma FlushPublishes(v: View, order: seq<PodKey>, offset: real, p: PodKey)
    requires !v.flushing && forall q :: q in order <==> q in v.dirty
    ensures var done := AfterReads(v.After(Begin, offset), order, offset).After(Succeed, offset);
      && !done.flushing && done.dirty == {} && done.ledger == v.ledger
      && (p !in v.dirty ==>
            (p in done.fields <==> p in v.fields) && (p in v.fields ==> done.fields[p] == v.fields[p]))
      && (p in v.dirty ==>
            var l := v.Current(p);
            if l.tokens == 0.0 && l.charges == 0 then p !in done.fields
            else p in done.fields &&
                 done.fields[p] == Packed(l.tokens, l.charges, l.sumChargedAt + l.charges as real * offset))
  {
    FlushWrites(v, order, offset);
    hide AfterReads, View.After;
  }

  class Publisher {
    /** The Redis clock minus this gateway's, in seconds. */
    const offset: real
    var dirty: set<PodKey>
    var published: set<PodKey>

    // The flush that is running, if one is: the pods it took, and the writes it has queued.
    var flushing: bool
    var batch: set<PodKey>
    var queued: map<PodKey, Write>

    // What the publisher reads and writes, and the changes nobody has signalled yet.
    var ledger: map<PodKey, Ledger>
    var fields: map<PodKey, Packed>
    ghost var unsignalled: set<PodKey>

    constructor (offset: real)
      ensures Valid() && dirty == {} && unsignalled == {} && !flushing
      ensures ledger == map[] && fields == map[] && this.offset == offset
    {
      this.offset := offset;
      dirty, published := {}, {};
      flushing, batch, queued := false, {}, map[];
      ledger, fields, unsignalled := map[], map[], {};
    }

    function Current(p: PodKey): Ledger
      reads `ledger
    {
      if p in ledger then ledger[p] else NO_CHARGES
    }

    /** The field of `p` holds its current ledger, and is absent if that is zero. */
    ghost predicate UpToDate(p: PodKey)
      reads `ledger, `fields
    {
      && (p in fields <==> !Current(p).IsZero())
      && (p in fields ==> fields[p] == Pack(Current(p), offset))
    }

    ghost function CurrentView(): View
      reads this
    {
      View(dirty, published, flushing, batch, queued, ledger, fields, unsignalled)
    }

    /** No change of `p` is waiting to be noticed. */
    ghost predicate Noticed(p: PodKey)
      reads `dirty, `unsignalled
    {
      p !in dirty && p !in unsignalled
    }

    ghost predicate Valid()
      reads this
    {
      && (!flushing ==> batch == {})
      && queued.Keys <= batch
      && (forall p :: Noticed(p) && p !in batch ==> UpToDate(p) && (p in published <==> p in fields))
      && (forall p :: Noticed(p) && p in queued ==> queued[p] == WriteFor(Current(p), offset))
    }

    /** Once nothing is dirty, unsignalled or in flight, every field is current: absent for a
        pod without tokens and charges, and otherwise the ledger on the Redis clock. */
    lemma QuietIsUpToDate()
      requires Valid() && dirty == {} && unsignalled == {} && !flushing
      ensures forall p :: p in fields <==> p in ledger && !(ledger[p].tokens == 0.0 && ledger[p].charges == 0)
      ensures forall p :: p in fields ==>
        var l := ledger[p];
        fields[p] == Packed(l.tokens, l.charges, l.sumChargedAt + l.charges as real * offset)
      ensures published == fields.Keys
    {
      forall p: PodKey
        ensures UpToDate(p) && (p in published <==> p in fields)
      {
        assert Noticed(p) && p !in batch;
      }
    }

    /** The router changes a pod's ledger; the signal comes later. */
    method ChangeLedger(p: PodKey, l: Ledger)
      requires Valid()
      modifies `ledger, `unsignalled
      ensures Valid() && ledger == old(ledger)[p := l] && unsignalled == old(unsignalled) + {p}
    {
      ledger := ledger[p := l];
      unsignalled := unsignalled + {p};
    }

    method MarkDirty(p: PodKey)
      requires Valid()
      modifies `dirty, `unsignalled
      ensures Valid() && dirty == old(dirty) + {p} && unsignalled == old(unsignalled) - {p}
    {
      dirty := dirty + {p};
      unsignalled := unsignalled - {p};
    }

    method RepublishTick()
      requires Valid()
      modifies `dirty
      ensures Valid() && dirty == old(dirty) + published
    {
      dirty := dirty + published;
    }

    /** The flush takes the dirty pods. */
    method BeginFlush()
      requires Valid() && !flushing
      modifies `dirty, `flushing, `batch, `queued
      ensures Valid() && flushing && batch == old(dirty) && dirty == {} && queued == map[]
    {
      batch, queued, flushing := dirty, map[], true;
      dirty := {};
    }

    /** The flush reads one pod's ledger and queues the write for it. */
    method QueueWrite(p: PodKey)
      requires Valid() && flushing && p in batch
      modifies `queued
      ensures Valid() && queued == old(queued)[p := WriteFor(Current(p), offset)]
    {
      var state := Current(p);
      if state.IsZero() {
        queued := queued[p := HDel];
      } else {
        queued := queued[p := HSet(Pack(state, offset))];
      }
    }

    /** Every write reached Redis: the flush records which pods it wrote as nonzero. */
    method ExecSucceeds()
      requires Valid() && flushing && queued.Keys == batch
      modifies `fields, `published, `flushing, `batch, `queued
      ensures Valid() && !flushing && batch == {} && queued == map[]
      ensures fields == Applied(old(fields), old(queued), old(batch)) && published == old(CurrentView()).Republished()
    {
      ghost var before := published;
      fields := Applied(fields, queued, batch);
      var rest := batch;
      while rest != {}
        modifies `published
        invariant rest <= batch
        invariant forall p :: p in published <==>
          if p in batch && p !in rest then queued[p].HSet? else p in before
      {
        var p :| p in rest;
        if queued[p].HDel? {
          published := published - {p};
        } else {
          published := published + {p};
        }
        rest := rest - {p};
      }
      assert published == old(CurrentView()).Republished();
      flushing, batch, queued := false, {}, map[];
    }

    /** The pipeline failed after Redis may have carried out some of it: the whole batch is
        dirty again. */
    method ExecFails(applied: set<PodKey>)
      requires Valid() && flushing && queued.Keys == batch
      modifies `fields, `dirty, `flushing, `batch, `queued
      ensures Valid() && !flushing && batch == {} && queued == map[] && dirty == old(dirty) + old(batch)
      ensures fields == Applied(old(fields), old(queued), applied)
    {
      fields := Applied(fields, queued, applied);
      dirty := dirty + batch;
      flushing, batch, queued := false, {}, map[];
    }

    /** A flush nothing interrupts, as the source writes it down: afterwards every pod whose
        changes have been signalled is up to date, whatever earlier flushes did. */
    method Flush()
      requires Valid() && !flushing
      modifies `dirty, `fields, `published, `flushing, `batch, `queued
      ensures Valid() && !flushing && dirty == {} && ledger == old(ledger)
      ensures forall p :: p !in unsignalled ==> UpToDate(p)
    {
      if dirty != {} {
        BeginFlush();
        var rest := batch;
        while rest != {}
          invariant Valid() && flushing && rest <= batch && dirty == {}
          invariant queued.Keys == batch - rest
          decreases rest
        {
          var p :| p in rest;
          QueueWrite(p);
          rest := rest - {p};
        }
        ExecSucceeds();
      }
      assert forall p :: p !in unsignalled ==> Noticed(p);
    }

    /** Any interleaving of changes, signals, ticks and the steps of flushes that succeed or
        fail: the publisher goes where the actions say, and whenever nothing is dirty or in
        flight and every change among the actions has been signalled, every field packs the
        ledger those changes left. */
    method Run(actions: seq<Action>)
      requires Valid()
      modifies this
      ensures Valid() && CurrentView() == AfterFirst(old(CurrentView()), actions, |actions|, offset)
      ensures ledger == LedgersAfter(old(ledger), actions, |actions|)
      ensures dirty == {} && !flushing && OpenAfter(old(unsignalled), actions, |actions|) == {} ==>
        && (forall p :: p in fields <==> p in ledger && !(ledger[p].tokens == 0.0 && ledger[p].charges == 0))
        && (forall p :: p in fields ==>
              var l := ledger[p];
              fields[p] == Packed(l.tokens, l.charges, l.sumChargedAt + l.charges as real * offset))
    {
      hide Valid, UpToDate, View.After;
      for i := 0 to |actions|
        invariant Valid() && CurrentView() == AfterFirst(old(CurrentView()), actions, i, offset)
      {
        Act(actions[i]);
      }
      LedgersFollowChanges(old(CurrentView()), actions, |actions|, offset);
      if dirty == {} && !flushing {
        if unsignalled == {} {
          QuietIsUpToDate();
        }
      }
    }

    method Act(a: Action)
      requires Valid()
      modifies this
      ensures Valid() && CurrentView() == old(CurrentView()).After(a, offset)
    {
      hide Valid, UpToDate;
      match a
      case Change(p, l) => ChangeLedger(p, l);
      case Signal(p) => MarkDirty(p);
      case Tick => RepublishTick();
      case Begin =>
        if !flushing { BeginFlush(); }
      case Read(p) =>
        if flushing && p in batch { QueueWrite(p); }
      case Succeed =>
        if flushing && queued.Keys == batch { ExecSucceeds(); }
      case Fail(applied) =>
        if flushing && queued.Keys == batch { ExecFails(applied); }
    }
  }
}

/** What a gateway reads of the others' decode ledgers for one pod. */
module RemoteDecodeLoad {
  import opened Options
  import opened DecodeLedger

  type Gateway = nat

  datatype Field = Garbled | Parsed(value: Packed)

  datatype Load = Load(tokens: real, elapsed: real)

  function NonNegative(r: real): (n: real)
    ensures n >= 0.0 && n >= r && (n == r || n == 0.0)
  {
    if r > 0.0 then r else 0.0
  }

  function Times(a: real, b: real): real {
    a * b
  }

  // ------------------------------------------------------------------------
  // Sums over gateways
  // ------------------------------------------------------------------------

  ghost function Sum(gs: set<Gateway>, f: Gateway -> real): real {
    if gs == {} then 0.0
    else
      var g :| g in gs;
      f(g) + Sum(gs - {g}, f)
  }

  lemma {:induction false} SumRemove(gs: set<Gateway>, g: Gateway, f: Gateway -> real)
    requires g in gs
    ensures Sum(gs, f) == f(g) + Sum(gs - {g}, f)
  {
    var c :| c in gs && Sum(gs, f) == f(c) + Sum(gs - {c}, f);
    if c != g {
      SumRemove(gs - {c}, g, f);
      SumRemove(gs - {g}, c, f);
      assert gs - {c} - {g} == gs - {g} - {c};
    }
  }

  lemma {:induction false} SumSame(gs: set<Gateway>, f: Gateway -> real, f': Gateway -> real)
    requires forall g :: g in gs ==> f(g) == f'(g)
    ensures Sum(gs, f) == Sum(gs, f')
  {
    if gs != {} {
      var g :| g in gs;
      SumRemove(gs, g, f);
      SumRemove(gs, g, f');
      SumSame(gs - {g}, f, f');
    }
  }

  // ------------------------------------------------------------------------
  // The sum a reader takes
  // ------------------------------------------------------------------------

  /** The other live gateways that hold a charge. */
  function Counted(fields: map<Gateway, Field>, live: set<Gateway>, self: Gateway): set<Gateway> {
    set g | g in fields && g != self && g in live && fields[g].Parsed? && fields[g].value.charges > 0
  }

  function ValueOf(fields: map<Gateway, Field>, g: Gateway): Packed {
    if g in fields && fields[g].Parsed? then fields[g].value else Packed(0.0, 0, 0.0)
  }

  function TokensOf(fields: map<Gateway, Field>): Gateway -> real {
    (g: Gateway) => NonNegative(ValueOf(fields, g).tokens)
  }

  function ChargesOf(fields: map<Gateway, Field>): Gateway -> real {
    (g: Gateway) => ValueOf(fields, g).charges as real
  }

  function SumAtOf(fields: map<Gateway, Field>): Gateway -> real {
    (g: Gateway) => ValueOf(fields, g).sumAt
  }

  /** The summed age of one gateway's charges at Redis time `now`. */
  function AgeOf(fields: map<Gateway, Field>, now: real): Gateway -> real {
    (g: Gateway) => Times(ValueOf(fields, g).charges as real, now) - ValueOf(fields, g).sumAt
  }

  lemma TimesDistributes(a: real, b: real, c: real)
    ensures Times(a + b, c) == Times(a, c) + Times(b, c)
  {
  }

  /** Summing counts and times separately gives the summed ages. */
  lemma {:induction false} AgesAddUp(gs: set<Gateway>, fields: map<Gateway, Field>, now: real)
    ensures Times(Sum(gs, ChargesOf(fields)), now) - Sum(gs, SumAtOf(fields)) == Sum(gs, AgeOf(fields, now))
  {
    TimesDistributes(0.0, 0.0, now);
    hide Times;
    if gs != {} {
      var g :| g in gs;
      SumRemove(gs, g, ChargesOf(fields));
      SumRemove(gs, g, SumAtOf(fields));
      SumRemove(gs, g, AgeOf(fields, now));
      AgesAddUp(gs - {g}, fields, now);
      TimesDistributes(ChargesOf(fields)(g), Sum(gs - {g}, ChargesOf(fields)), now);
    }
  }

  /** `sumRemoteDecodeLedger`: the load, and the fields of gateways that are not live. */
  method SumRemoteDecodeLedger(fields: map<Gateway, Field>, live: set<Gateway>, self: Gateway, now: real)
    returns (load: Option<Load>, dead: seq<Gateway>)
    ensures forall g :: g in Counted(fields, live, self) <==>
      g in fields && g != self && g in live && fields[g].Parsed? && fields[g].value.charges > 0
    ensures load.None? <==> Counted(fields, live, self) == {}
    ensures load.Some? ==> load.value.tokens == Sum(Counted(fields, live, self), TokensOf(fields))
    ensures load.Some? ==>
      load.value.elapsed == NonNegative(Sum(Counted(fields, live, self), AgeOf(fields, now)))
    ensures forall g :: g in dead <==> g in fields && g != self && g !in live
  {
    hide Times;
    ghost var counted := Counted(fields, live, self);
    var tokens, n, sumChargedAt, found := 0.0, 0, 0.0, false;
    dead := [];
    var rest := fields.Keys;
    assert rest * counted == counted;
    while rest != {}
      invariant rest <= fields.Keys
      invariant found <==> exists g :: g in counted && g !in rest
      invariant tokens + Sum(rest * counted, TokensOf(fields)) == Sum(counted, TokensOf(fields))
      invariant n as real + Sum(rest * counted, ChargesOf(fields)) == Sum(counted, ChargesOf(fields))
      invariant sumChargedAt + Sum(rest * counted, SumAtOf(fields)) == Sum(counted, SumAtOf(fields))
      invariant forall g :: g in dead <==> g in fields && g != self && g !in live && g !in rest
    {
      var g :| g in rest;
      if g == self {
        assert (rest - {g}) * counted == rest * counted;
      } else if g !in live {
        dead := dead + [g];
        assert (rest - {g}) * counted == rest * counted;
      } else if fields[g].Garbled? || fields[g].value.charges <= 0 {
        assert (rest - {g}) * counted == rest * counted;
      } else {
        found := true;
        tokens := tokens + NonNegative(fields[g].value.tokens);
        n := n + fields[g].value.charges;
        sumChargedAt := sumChargedAt + fields[g].value.sumAt;
        SumRemove(rest * counted, g, TokensOf(fields));
        SumRemove(rest * counted, g, ChargesOf(fields));
        SumRemove(rest * counted, g, SumAtOf(fields));
        assert (rest - {g}) * counted == rest * counted - {g};
      }
      rest := rest - {g};
    }
    assert {} * counted == {};
    if !found {
      return None, dead;
    }
    AgesAddUp(counted, fields, now);
    var elapsed := Times(n as real, now) - sumChargedAt;
    load := Some(Load(tokens, NonNegative(elapsed)));
  }

  // ------------------------------------------------------------------------
  // What the sum means
  // ------------------------------------------------------------------------

  /** One outstanding decode charge, timed on the gateway's own clock. */
  datatype Charge = Charge(tokens: real, at: real)

  /** The ledger that stands for a list of charges. */
  function LedgerOf(charges: seq<Charge>): Ledger {
    if charges == [] then NO_CHARGES
    else
      var c, l := charges[0], LedgerOf(charges[1..]);
      Ledger(c.tokens + l.tokens, 1 + l.charges, c.at + l.sumChargedAt)
  }

  function AgeAt(charges: seq<Charge>, now: real): real {
    if charges == [] then 0.0 else now - charges[0].at + AgeAt(charges[1..], now)
  }

  function TotalTokens(charges: seq<Charge>): real {
    if charges == [] then 0.0 else charges[0].tokens + TotalTokens(charges[1..])
  }

  /** A packed ledger holds the tokens of its charges. */
  lemma {:induction false} PackingKeepsTokens(charges: seq<Charge>, offset: real)
    ensures Pack(LedgerOf(charges), offset).tokens == TotalTokens(charges)
    ensures (forall i :: 0 <= i < |charges| ==> charges[i].tokens >= 0.0) ==> TotalTokens(charges) >= 0.0
  {
    if charges != [] {
      PackingKeepsTokens(charges[1..], offset);
    }
  }

  /** If every counted field was packed by its gateway from its charges, and no charge is
      negative, the token sum is that of all the charges. */
  lemma RemoteTokensAreTrueTokens(fields: map<Gateway, Field>, gs: set<Gateway>,
                                  charges: Gateway -> seq<Charge>, offset: Gateway -> real)
    requires forall g :: g in gs ==> ValueOf(fields, g) == Pack(LedgerOf(charges(g)), offset(g))
    requires forall g, i :: g in gs && 0 <= i < |charges(g)| ==> charges(g)[i].tokens >= 0.0
    ensures Sum(gs, TokensOf(fields)) == Sum(gs, (g: Gateway) => TotalTokens(charges(g)))
  {
    hide Pack, LedgerOf, TotalTokens;
    forall g | g in gs
      ensures TokensOf(fields)(g) == TotalTokens(charges(g))
    {
      PackingKeepsTokens(charges(g), offset(g));
    }
    SumSame(gs, TokensOf(fields), (g: Gateway) => TotalTokens(charges(g)));
  }

  /** A packed ledger has, on the Redis clock, the age its charges have on their own. */
  lemma {:induction false} PackingKeepsAge(charges: seq<Charge>, offset: real, now: real)
    ensures var p := Pack(LedgerOf(charges), offset);
      p.charges == |charges| && Times(p.charges as real, now) - p.sumAt == AgeAt(charges, now - offset)
  {
    if charges != [] {
      PackingKeepsAge(charges[1..], offset, now);
      var l := LedgerOf(charges[1..]);
      assert (1 + l.charges) as real * now == now + l.charges as real * now;
      assert (1 + l.charges) as real * offset == offset + l.charges as real * offset;
    }
  }

  /** If every counted field was packed by its gateway from its charges, the elapsed time is the
      sum over all charges of their ages, each on its own gateway's clock. */
  lemma RemoteAgesAreTrueAges(fields: map<Gateway, Field>, gs: set<Gateway>,
                              charges: Gateway -> seq<Charge>, offset: Gateway -> real, now: real)
    requires forall g :: g in gs ==> ValueOf(fields, g) == Pack(LedgerOf(charges(g)), offset(g))
    ensures Sum(gs, AgeOf(fields, now)) == Sum(gs, (g: Gateway) => AgeAt(charges(g), now - offset(g)))
  {
    hide Times, Pack, LedgerOf, AgeAt;
    forall g | g in gs
      ensures AgeOf(fields, now)(g) == AgeAt(charges(g), now - offset(g))
    {
      PackingKeepsAge(charges(g), offset(g), now);
    }
    SumSame(gs, AgeOf(fields, now), (g: Gateway) => AgeAt(charges(g), now - offset(g)));
  }
}
