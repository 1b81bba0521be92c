/** The two-way index between pods and models that the informers keep.

  Every stored pod lists the models it serves; every stored model lists the pods that serve
  it.  Each handler runs under the store's lock.  Within one the two sides disagree; after
  each one, the model side is again exactly the inverse of the pod side.
  */
module PodModelIndex {
  import opened Options

  type PodKey = nat
  type ModelName = nat

  /** A Kubernetes pod object as an informer delivers it.  `version` tells apart objects of
      the same pod; `claims` maps models bound by runtime claims to their ports. */
  datatype PodObject = PodObject(
    key: PodKey,
    version: int,
    base: Option<ModelName>,
    claims: map<ModelName, int>,
    rayWorker: bool,
    groupWorker: bool)
  {
    predicate HasModel() {
      base.Some? || claims != map[]
    }

    predicate IsWorker() {
      rayWorker || groupWorker
    }

    /** The models the pod asks to be listed under: its base model and every claim with a port. */
    function Served(): set<ModelName> {
      (if base.Some? then {base.value} else {}) + Claimed({})
    }

    function Claimed(but: set<ModelName>): set<ModelName> {
      set m | m in claims && m !in but && claims[m] > 0
    }
  }

  datatype Adapter = Adapter(name: ModelName, instances: seq<PodKey>)

  // --------------------------------------------------------------------------
  // The two sides as values
  // --------------------------------------------------------------------------

  datatype Entry = Entry(pod: PodObject, models: set<ModelName>)

  type Listing = map<PodKey, Entry>
  type Serving = map<ModelName, map<PodKey, PodObject>>

  /** Every model a pod lists lists the pod; every pod a model lists lists the model, and is the
      object stored for it.  Exempt are the models in `rest`, which still list the pod `gone`. */
  ghost predicate Linked(l: Listing, s: Serving, gone: PodKey, rest: set<ModelName>) {
    && (forall k :: k in l ==> l[k].pod.key == k)
    && (forall k, m :: k in l && m in l[k].models ==> m in s && k in s[m])
    && (forall m, k :: m in s && k in s[m] && k in l ==> m in l[k].models && s[m][k] == l[k].pod)
    && (forall m, k :: m in s && k in s[m] && k !in l ==> k == gone && m in rest)
  }

  /** The only models without a pod are in `names`. */
  ghost predicate EmptyOnlyIn(s: Serving, names: set<ModelName>) {
    forall m :: m in s && s[m] == map[] ==> m in names
  }

  /** The serving side is the inverse of the listing side. */
  ghost predicate Inverse(l: Listing, s: Serving) {
    Linked(l, s, 0, {}) && EmptyOnlyIn(s, {})
  }

  /** There is only one: what the pods list determines what the models list. */
  lemma InverseIsUnique(l: Listing, s: Serving, t: Serving)
    requires Inverse(l, s) && Inverse(l, t)
    ensures s == t
  {
    forall m | m in s
      ensures m in t && s[m] == t[m]
    {
      InverseCovers(l, s, t, m);
      InverseCovers(l, t, s, m);
      SamePods(s[m], t[m]);
    }
    forall m | m in t
      ensures m in s
    {
      InverseCovers(l, t, s, m);
    }
  }

  lemma SomePod(pods: map<PodKey, PodObject>) returns (k: PodKey)
    requires pods != map[]
    ensures k in pods
  {
    k :| k in pods.Keys;
  }

  lemma SamePods(a: map<PodKey, PodObject>, b: map<PodKey, PodObject>)
    requires forall k :: k in a ==> k in b && a[k] == b[k]
    requires forall k :: k in b ==> k in a
    ensures a == b
  {
    assert a.Keys == b.Keys;
  }

  lemma InverseCovers(l: Listing, s: Serving, t: Serving, m: ModelName)
    requires Inverse(l, s) && Inverse(l, t) && m in s
    ensures m in t && forall k :: k in s[m] ==> k in t[m] && s[m][k] == t[m][k]
  {
    var k := SomePod(s[m]);
    assert m in l[k].models;
    forall k | k in s[m]
      ensures k in t[m] && s[m][k] == t[m][k]
    {
      assert m in l[k].models;
    }
  }

  // --------------------------------------------------------------------------
  // What each event does to the pod side
  // --------------------------------------------------------------------------

  /** Lists a pod under some models; an entry that exists keeps its object. */
  function Put(l: Listing, pod: PodObject, models: set<ModelName>): Listing {
    l[pod.key := if pod.key in l
                 then Entry(l[pod.key].pod, l[pod.key].models + models)
                 else Entry(pod, models)]
  }

  function Added(l: Listing, pod: PodObject): Listing {
    if pod.HasModel() && !pod.IsWorker() then Put(l, pod, pod.Served()) else l
  }

  /** An update forgets the pod and lists it anew, unless it was and stays a worker, or either
      side is a Ray worker; adapters are not inherited. */
  function Updated(l: Listing, was: PodObject, now: PodObject): Listing {
    if was.IsWorker() && now.IsWorker() then l
    else if was.rayWorker || now.rayWorker then l - {was.key}
    else Added(l - {was.key}, now)
  }

  /** The pods of `keys` that are stored start, or stop, listing a model. */
  function Listed(l: Listing, keys: set<PodKey>, m: ModelName): Listing {
    map k | k in l :: if k in keys then Entry(l[k].pod, l[k].models + {m}) else l[k]
  }

  function Unlisted(l: Listing, keys: set<PodKey>, m: ModelName): Listing {
    map k | k in l :: if k in keys then Entry(l[k].pod, l[k].models - {m}) else l[k]
  }

  datatype Event =
    | AddPod(pod: PodObject)
    | UpdatePod(was: PodObject, now: PodObject)
    | DeletePod(key: PodKey, hasModelInfo: bool)
    | AddAdapter(adapter: Adapter)
    | UpdateAdapter(before: Adapter, after: Adapter)
    | DeleteAdapter(adapter: Adapter)

  function Elements(s: seq<PodKey>): set<PodKey> {
    set k | k in s
  }

  function After(l: Listing, e: Event): Listing {
    match e
    case AddPod(pod) => Added(l, pod)
    case UpdatePod(was, now) => Updated(l, was, now)
    case DeletePod(key, hasModelInfo) => l - {key}
    case AddAdapter(a) => Listed(l, Elements(a.instances), a.name)
    case UpdateAdapter(a, b) =>
      Listed(Unlisted(l, Elements(a.instances), a.name), Elements(b.instances), b.name)
    case DeleteAdapter(a) => Unlisted(l, Elements(a.instances), a.name)
  }

  /** A new pod object: unless it is a worker or names no model, it is listed under its base
      model and under every claim with a port; an entry that exists keeps its object and what
      it lists. */
  lemma AddedPodLists(l: Listing, pod: PodObject, k: PodKey, m: ModelName)
    ensures var after := After(l, AddPod(pod));
      var tracked := (pod.base.Some? || pod.claims != map[]) && !pod.rayWorker && !pod.groupWorker && k == pod.key;
      && (k in after <==> k in l || tracked)
      && (k in after ==> after[k].pod == if k in l then l[k].pod else pod)
      && (k in after ==>
            (m in after[k].models <==>
              || (k in l && m in l[k].models)
              || (tracked && (pod.base == Some(m) || (m in pod.claims && pod.claims[m] > 0)))))
  {
  }

  /** An update: unless the pod was and stays a worker, what was listed for it, adapters
      included, is forgotten, and the new object is listed like a new pod's, if neither object
      is a Ray worker. */
  lemma UpdatedPodLists(l: Listing, was: PodObject, now: PodObject, k: PodKey, m: ModelName)
    ensures var after := After(l, UpdatePod(was, now));
      var ignored := (was.rayWorker || was.groupWorker) && (now.rayWorker || now.groupWorker);
      var kept := k in l && (ignored || k != was.key);
      var tracked := !was.rayWorker && !now.rayWorker && !now.groupWorker
                     && (now.base.Some? || now.claims != map[]) && k == now.key;
      && (k in after <==> kept || tracked)
      && (k in after ==> after[k].pod == if kept then l[k].pod else now)
      && (k in after ==>
            (m in after[k].models <==>
              || (kept && m in l[k].models)
              || (tracked && (now.base == Some(m) || (m in now.claims && now.claims[m] > 0)))))
  {
  }

  /** An adapter update: its old instances stop listing it and its new ones start to; only
      pods that are stored are touched, and only in that one model. */
  lemma UpdatedAdapterLists(l: Listing, a: Adapter, b: Adapter, k: PodKey, m: ModelName)
    ensures var after := After(l, UpdateAdapter(a, b));
      && (k in after <==> k in l)
      && (k in l ==> after[k].pod == l[k].pod)
      && (k in l ==>
            (m in after[k].models <==>
              || (m == b.name && k in b.instances)
              || (m in l[k].models && !(m == a.name && k in a.instances))))
  {
  }

  /** An adapter that appears or goes away is an update from or to no instances; a deleted pod
      is listed nowhere. */
  lemma OtherEventsList(l: Listing, a: Adapter, key: PodKey, hasModelInfo: bool)
    ensures After(l, AddAdapter(a)) == After(l, UpdateAdapter(a.(instances := []), a))
    ensures After(l, DeleteAdapter(a)) == After(l, UpdateAdapter(a, a.(instances := [])))
    ensures After(l, DeletePod(key, hasModelInfo)) == map k | k in l && k != key :: l[k]
  {
    ListNone(l, a.name);
    ListNone(Unlisted(l, Elements(a.instances), a.name), a.name);
  }

  ghost function AfterAll(l: Listing, events: seq<Event>): Listing {
    if events == [] then l else After(AfterAll(l, events[..|events| - 1]), events[|events| - 1])
  }

  // --------------------------------------------------------------------------
  // The two sides step by step
  // --------------------------------------------------------------------------

  function LinkModel(s: Serving, m: ModelName, k: PodKey, pod: PodObject): Serving {
    s[m := (if m in s then s[m] else map[])[k := pod]]
  }

  /** A model that is stored has a list, if only an empty one. */
  function Opened(s: Serving, m: ModelName): Serving {
    if m in s then s else s[m := map[]]
  }

  lemma LinkFresh(s: Serving, m: ModelName, k: PodKey, pod: PodObject)
    ensures LinkModel(Opened(s, m), m, k, pod) == LinkModel(s, m, k, pod)
  {
  }

  function UnlinkModel(s: Serving, m: ModelName, k: PodKey): Serving {
    if m in s then s[m := s[m] - {k}] else s
  }

  function DropIfEmpty(s: Serving, m: ModelName): Serving {
    if m in s && s[m] == map[] then s - {m} else s
  }

  lemma PutMore(l: Listing, pod: PodObject, models: set<ModelName>, m: ModelName)
    ensures Listed(Put(l, pod, models), {pod.key}, m) == Put(l, pod, models + {m})
  {
    if pod.key in l {
      assert l[pod.key].models + models + {m} == l[pod.key].models + (models + {m});
    }
    assert Listed(Put(l, pod, models), {pod.key}, m).Keys == Put(l, pod, models + {m}).Keys;
  }

  lemma PutKeeps(l: Listing, s: Serving, pod: PodObject)
    requires Linked(l, s, 0, {})
    ensures Linked(Put(l, pod, {}), s, 0, {})
  {
  }

  lemma LinkKeeps(l: Listing, s: Serving, k: PodKey, m: ModelName, names: set<ModelName>)
    requires Linked(l, s, 0, {}) && EmptyOnlyIn(s, names) && k in l
    ensures Linked(Listed(l, {k}, m), LinkModel(s, m, k, l[k].pod), 0, {})
    ensures EmptyOnlyIn(LinkModel(s, m, k, l[k].pod), names)
  {
    assert EmptyOnlyIn(LinkModel(s, m, k, l[k].pod), names) by {
      assert k in LinkModel(s, m, k, l[k].pod)[m];
    }
  }

  lemma UnlinkKeeps(l: Listing, s: Serving, k: PodKey, m: ModelName, names: set<ModelName>)
    requires Linked(l, s, 0, {}) && EmptyOnlyIn(s, names)
    ensures Linked(Unlisted(l, {k}, m), UnlinkModel(s, m, k), 0, {})
    ensures EmptyOnlyIn(UnlinkModel(s, m, k), names + {m})
  {
  }

  lemma RemovalLeavesLinks(l: Listing, s: Serving, k: PodKey)
    requires Linked(l, s, 0, {})
    ensures Linked(l - {k}, s, k, if k in l then l[k].models else {})
  {
  }

  lemma NothingStale(l: Listing, s: Serving, k: PodKey)
    requires Linked(l, s, k, {})
    ensures Linked(l, s, 0, {})
  {
  }

  lemma ForgetKeeps(l: Listing, s: Serving, k: PodKey, rest: set<ModelName>, m: ModelName, names: set<ModelName>)
    requires Linked(l, s, k, rest) && EmptyOnlyIn(s, names)
    ensures Linked(l, UnlinkModel(s, m, k), k, rest - {m}) || k in l
    ensures EmptyOnlyIn(UnlinkModel(s, m, k), names + {m})
  {
  }

  lemma DropKeeps(l: Listing, s: Serving, k: PodKey, rest: set<ModelName>, m: ModelName, names: set<ModelName>)
    requires Linked(l, s, k, rest) && EmptyOnlyIn(s, names)
    ensures Linked(l, DropIfEmpty(s, m), k, rest) && EmptyOnlyIn(DropIfEmpty(s, m), names - {m})
  {
  }

  lemma ListNone(l: Listing, m: ModelName)
    ensures Listed(l, Elements([]), m) == l && Unlisted(l, Elements([]), m) == l
  {
  }

  lemma ListMore(l: Listing, keys: seq<PodKey>, k: PodKey, m: ModelName)
    ensures Listed(Listed(l, Elements(keys), m), {k}, m) == Listed(l, Elements(keys + [k]), m)
    ensures Unlisted(Unlisted(l, Elements(keys), m), {k}, m) == Unlisted(l, Elements(keys + [k]), m)
  {
    assert forall j :: j in Elements(keys + [k]) <==> j in Elements(keys) || j == k;
    assert forall j :: j in l ==> l[j].models - {m} - {m} == l[j].models - {m};
    assert forall j :: j in l ==> l[j].models + {m} + {m} == l[j].models + {m};
  }

  // --------------------------------------------------------------------------
  // The store
  // --------------------------------------------------------------------------

  class Pod {
    const pod: PodObject
    var models: set<ModelName>

    constructor (pod: PodObject)
      ensures this.pod == pod && models == {}
    {
      this.pod := pod;
      models := {};
    }
  }

  class Model {
    var pods: map<PodKey, PodObject>
    var pendingRequests: int

    constructor ()
      ensures pods == map[] && pendingRequests == 0
    {
      pods := map[];
      pendingRequests := 0;
    }
  }

  class Index {
    var metaPods: map<PodKey, Pod>
    var metaModels: map<ModelName, Model>
    var bufferModel: Model?

    // The values of the two sides, and every object the store has owned.
    ghost var listing: Listing
    ghost var serving: Serving
    ghost var pods: set<Pod>
    ghost var models: set<Model>
    ghost var names: map<Model, ModelName>

    constructor ()
      ensures Valid() && listing == map[] && metaModels == map[]
    {
      metaPods, metaModels, bufferModel := map[], map[], null;
      listing, serving, pods, models, names := map[], map[], {}, {}, map[];
    }

    ghost predicate PodsOk()
      reads `metaPods, `listing, `pods, pods`models
    {
      && metaPods.Keys == listing.Keys
      && forall k :: k in metaPods ==>
        && metaPods[k] in pods
        && metaPods[k].pod == listing[k].pod && metaPods[k].models == listing[k].models
        && metaPods[k].pod.key == k
    }

    ghost predicate ModelsOk()
      reads `metaModels, `serving, `names, `models, models`pods
    {
      && metaModels.Keys == serving.Keys
      && forall m :: m in metaModels ==>
        && metaModels[m] in models && metaModels[m] in names && names[metaModels[m]] == m
        && metaModels[m].pods == serving[m]
    }

    /** A model kept in reserve has not been published, and nothing has touched it. */
    ghost predicate BufferOk()
      reads `bufferModel, `names, `models, models`pods, models`pendingRequests
    {
      bufferModel != null ==>
        && bufferModel in models && bufferModel !in names
        && bufferModel.pods == map[] && bufferModel.pendingRequests == 0
    }

    /** The heap holds the two sides, whether or not they agree. */
    ghost predicate Shape()
      reads this, pods, models
    {
      PodsOk() && ModelsOk() && BufferOk()
    }

    ghost predicate Valid()
      reads this, pods, models
    {
      Shape() && Inverse(listing, serving)
    }

    /** What `Valid` means for the objects: a pod is listed by a model exactly if it lists the
        model, it is the same object on both sides, and no model is empty. */
    lemma BothSidesAgree(k: PodKey, m: ModelName)
      requires Valid()
      ensures (k in metaPods && m in metaPods[k].models) <==> (m in metaModels && k in metaModels[m].pods)
      ensures m in metaModels && k in metaModels[m].pods ==> metaModels[m].pods[k] == metaPods[k].pod
      ensures m in metaModels ==> metaModels[m].pods != map[]
    {
    }

    /** Models that stay stored stay the same objects. */
    twostate predicate ModelsKept()
      reads `metaModels
    {
      forall m :: m in old(metaModels) && m in metaModels ==> metaModels[m] == old(metaModels[m])
    }

    /** No model is new, and none was replaced. */
    twostate predicate ModelsShrunk()
      reads `metaModels
    {
      forall m :: m in metaModels ==> m in old(metaModels) && metaModels[m] == old(metaModels[m])
    }

    /** No stored model went away or was replaced. */
    twostate predicate ModelsGrown()
      reads `metaModels
    {
      forall m :: m in old(metaModels) ==> m in metaModels && metaModels[m] == old(metaModels[m])
    }

    // ----------------------------------------------------------------------
    // The pieces handlers are made of
    // ----------------------------------------------------------------------

    /** `addPodLocked`, as far as the index goes: an entry that exists stays. */
    method AddPodLocked(pod: PodObject) returns (metaPod: Pod)
      requires Shape()
      modifies `metaPods, `pods, `listing
      ensures Shape() && fresh(pods - old(pods)) && old(pods) <= pods
      ensures Stored(metaPod) && metaPod.pod.key == pod.key && metaPod in pods
      ensures listing == Put(old(listing), pod, {})
    {
      hide ModelsOk, BufferOk;
      if pod.key in metaPods {
        metaPod := metaPods[pod.key];
        assert metaPod.models + {} == metaPod.models;
        assert listing == Put(listing, pod, {});
      } else {
        metaPod := new Pod(pod);
        metaPods := metaPods[pod.key := metaPod];
        pods := pods + {metaPod};
        listing := listing[pod.key := Entry(pod, {})];
      }
    }

    method DeletePodLocked(key: PodKey) returns (metaPod: Pod?)
      requires Shape()
      modifies `metaPods, `listing
      ensures Shape() && listing == old(listing) - {key}
      ensures metaPod == null <==> key !in old(listing)
      ensures metaPod != null ==> metaPod.models == old(listing)[key].models
    {
      hide ModelsOk, BufferOk;
      if key in metaPods {
        metaPod := metaPods[key];
      } else {
        metaPod := null;
      }
      metaPods := metaPods - {key};
      listing := listing - {key};
    }

    /** Makes sure a model is in reserve. */
    method FillBuffer()
      requires Shape()
      modifies `models, `bufferModel
      ensures Shape() && fresh(models - old(models)) && old(models) <= models
      ensures bufferModel != null
    {
      hide PodsOk;
      if bufferModel == null {
        bufferModel := new Model();
        models := models + {bufferModel};
      }
    }

    /** Finds the model's entry, publishing the one in reserve if there is none. */
    method LoadOrStoreModel(name: ModelName) returns (metaModel: Model)
      requires Shape()
      modifies `metaModels, `models, `bufferModel, `names, `serving
      ensures Shape() && fresh(models - old(models)) && old(models) <= models
      ensures name in metaModels && metaModels[name] == metaModel && metaModel in models
      ensures serving == Opened(old(serving), name)
      ensures name !in old(metaModels) ==> metaModel.pendingRequests == 0
      ensures ModelsGrown()
    {
      hide PodsOk, BufferOk;
      FillBuffer();
      if name in metaModels {
        metaModel := metaModels[name];
      } else {
        metaModel := bufferModel;
        Publish(name);
      }
    }

    method Publish(name: ModelName)
      requires Shape() && name !in metaModels && bufferModel != null
      modifies `metaModels, `bufferModel, `names, `serving
      ensures Shape() && metaModels == old(metaModels)[name := old(bufferModel)]
      ensures serving == old(serving)[name := map[]]
      ensures old(bufferModel) in models && old(bufferModel).pendingRequests == 0
    {
      hide PodsOk;
      names := names[bufferModel := name];
      metaModels := metaModels[name := bufferModel];
      bufferModel := null;
      serving := serving[name := map[]];
    }

    /** `addPodAndModelMappingLocked`: lists pod and model under each other. */
    method AddMapping(metaPod: Pod, name: ModelName)
      requires Shape() && Stored(metaPod)
      modifies `metaModels, `models, `bufferModel, `names, `serving, `listing, metaPod`models, models`pods
      ensures Shape() && fresh(models - old(models)) && old(models) <= models
      ensures listing == Listed(old(listing), {metaPod.pod.key}, name)
      ensures serving == LinkModel(old(serving), name, metaPod.pod.key, metaPod.pod)
      ensures ModelsGrown()
    {
      hide PodsOk, ModelsOk, BufferOk, Listed, LinkModel;
      ListModel(metaPod, name);
      StorePod(name, metaPod.pod);
    }

    method StorePod(name: ModelName, pod: PodObject)
      requires Shape()
      modifies `metaModels, `models, `bufferModel, `names, `serving, models`pods
      ensures Shape() && fresh(models - old(models)) && old(models) <= models
      ensures serving == LinkModel(old(serving), name, pod.key, pod)
      ensures ModelsGrown()
    {
      LinkFresh(serving, name, pod.key, pod);
      hide PodsOk, ModelsOk, BufferOk, LinkModel, Opened, ModelsGrown;
      var metaModel := LoadOrStoreModel(name);
      ListPod(metaModel, name, pod);
    }

    ghost predicate Stored(metaPod: Pod)
      reads `metaPods
    {
      metaPod.pod.key in metaPods && metaPods[metaPod.pod.key] == metaPod
    }

    method ListModel(metaPod: Pod, name: ModelName)
      requires Shape() && Stored(metaPod)
      modifies `listing, metaPod`models
      ensures Shape() && listing == Listed(old(listing), {metaPod.pod.key}, name)
    {
      hide ModelsOk, BufferOk;
      metaPod.models := metaPod.models + {name};
      listing := Listed(listing, {metaPod.pod.key}, name);
    }

    method ListPod(metaModel: Model, name: ModelName, pod: PodObject)
      requires Shape() && name in metaModels && metaModels[name] == metaModel
      modifies `serving, metaModel`pods
      ensures Shape() && serving == LinkModel(old(serving), name, pod.key, pod)
    {
      hide PodsOk;
      metaModel.pods := metaModel.pods[pod.key := pod];
      serving := LinkModel(serving, name, pod.key, pod);
    }

    /** `removePodModelMappingLocked`: a positive `ignoreMapping` leaves the pod's side alone, a
        negative one the model's.  Reports a model that is left without a pod. */
    method RemoveMapping(key: PodKey, name: ModelName, ignoreMapping: int) returns (emptied: bool)
      requires Shape()
      modifies `listing, `serving, pods`models, models`pods
      ensures Shape()
      ensures listing == if ignoreMapping <= 0 then Unlisted(old(listing), {key}, name) else old(listing)
      ensures serving == if ignoreMapping >= 0 then UnlinkModel(old(serving), name, key) else old(serving)
      ensures emptied <==> ignoreMapping >= 0 && name in serving && serving[name] == map[]
    {
      hide PodsOk, ModelsOk, BufferOk, Unlisted, UnlinkModel;
      if ignoreMapping <= 0 {
        UnlistModel(key, name);
      }
      emptied := false;
      if ignoreMapping >= 0 {
        emptied := UnlistPod(name, key);
      }
    }

    method UnlistModel(key: PodKey, name: ModelName)
      requires Shape()
      modifies `listing, pods`models
      ensures Shape() && listing == Unlisted(old(listing), {key}, name)
    {
      hide ModelsOk, BufferOk;
      if key in metaPods {
        var metaPod := metaPods[key];
        metaPod.models := metaPod.models - {name};
      }
      listing := Unlisted(listing, {key}, name);
    }

    method UnlistPod(name: ModelName, key: PodKey) returns (emptied: bool)
      requires Shape()
      modifies `serving, models`pods
      ensures Shape() && serving == UnlinkModel(old(serving), name, key)
      ensures emptied <==> name in serving && serving[name] == map[]
    {
      hide PodsOk;
      emptied := false;
      if name in metaModels {
        var meta := metaModels[name];
        meta.pods := meta.pods - {key};
        emptied := |meta.pods| == 0;
      }
      serving := UnlinkModel(serving, name, key);
    }

    method DropModelIfEmpty(name: ModelName)
      requires Shape()
      modifies `metaModels, `serving
      ensures Shape() && serving == DropIfEmpty(old(serving), name)
      ensures ModelsShrunk()
    {
      hide PodsOk, BufferOk;
      if name in metaModels {
        var meta := metaModels[name];
        if |meta.pods| == 0 {
          DropModel(name);
        }
      }
    }

    method DropModel(name: ModelName)
      requires Shape()
      modifies `metaModels, `serving
      ensures Shape() && serving == old(serving) - {name} && metaModels == old(metaModels) - {name}
    {
      metaModels := metaModels - {name};
      serving := serving - {name};
      Dropped(name);
      hide PodsOk, ModelsOk, BufferOk;
    }

    twostate lemma Dropped(name: ModelName)
      requires old(ModelsOk()) && unchanged(`names) && unchanged(`models) && unchanged(old(models))
      requires metaModels == old(metaModels) - {name} && serving == old(serving) - {name}
      ensures ModelsOk()
    {
      assert metaModels.Keys == serving.Keys;
      forall m | m in metaModels
        ensures metaModels[m] in models && metaModels[m] in names && names[metaModels[m]] == m
        ensures metaModels[m].pods == serving[m]
      {
        assert m in old(metaModels);
      }
    }

    method DeleteMapping(key: PodKey, name: ModelName, ignoreMapping: int)
      requires Shape()
      modifies `listing, `serving, `metaModels, pods`models, models`pods
      ensures Shape() && ModelsShrunk()
      ensures listing == if ignoreMapping <= 0 then Unlisted(old(listing), {key}, name) else old(listing)
      ensures serving ==
        if ignoreMapping >= 0 then DropIfEmpty(UnlinkModel(old(serving), name, key), name) else old(serving)
    {
      hide PodsOk, ModelsOk, BufferOk, Unlisted, UnlinkModel;
      var emptied := RemoveMapping(key, name, ignoreMapping);
      if emptied {
        DropModelIfEmpty(name);
      }
    }

    // ----------------------------------------------------------------------
    // Handlers
    // ----------------------------------------------------------------------

    /** What addPod and updatePod do with a pod that is to be listed. */
    method ListServed(pod: PodObject, ghost empty: set<ModelName>)
      requires Shape() && Linked(listing, serving, 0, {}) && EmptyOnlyIn(serving, empty)
      modifies `metaPods, `metaModels, `bufferModel, `listing, `serving, `pods, `models, `names
      modifies pods`models, models`pods
      ensures Shape() && Linked(listing, serving, 0, {}) && EmptyOnlyIn(serving, empty)
      ensures listing == Put(old(listing), pod, pod.Served()) && ModelsGrown()
      ensures fresh(pods - old(pods)) && fresh(models - old(models))
    {
      hide PodsOk, ModelsOk, BufferOk, Linked, EmptyOnlyIn, Put, Listed;
      PutKeeps(listing, serving, pod);
      var metaPod := AddPodLocked(pod);
      ghost var done := {};
      if pod.base.Some? {
        ListOne(metaPod, pod.base.value, empty);
        PutMore(old(listing), pod, done, pod.base.value);
        done := done + {pod.base.value};
      }
      ListClaims(metaPod, pod, done, old(listing), empty);
      assert done + pod.Claimed({}) == pod.Served();
    }

    method ListClaims(metaPod: Pod, pod: PodObject,
                      ghost listed: set<ModelName>, ghost l: Listing, ghost empty: set<ModelName>)
      requires Shape() && Linked(listing, serving, 0, {}) && EmptyOnlyIn(serving, empty)
      requires Stored(metaPod) && metaPod.pod.key == pod.key && listing == Put(l, pod, listed)
      modifies `metaModels, `bufferModel, `listing, `serving, `models, `names, metaPod`models, models`pods
      ensures Shape() && Linked(listing, serving, 0, {}) && EmptyOnlyIn(serving, empty)
      ensures listing == Put(l, pod, listed + pod.Claimed({})) && ModelsGrown()
      ensures fresh(models - old(models))
    {
      hide PodsOk, ModelsOk, BufferOk, Linked, EmptyOnlyIn, Put, Listed;
      var rest := pod.claims.Keys;
      assert listed + pod.Claimed(rest) == listed;
      while rest != {}
        invariant rest <= pod.claims.Keys
        invariant Shape() && Linked(listing, serving, 0, {}) && EmptyOnlyIn(serving, empty)
        invariant listing == Put(l, pod, listed + pod.Claimed(rest)) && ModelsGrown()
        invariant fresh(models - old(models))
      {
        var m :| m in rest;
        if pod.claims[m] > 0 {
          ListOne(metaPod, m, empty);
          PutMore(l, pod, listed + pod.Claimed(rest), m);
          assert listed + pod.Claimed(rest) + {m} == listed + pod.Claimed(rest - {m});
        } else {
          assert pod.Claimed(rest) == pod.Claimed(rest - {m});
        }
        rest := rest - {m};
      }
    }

    method ListOne(metaPod: Pod, name: ModelName, ghost empty: set<ModelName>)
      requires Shape() && Linked(listing, serving, 0, {}) && EmptyOnlyIn(serving, empty) && Stored(metaPod)
      modifies `metaModels, `models, `bufferModel, `names, `serving, `listing, metaPod`models, models`pods
      ensures Shape() && fresh(models - old(models)) && old(models) <= models
      ensures Linked(listing, serving, 0, {}) && EmptyOnlyIn(serving, empty)
      ensures listing == Listed(old(listing), {metaPod.pod.key}, name)
      ensures ModelsGrown()
    {
      assert metaPod.pod.key in listing && listing[metaPod.pod.key].pod == metaPod.pod;
      LinkKeeps(listing, serving, metaPod.pod.key, name, empty);
      hide PodsOk, ModelsOk, BufferOk, Linked, EmptyOnlyIn, LinkModel, Listed, ModelsGrown;
      AddMapping(metaPod, name);
    }

    method ForgetPod(key: PodKey, served: set<ModelName>) returns (emptied: set<ModelName>)
      requires Shape() && key !in listing
      requires Linked(listing, serving, key, served) && EmptyOnlyIn(serving, {})
      modifies `listing, `serving, pods`models, models`pods
      ensures Shape() && listing == old(listing)
      ensures Linked(listing, serving, 0, {}) && EmptyOnlyIn(serving, emptied)
    {
      hide PodsOk, ModelsOk, BufferOk, Linked;
      emptied := {};
      var rest := served;
      while rest != {}
        invariant Shape() && listing == old(listing)
        invariant Linked(listing, serving, key, rest) && EmptyOnlyIn(serving, emptied)
      {
        var m :| m in rest;
        var e := ForgetLink(key, m, rest, emptied);
        if e {
          emptied := emptied + {m};
        }
        rest := rest - {m};
      }
      NothingStale(listing, serving, key);
    }

    method ForgetLink(key: PodKey, m: ModelName, ghost rest: set<ModelName>, ghost names: set<ModelName>)
      returns (emptied: bool)
      requires Shape() && key !in listing
      requires Linked(listing, serving, key, rest) && EmptyOnlyIn(serving, names)
      modifies `listing, `serving, pods`models, models`pods
      ensures Shape() && listing == old(listing)
      ensures Linked(listing, serving, key, rest - {m})
      ensures EmptyOnlyIn(serving, if emptied then names + {m} else names)
    {
      ForgetKeeps(listing, serving, key, rest, m, names);
      hide PodsOk, ModelsOk, BufferOk, Linked, UnlinkModel;
      emptied := RemoveMapping(key, m, 1);
    }

    method DropAll(emptied: set<ModelName>)
      requires Shape() && Linked(listing, serving, 0, {}) && EmptyOnlyIn(serving, emptied)
      modifies `metaModels, `serving
      ensures Valid() && ModelsShrunk()
    {
      hide PodsOk, ModelsOk, BufferOk, Linked, EmptyOnlyIn, DropIfEmpty;
      var rest := emptied;
      while rest != {}
        invariant Shape() && Linked(listing, serving, 0, {}) && EmptyOnlyIn(serving, rest)
        invariant ModelsShrunk()
      {
        var m :| m in rest;
        DropKeeps(listing, serving, 0, {}, m, rest);
        DropModelIfEmpty(m);
        rest := rest - {m};
      }
    }

    method AddPod(pod: PodObject)
      requires Valid()
      modifies `metaPods, `metaModels, `bufferModel, `listing, `serving, `pods, `models, `names
      modifies pods`models, models`pods
      ensures Valid() && fresh(pods - old(pods)) && fresh(models - old(models))
      ensures listing == Added(old(listing), pod) && ModelsGrown()
    {
      hide PodsOk, ModelsOk, BufferOk, Linked, EmptyOnlyIn, Put, PodObject.Served;
      if !pod.HasModel() || pod.IsWorker() {
        return;
      }
      ListServed(pod, {});
    }

    /** `updatePod`: models that lose their only pod are dropped last, after the new object has
        been listed, so a model the pod goes on serving keeps its entry and its pending count. */
    method UpdatePod(was: PodObject, now: PodObject)
      requires Valid()
      modifies `metaPods, `metaModels, `bufferModel, `listing, `serving, `pods, `models, `names
      modifies pods`models, models`pods
      ensures Valid() && fresh(pods - old(pods)) && fresh(models - old(models))
      ensures listing == Updated(old(listing), was, now) && ModelsKept()
      ensures !was.rayWorker && !now.rayWorker && !now.groupWorker ==>
        forall m :: (now.base == Some(m) || (m in now.claims && now.claims[m] > 0)) && m in old(metaModels) ==>
        && m in metaModels && metaModels[m] == old(metaModels)[m]
        && metaModels[m].pendingRequests == old(metaModels[m].pendingRequests)
    {
      if was.IsWorker() && now.IsWorker() {
        return;
      }
      if was.base.None? && was.key !in metaPods && !now.HasModel() {
        NotStored(was.key);
        return;
      }
      hide PodsOk, ModelsOk, BufferOk, Linked, EmptyOnlyIn, Put, PodObject.Served;
      Relist(was, now);
      ServedAreStored(was, now, old(listing));
    }

    method Relist(was: PodObject, now: PodObject)
      requires Valid() && !(was.IsWorker() && now.IsWorker())
      modifies `metaPods, `metaModels, `bufferModel, `listing, `serving, `pods, `models, `names
      modifies pods`models, models`pods
      ensures Valid() && fresh(pods - old(pods)) && fresh(models - old(models))
      ensures listing == Updated(old(listing), was, now) && ModelsKept()
    {
      hide PodsOk, ModelsOk, BufferOk, Linked, EmptyOnlyIn, Put, PodObject.Served;
      var emptied := RemoveOld(was);
      if !was.rayWorker && !now.rayWorker && now.HasModel() && !now.IsWorker() {
        ListServed(now, emptied);
      }
      DropAll(emptied);
    }

    lemma NotStored(key: PodKey)
      requires Shape()
      ensures key !in metaPods ==> listing - {key} == listing
    {
    }

    lemma ServedAreStored(was: PodObject, now: PodObject, l: Listing)
      requires Valid() && listing == Updated(l, was, now)
      ensures !was.rayWorker && !now.rayWorker && !now.groupWorker ==>
        forall m :: now.base == Some(m) || (m in now.claims && now.claims[m] > 0) ==> m in metaModels
    {
      if !was.rayWorker && !now.rayWorker && !now.groupWorker {
        forall m | now.base == Some(m) || (m in now.claims && now.claims[m] > 0)
          ensures m in metaModels
        {
          assert m in listing[now.key].models;
        }
      }
    }

    method RemoveOld(was: PodObject) returns (emptied: set<ModelName>)
      requires Valid()
      modifies `metaPods, `listing, `serving, pods`models, models`pods
      ensures Shape() && listing == old(listing) - {was.key}
      ensures Linked(listing, serving, 0, {}) && EmptyOnlyIn(serving, emptied)
    {
      NotStored(was.key);
      hide PodsOk, ModelsOk, BufferOk, Linked, EmptyOnlyIn;
      emptied := {};
      if was.base.Some? || was.key in metaPods {
        emptied := RemovePod(was.key);
      }
    }

    method RemovePod(key: PodKey) returns (emptied: set<ModelName>)
      requires Valid()
      modifies `metaPods, `listing, `serving, pods`models, models`pods
      ensures Shape() && listing == old(listing) - {key}
      ensures Linked(listing, serving, 0, {}) && EmptyOnlyIn(serving, emptied)
    {
      RemovalLeavesLinks(listing, serving, key);
      hide PodsOk, ModelsOk, BufferOk, Linked, EmptyOnlyIn;
      var metaPod := DeletePodLocked(key);
      emptied := {};
      if metaPod != null {
        emptied := ForgetPod(key, metaPod.models);
      } else {
        NothingStale(listing, serving, key);
      }
    }

    method DeletePod(key: PodKey, hasModelInfo: bool)
      requires Valid()
      modifies `metaPods, `metaModels, `listing, `serving, pods`models, models`pods
      ensures Valid() && listing == old(listing) - {key} && ModelsShrunk()
    {
      NotStored(key);
      hide PodsOk, ModelsOk, BufferOk, Linked, EmptyOnlyIn;
      if hasModelInfo || key in metaPods {
        RemoveAndDrop(key);
      }
    }

    method RemoveAndDrop(key: PodKey)
      requires Valid()
      modifies `metaPods, `metaModels, `listing, `serving, pods`models, models`pods
      ensures Valid() && listing == old(listing) - {key} && ModelsShrunk()
    {
      RemovalLeavesLinks(listing, serving, key);
      hide PodsOk, ModelsOk, BufferOk, Linked, EmptyOnlyIn;
      var metaPod := DeletePodLocked(key);
      if metaPod != null {
        DeleteLinks(key, metaPod.models);
      }
      NothingStale(listing, serving, key);
    }

    method DeleteLinks(key: PodKey, served: set<ModelName>)
      requires Shape() && key !in listing
      requires Linked(listing, serving, key, served) && EmptyOnlyIn(serving, {})
      modifies `listing, `serving, `metaModels, pods`models, models`pods
      ensures Shape() && listing == old(listing) && ModelsShrunk()
      ensures Linked(listing, serving, key, {}) && EmptyOnlyIn(serving, {})
    {
      hide PodsOk, ModelsOk, BufferOk, Linked, EmptyOnlyIn;
      var rest := served;
      while rest != {}
        invariant Shape() && listing == old(listing) && ModelsShrunk()
        invariant Linked(listing, serving, key, rest) && EmptyOnlyIn(serving, {})
      {
        var m :| m in rest;
        DeleteLink(key, m, rest);
        rest := rest - {m};
      }
    }

    method DeleteLink(key: PodKey, m: ModelName, ghost rest: set<ModelName>)
      requires Shape() && key !in listing
      requires Linked(listing, serving, key, rest) && EmptyOnlyIn(serving, {})
      modifies `listing, `serving, `metaModels, pods`models, models`pods
      ensures Shape() && listing == old(listing) && ModelsShrunk()
      ensures Linked(listing, serving, key, rest - {m}) && EmptyOnlyIn(serving, {})
    {
      ForgetKeeps(listing, serving, key, rest, m, {});
      DropKeeps(listing, UnlinkModel(serving, m, key), key, rest - {m}, m, {m});
      hide PodsOk, ModelsOk, BufferOk, Linked, EmptyOnlyIn, UnlinkModel, DropIfEmpty, ModelsShrunk;
      DeleteMapping(key, m, 1);
    }

    method AddModelAdapter(adapter: Adapter)
      requires Valid()
      modifies `metaModels, `bufferModel, `listing, `serving, `models, `names, pods`models, models`pods
      ensures Valid() && fresh(models - old(models))
      ensures listing == Listed(old(listing), Elements(adapter.instances), adapter.name) && ModelsGrown()
    {
      ListInstances(adapter, {});
    }

    method ListInstances(adapter: Adapter, ghost empty: set<ModelName>)
      requires Shape() && Linked(listing, serving, 0, {}) && EmptyOnlyIn(serving, empty)
      modifies `metaModels, `bufferModel, `listing, `serving, `models, `names, pods`models, models`pods
      ensures Shape() && Linked(listing, serving, 0, {}) && EmptyOnlyIn(serving, empty)
      ensures listing == Listed(old(listing), Elements(adapter.instances), adapter.name) && ModelsGrown()
      ensures fresh(models - old(models))
    {
      ListNone(listing, adapter.name);
      hide ModelsOk, BufferOk, Linked, EmptyOnlyIn, Listed, Elements;
      for i := 0 to |adapter.instances|
        invariant Shape() && Linked(listing, serving, 0, {}) && EmptyOnlyIn(serving, empty)
        invariant listing == Listed(old(listing), Elements(adapter.instances[..i]), adapter.name) && ModelsGrown()
        invariant fresh(models - old(models))
      {
        ListMore(old(listing), adapter.instances[..i], adapter.instances[i], adapter.name);
        ListIfStored(adapter.instances[i], adapter.name, empty);
        assert adapter.instances[..i + 1] == adapter.instances[..i] + [adapter.instances[i]];
      }
      assert adapter.instances[..|adapter.instances|] == adapter.instances;
    }

    /** `addPodAndModelMappingLockedByName`: a pod that is not stored is skipped. */
    method ListIfStored(key: PodKey, name: ModelName, ghost empty: set<ModelName>)
      requires Shape() && Linked(listing, serving, 0, {}) && EmptyOnlyIn(serving, empty)
      modifies `metaModels, `bufferModel, `listing, `serving, `models, `names, pods`models, models`pods
      ensures Shape() && Linked(listing, serving, 0, {}) && EmptyOnlyIn(serving, empty)
      ensures listing == Listed(old(listing), {key}, name) && ModelsGrown()
      ensures fresh(models - old(models)) && old(models) <= models
    {
      hide ModelsOk, BufferOk, Linked, EmptyOnlyIn;
      if key in metaPods {
        ListOne(metaPods[key], name, empty);
      } else {
        assert listing == Listed(listing, {key}, name);
      }
    }

    /** `updateModelAdapter`: the model is dropped only once its new pods have been listed. */
    method UpdateModelAdapter(before: Adapter, after: Adapter)
      requires Valid()
      modifies `metaModels, `bufferModel, `listing, `serving, `models, `names, pods`models, models`pods
      ensures Valid() && fresh(models - old(models)) && ModelsKept()
      ensures listing == After(old(listing), UpdateAdapter(before, after))
    {
      hide PodsOk, ModelsOk, BufferOk, Linked, EmptyOnlyIn, Listed, Unlisted, Elements;
      var emptied := UnlistInstances(before);
      ListInstances(after, if emptied then {before.name} else {});
      if emptied {
        DropAll({before.name});
      }
    }

    method UnlistInstances(adapter: Adapter) returns (emptied: bool)
      requires Valid()
      modifies `listing, `serving, pods`models, models`pods
      ensures Shape() && Linked(listing, serving, 0, {})
      ensures EmptyOnlyIn(serving, if emptied then {adapter.name} else {})
      ensures listing == Unlisted(old(listing), Elements(adapter.instances), adapter.name)
    {
      ListNone(listing, adapter.name);
      hide PodsOk, ModelsOk, BufferOk, Linked, EmptyOnlyIn, Unlisted, Elements;
      emptied := false;
      for i := 0 to |adapter.instances|
        invariant Shape() && Linked(listing, serving, 0, {})
        invariant EmptyOnlyIn(serving, if emptied then {adapter.name} else {})
        invariant listing == Unlisted(old(listing), Elements(adapter.instances[..i]), adapter.name)
      {
        ListMore(old(listing), adapter.instances[..i], adapter.instances[i], adapter.name);
        var e := UnlistOne(adapter.instances[i], adapter.name, emptied);
        emptied := emptied || e;
        assert adapter.instances[..i + 1] == adapter.instances[..i] + [adapter.instances[i]];
      }
      assert adapter.instances[..|adapter.instances|] == adapter.instances;
    }

    method UnlistOne(key: PodKey, name: ModelName, ghost empty: bool) returns (emptied: bool)
      requires Shape() && Linked(listing, serving, 0, {}) && EmptyOnlyIn(serving, if empty then {name} else {})
      modifies `listing, `serving, pods`models, models`pods
      ensures Shape() && Linked(listing, serving, 0, {})
      ensures EmptyOnlyIn(serving, if empty || emptied then {name} else {})
      ensures listing == Unlisted(old(listing), {key}, name)
    {
      UnlinkKeeps(listing, serving, key, name, if empty then {name} else {});
      hide PodsOk, ModelsOk, BufferOk, Linked, Unlisted, UnlinkModel;
      emptied := RemoveMapping(key, name, 0);
    }

    method DeleteModelAdapter(adapter: Adapter)
      requires Valid()
      modifies `metaModels, `listing, `serving, pods`models, models`pods
      ensures Valid() && ModelsShrunk()
      ensures listing == Unlisted(old(listing), Elements(adapter.instances), adapter.name)
    {
      ListNone(listing, adapter.name);
      hide PodsOk, ModelsOk, BufferOk, Linked, EmptyOnlyIn, Unlisted, Elements;
      for i := 0 to |adapter.instances|
        invariant Valid() && ModelsShrunk()
        invariant listing == Unlisted(old(listing), Elements(adapter.instances[..i]), adapter.name)
      {
        ListMore(old(listing), adapter.instances[..i], adapter.instances[i], adapter.name);
        UnlistAndDrop(adapter.instances[i], adapter.name);
        assert adapter.instances[..i + 1] == adapter.instances[..i] + [adapter.instances[i]];
      }
      assert adapter.instances[..|adapter.instances|] == adapter.instances;
    }

    method UnlistAndDrop(key: PodKey, name: ModelName)
      requires Valid()
      modifies `metaModels, `listing, `serving, pods`models, models`pods
      ensures Valid() && ModelsShrunk()
      ensures listing == Unlisted(old(listing), {key}, name)
    {
      UnlinkKeeps(listing, serving, key, name, {});
      DropKeeps(Unlisted(listing, {key}, name), UnlinkModel(serving, name, key), 0, {}, name, {name});
      hide PodsOk, ModelsOk, BufferOk, Linked, EmptyOnlyIn, Unlisted, UnlinkModel, DropIfEmpty, ModelsShrunk;
      DeleteMapping(key, name, 0);
    }

    /** Any sequence of informer events leaves the index whole, with the pods listed as the
        events say. */
    method Run(events: seq<Event>)
      requires Valid()
      modifies `metaPods, `metaModels, `bufferModel, `listing, `serving, `pods, `models, `names
      modifies pods`models, models`pods
      ensures Valid() && listing == AfterAll(old(listing), events)
      ensures fresh(pods - old(pods)) && fresh(models - old(models))
      ensures forall k, m :: m in metaModels && k in metaModels[m].pods <==> k in listing && m in listing[k].models
    {
      hide PodsOk, ModelsOk, BufferOk, Inverse, After;
      for i := 0 to |events|
        invariant Valid() && listing == AfterAll(old(listing), events[..i])
        invariant fresh(pods - old(pods)) && fresh(models - old(models))
      {
        Handle(events[i]);
        assert events[..i + 1][..i] == events[..i];
      }
      assert events[..|events|] == events;
      forall k, m
        ensures m in metaModels && k in metaModels[m].pods <==> k in listing && m in listing[k].models
      {
        ListedOnBothSides(k, m);
      }
    }

    lemma ListedOnBothSides(k: PodKey, m: ModelName)
      requires Valid()
      ensures m in metaModels && k in metaModels[m].pods <==> k in listing && m in listing[k].models
    {
      BothSidesAgree(k, m);
    }

    /** One event; a model stored before and after it is the same object. */
    method Handle(event: Event)
      requires Valid()
      modifies `metaPods, `metaModels, `bufferModel, `listing, `serving, `pods, `models, `names
      modifies pods`models, models`pods
      ensures Valid() && listing == After(old(listing), event) && ModelsKept()
      ensures fresh(pods - old(pods)) && fresh(models - old(models))
    {
      hide PodsOk, ModelsOk, BufferOk, Inverse, Added, Updated, Listed, Unlisted;
      match event
      case AddPod(pod) => AddPod(pod);
      case UpdatePod(was, now) => UpdatePod(was, now);
      case DeletePod(key, hasModelInfo) => DeletePod(key, hasModelInfo);
      case AddAdapter(adapter) => AddModelAdapter(adapter);
      case UpdateAdapter(before, after) => UpdateModelAdapter(before, after);
      case DeleteAdapter(adapter) => DeleteModelAdapter(adapter);
    }
  }
}
