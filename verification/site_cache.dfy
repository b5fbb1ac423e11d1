/**
  The site's equipment cache and the calls that read it
  (`SiteMixin.__getitem__`, `__iter__`, `equipments`, `refresh`,
  `_add_equip`), as a state machine over immutable states.

  The Python calls re-enter one another: the first read of `equipments`
  runs `_add_equip`, which evaluates `self['equip']`, which iterates the
  site and so reads `equipments` again. `GetItem`, `Equipments` and
  `AddEquip` below call each other in the same way. The re-entry ends only
  because `_add_equip` sets the cache to an empty list before the nested
  lookup: the `decreases` clauses below express exactly that.
 */
module SiteCache {
  import opened Wrappers
  import opened Haystack
  import opened SiteLookup

  /**
    A site object: the site entity, its equipment cache (`None` until the
    list attribute is first created) and the filters of the queries this
    site object's own calls have sent to the session, in order.
   */
  datatype SiteState = SiteState(site: Entity, cache: Option<seq<Entity>>, issued: seq<string>)

  /** The value `site[key]` evaluates to. */
  datatype Item =
    | Tag(value: Value)
    | Child(equip: Entity)
    | Fetched(items: seq<(Ref, Entity)>)
    | KeyError(tag: string)

  /** The filter of the equipment query: `self['equip']` on an empty cache. */
  function EquipFilter(site: Entity, env: Env): string {
    Fallback(site, "equip", env).filter
  }

  /** The state after exactly one equipment query replaced the cache. */
  function Loaded(st: SiteState, env: Env): SiteState {
    var f := EquipFilter(st.site, env);
    st.(cache := Some(Values(env.answer(|st.issued|, f))), issued := st.issued + [f])
  }

  /** Carries out a lookup decision; only the fallback talks to the session. */
  function Perform(st: SiteState, l: Lookup, env: Env): (res: (SiteState, Item))
    ensures res.0.site == st.site && res.0.cache == st.cache
    ensures l.Remote? ==>
      res.0.issued == st.issued + [l.call.filter] &&
      res.1 == Fetched(env.answer(|st.issued|, l.call.filter))
    ensures !l.Remote? ==> res.0 == st && !res.1.Fetched?
  {
    match l
    case TagValue(v) => (st, Tag(v))
    case Equip(e) => (st, Child(e))
    case MissingTag(t) => (st, KeyError(t))
    case Remote(call) =>
      (st.(issued := st.issued + [call.filter]), Fetched(env.answer(|st.issued|, call.filter)))
  }

  /**
    `site[key]`: a tag of the site is answered without touching the cache;
    any other key first loads the cache if needed, then is resolved against it.
   */
  function GetItem(st: SiteState, key: string, env: Env): (res: (SiteState, Item))
    requires st.cache.None? && key !in st.site.tags ==> "equip" !in st.site.tags
    ensures res.0.site == st.site && res.0.cache.Some? == (st.cache.Some? || key !in st.site.tags)
    ensures key in st.site.tags ==> res == (st, Tag(st.site.tags[key]))
    ensures key !in st.site.tags && st.cache.Some? ==>
      res == Perform(st, Resolve(key, st.site, st.cache.value, env), env)
    ensures key !in st.site.tags && st.cache.None? ==>
      var loaded := Loaded(st, env);
      res == Perform(loaded, Resolve(key, st.site, loaded.cache.value, env), env)
    decreases if st.cache.None? then 5 else 2
  {
    if key in st.site.tags then (st, Tag(st.site.tags[key]))
    else
      var (st', equips) := Equipments(st, env);
      Perform(st', Resolve(key, st.site, equips, env), env)
  }

  /**
    The `equipments` property: the cached list if there is one; otherwise
    one equipment query, whose entities become the cache.
   */
  function Equipments(st: SiteState, env: Env): (res: (SiteState, seq<Entity>))
    requires st.cache.None? ==> "equip" !in st.site.tags
    ensures res.0.cache == Some(res.1)
    ensures st.cache.Some? ==> res == (st, st.cache.value)
    ensures st.cache.None? ==> res.0 == Loaded(st, env)
    decreases if st.cache.None? then 4 else 1
  {
    if st.cache.Some? then (st, st.cache.value)
    else
      var st' := AddEquip(st, env);
      var fetched := Values(env.answer(|st.issued|, EquipFilter(st.site, env)));
      assert Prior(st) + fetched == fetched;
      (st', st'.cache.value)
  }

  /** The entities already cached, or none when there is no cache yet. */
  function Prior(st: SiteState): seq<Entity> {
    if st.cache.Some? then st.cache.value else []
  }

  /**
    `_add_equip`: create an empty cache if there is none, look up `'equip'`,
    and append the entities of the query result to the cache. The nested
    lookup must fall back to the query, which both callers guarantee.
   */
  function AddEquip(st: SiteState, env: Env): (st': SiteState)
    requires "equip" !in st.site.tags
    requires st.cache.Some? ==> Resolve("equip", st.site, st.cache.value, env).Remote?
    ensures st'.site == st.site
    ensures st'.issued == st.issued + [EquipFilter(st.site, env)]
    ensures st'.cache == Some(Prior(st) + Values(env.answer(|st.issued|, EquipFilter(st.site, env))))
    decreases 3
  {
    var primed := if st.cache.None? then st.(cache := Some([])) else st;
    var (after, item) := GetItem(primed, "equip", env);
    match item
    case Fetched(items) => after.(cache := Some(after.cache.value + Values(items)))
    case _ => assert false; after
  }

  /** `refresh`: empty the cache, then load it again with one new query. */
  function Refresh(st: SiteState, env: Env): (st': SiteState)
    requires "equip" !in st.site.tags
    ensures st' == Loaded(st, env)
    ensures |st'.issued| == |st.issued| + 1
  {
    var cleared := st.(cache := Some([]));
    assert Resolve("equip", st.site, [], env).Remote?;
    var fetched := Values(env.answer(|st.issued|, EquipFilter(st.site, env)));
    assert Prior(cleared) + fetched == fetched;
    AddEquip(cleared, env)
  }

  /** The generator body of `__iter__`: each element of `equips`, in order. */
  method YieldEach(equips: seq<Entity>) returns (yielded: seq<Entity>)
    ensures yielded == equips
  {
    yielded := [];
    var i := 0;
    while i < |equips|
      invariant 0 <= i <= |equips|
      invariant yielded == equips[..i]
    {
      yielded := yielded + [equips[i]];
      i := i + 1;
    }
  }

  /**
    `__iter__`: yields each cached equipment in cache order, loading the
    cache first if needed.
   */
  method Iterate(st: SiteState, env: Env) returns (st': SiteState, yielded: seq<Entity>)
    requires st.cache.None? ==> "equip" !in st.site.tags
    ensures st'.cache == Some(yielded)
    ensures st.cache.Some? ==> st' == st && yielded == st.cache.value
    ensures st.cache.None? ==> st' == Loaded(st, env)
    ensures st.cache == Some([]) ==> yielded == []
  {
    var loaded := Equipments(st, env);
    st' := loaded.0;
    yielded := YieldEach(loaded.1);
  }

  /**
    Indexing a loaded site by a key that is no tag of the site returns the
    first matching cached equipment and sends nothing to the session.
   */
  lemma GetItemFindsEquipment(st: SiteState, key: string, env: Env, i: nat)
    requires st.cache.Some? && key !in st.site.tags && AllNamed(st.cache.value)
    requires i < |st.cache.value| && Matches(key, st.cache.value[i], env.show)
    requires forall j :: 0 <= j < i ==> !Matches(key, st.cache.value[j], env.show)
    ensures GetItem(st, key, env) == (st, Child(st.cache.value[i]))
  {
    ResolveFirstMatch(key, st.site, st.cache.value, env, i);
  }

  /**
    Indexing a loaded site by a key that matches neither a tag nor any
    cached equipment sends exactly one query, the key scoped to the site,
    and returns its result.
   */
  lemma GetItemFallsBack(st: SiteState, key: string, env: Env)
    requires st.cache.Some? && key !in st.site.tags && AllNamed(st.cache.value)
    requires forall j :: 0 <= j < |st.cache.value| ==> !Matches(key, st.cache.value[j], env.show)
    ensures var f := "(siteRef==" + env.dump(st.site.id) + ") and (" + key + ")";
      GetItem(st, key, env) == (st.(issued := st.issued + [f]), Fetched(env.answer(|st.issued|, f)))
  {
  }
}
