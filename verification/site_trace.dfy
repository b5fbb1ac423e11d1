/**
  Sequences of calls on one site object: reading `equipments`, indexing,
  and `refresh`. States what holds across calls rather than of one call.
 */
module SiteTrace {
  import opened Wrappers
  import opened Haystack
  import opened SiteLookup
  import opened SiteCache

  datatype Op = ReadEquipments | Index(key: string) | RefreshSite

  /**
    The calls the source completes without raising on a site carrying an
    `equip` tag: only those that never need to load the cache.
   */
  predicate Admissible(st: SiteState, op: Op) {
    match op
    case ReadEquipments => st.cache.None? ==> "equip" !in st.site.tags
    case Index(key) => st.cache.None? && key !in st.site.tags ==> "equip" !in st.site.tags
    case RefreshSite => "equip" !in st.site.tags
  }

  /** One call on the site object. */
  function Step(st: SiteState, op: Op, env: Env): (st': SiteState)
    requires Admissible(st, op)
    ensures st'.site == st.site
    ensures st.issued <= st'.issued && |st'.issued| <= |st.issued| + 2
    ensures st.cache.Some? ==> st'.cache.Some?
    ensures !op.RefreshSite? && st.cache.Some? ==> st'.cache == st.cache
  {
    match op
    case ReadEquipments => Equipments(st, env).0
    case Index(key) => GetItem(st, key, env).0
    case RefreshSite => Refresh(st, env)
  }

  /** Every call of `ops`, made in order, is admissible when it is made. */
  predicate RunAdmissible(st: SiteState, ops: seq<Op>, env: Env)
    decreases |ops|
  {
    |ops| == 0 || (Admissible(st, ops[0]) && RunAdmissible(Step(st, ops[0], env), ops[1..], env))
  }

  /** The calls `ops`, in order. */
  function Run(st: SiteState, ops: seq<Op>, env: Env): (st': SiteState)
    requires RunAdmissible(st, ops, env)
    ensures st'.site == st.site
    ensures st.issued <= st'.issued
    decreases |ops|
  {
    if |ops| == 0 then st else Run(Step(st, ops[0], env), ops[1..], env)
  }

  /**
    The cache, when present, holds exactly the entities of one earlier
    equipment query, in that result's order.
   */
  ghost predicate Coherent(st: SiteState, env: Env) {
    st.cache.Some? ==>
      exists k :: 0 <= k < |st.issued| && st.issued[k] == EquipFilter(st.site, env) &&
        st.cache.value == Values(env.answer(k, st.issued[k]))
  }

  lemma LoadedCoherent(st: SiteState, env: Env)
    ensures Coherent(Loaded(st, env), env)
  {
    var k := |st.issued|;
    assert Loaded(st, env).issued[k] == EquipFilter(st.site, env);
  }

  /** Every single call keeps the cache coherent. */
  lemma StepCoherent(st: SiteState, op: Op, env: Env)
    requires Admissible(st, op) && Coherent(st, env)
    ensures Coherent(Step(st, op, env), env)
  {
    var st' := Step(st, op, env);
    match op
    case ReadEquipments =>
      if st.cache.None? { LoadedCoherent(st, env); }
    case RefreshSite =>
      LoadedCoherent(st, env);
    case Index(key) =>
      if key !in st.site.tags {
        var base := if st.cache.Some? then st else Loaded(st, env);
        if st.cache.None? { LoadedCoherent(st, env); }
        assert st'.cache == base.cache && base.issued <= st'.issued;
        if st'.cache.Some? {
          var k :| 0 <= k < |base.issued| && base.issued[k] == EquipFilter(st.site, env) &&
            base.cache.value == Values(env.answer(k, base.issued[k]));
          assert st'.issued[k] == base.issued[k];
        }
      }
  }

  /**
    The cache is never updated piecemeal: after any sequence of calls it is
    still the result of one whole equipment query.
   */
  lemma {:induction false} RunCoherent(st: SiteState, ops: seq<Op>, env: Env)
    requires RunAdmissible(st, ops, env) && Coherent(st, env)
    ensures Coherent(Run(st, ops, env), env)
    decreases |ops|
  {
    if |ops| > 0 {
      StepCoherent(st, ops[0], env);
      RunCoherent(Step(st, ops[0], env), ops[1..], env);
    }
  }

  predicate OnlyReads(ops: seq<Op>) {
    forall i :: 0 <= i < |ops| ==> ops[i] == ReadEquipments
  }

  /**
    Memoization: any number of reads of `equipments` issue at most one
    query (none once the cache exists) and all see the same list.
   */
  lemma {:induction false} ReadsQueryAtMostOnce(st: SiteState, ops: seq<Op>, env: Env)
    requires st.cache.None? ==> "equip" !in st.site.tags
    requires |ops| > 0 && OnlyReads(ops)
    ensures RunAdmissible(st, ops, env)
    ensures var st' := Run(st, ops, env);
      st' == Equipments(st, env).0 &&
      st'.issued == st.issued + (if st.cache.None? then [EquipFilter(st.site, env)] else [])
    decreases |ops|
  {
    assert ops[0] == ReadEquipments;
    var next := Step(st, ops[0], env);
    if |ops| > 1 {
      assert OnlyReads(ops[1..]) by {
        forall i | 0 <= i < |ops[1..]| ensures ops[1..][i] == ReadEquipments {
          assert ops[1..][i] == ops[i + 1];
        }
      }
      ReadsQueryAtMostOnce(next, ops[1..], env);
    }
  }

  predicate NoRefresh(ops: seq<Op>) {
    forall i :: 0 <= i < |ops| ==> !ops[i].RefreshSite?
  }

  /**
    Memoization across mixed calls: once the cache exists, any sequence of
    reads and lookups without `refresh` leaves it exactly as it was.
   */
  lemma {:induction false} LoadedCacheStable(st: SiteState, ops: seq<Op>, env: Env)
    requires RunAdmissible(st, ops, env)
    requires st.cache.Some? && NoRefresh(ops)
    ensures Run(st, ops, env).cache == st.cache
    decreases |ops|
  {
    if |ops| > 0 {
      assert !ops[0].RefreshSite?;
      assert NoRefresh(ops[1..]) by {
        forall i | 0 <= i < |ops[1..]| ensures !ops[1..][i].RefreshSite? {
          assert ops[1..][i] == ops[i + 1];
        }
      }
      LoadedCacheStable(Step(st, ops[0], env), ops[1..], env);
    }
  }

  /**
    `refresh` forgets whatever was cached: two site objects that differ only
    in their cache end in the same state, holding one new query's result.
   */
  lemma RefreshDiscardsCache(a: SiteState, b: SiteState, env: Env)
    requires "equip" !in a.site.tags
    requires a.site == b.site && a.issued == b.issued
    ensures Refresh(a, env) == Refresh(b, env)
    ensures Refresh(a, env).cache == Some(Values(env.answer(|a.issued|, EquipFilter(a.site, env))))
  {
  }

  /**
    Without the clearing step of `refresh`, loading again would keep the
    stale entries in front of the new ones.
   */
  lemma AddEquipKeepsPrior(st: SiteState, env: Env)
    requires "equip" !in st.site.tags && st.cache.Some? && AllNamed(st.cache.value)
    requires forall j :: 0 <= j < |st.cache.value| ==> !Matches("equip", st.cache.value[j], env.show)
    ensures Resolve("equip", st.site, st.cache.value, env).Remote?
    ensures AddEquip(st, env).cache.value[..|st.cache.value|] == st.cache.value
  {
  }
}
