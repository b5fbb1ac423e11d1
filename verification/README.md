# pyhaystack site mix-ins, modelled in Dafny

This project models the site mix-ins of pyhaystack's high-level entity
interface. These mix-ins let a Haystack `site` entity act like a container of
its equipment, and let an entity with a `siteRef` tag look up its site.

- `SiteFilter` builds the site-scoped filter of `SiteMixin.find_entity`. It
  passes `limit`, `single` and `callback` on unchanged.
- `SiteLookup` decides `site[key]` as a pure function, `Resolve`. It tries a
  tag of the site first. Next it tries each cached equipment in order: first
  by identifier, with every `@` removed from both sides, then by `dis`/`navName`.
  Last, it falls back to a scoped query.
- `SiteCache` models the equipment cache as a state machine over immutable
  `SiteState` values. The state holds the site, the cache
  (`Option<seq<Entity>>`) and a log of the filters that this site object's
  own `site[key]`, `equipments` and `refresh` calls send. A user's
  `find_entity` or `get_site` call is a pure function here and is not logged.
  `GetItem`, `Equipments` and `AddEquip` call one another the same way
  `__getitem__`, `equipments` and `_add_equip` do. Their termination measure
  closes only because `_add_equip` sets the cache to an empty list before its
  nested `self['equip']` lookup.
- `SiteTrace` covers sequences of calls. It proves memoization: repeated
  reads issue at most one query (`ReadsQueryAtMostOnce`), and once the cache
  exists, reads and lookups without `refresh` leave it unchanged
  (`LoadedCacheStable`). It also proves that the cache always holds the
  result of one whole equipment query (`RunCoherent`).
- `SiteRef` models `SiteRefMixin.get_site`.

Outside collaborators are parameters, bundled in `Haystack.Env`:
- `hszinc.dump_scalar` is modelled as `dump`.
- `str(id)` is modelled as `show`.
- The session's query endpoint is modelled as `answer(n, filter)`. It gives
  the ordered `(id, entity)` items returned to a site object that has
  already sent `n` queries of its own, so results may differ between queries.

Three facts about the lookup code shape the model:
- The identifier test removes every `@` from both the key and the
  identifier (site.py:39).
- Matching is decided per equipment, in cache order: identifier first, then
  `dis`/`navName` (site.py:37-43). An earlier name match therefore beats a
  later identifier match.
- An unmatched key always becomes a remote query with the key as filter
  expression (site.py:49-50).

## Model

| member | source | states |
|---|---|---|
| SiteFilter.FindEntity | pyhaystack/client/entity/mixins/site.py:15-26 | Without a filter the session gets `siteRef==<dump(id)>`. With filter `f` it gets `(siteRef==<dump(id)>) and (<f>)`. `limit`, `single` and `callback` arrive unchanged, and the caller's filter can be recovered from the one sent |
| SiteFilter.ScopedFilter | pyhaystack/client/entity/mixins/site.py:21-25 | Round trip: `Unscope` recovers from the built filter exactly the caller's expression, or its absence |
| SiteFilter.ExpressionVerbatim | pyhaystack/client/entity/mixins/site.py:25 | The caller's expression appears verbatim inside the scoped filter, right after the site clause |
| SiteFilter.ScopedFilterInjective | pyhaystack/client/entity/mixins/site.py:22-25 | For one site, different caller expressions (or none) never give the same filter |
| SiteLookup.StripAt | pyhaystack/client/entity/mixins/site.py:39 | The result contains no `@` and holds the same characters as the input, less its `@` characters |
| SiteLookup.StripAtAppend | pyhaystack/client/entity/mixins/site.py:39 | Removing `@` commutes with concatenation |
| SiteLookup.StripAtFixed | pyhaystack/client/entity/mixins/site.py:39 | A string without `@` is unchanged by removing `@` |
| SiteLookup.StripAtDropsAt | pyhaystack/client/entity/mixins/site.py:39 | Inserting one `@` anywhere does not change the stripped form |
| SiteLookup.IdMatchIgnoresAt | pyhaystack/client/entity/mixins/site.py:39 | The identifier test gives the same answer whether or not the key has an `@` at any position |
| SiteLookup.Scan | pyhaystack/client/entity/mixins/site.py:37-43 | The scan returns a listed equipment that matches the key, or the given fallback query. It raises the missing-tag error only for `dis`/`navName`, and only when some equipment lacks them. Each equipment is tested by the helpers `SiteLookup.IdMatches` (line 39) and `SiteLookup.NameMatches` (line 42) |
| SiteLookup.Resolve | pyhaystack/client/entity/mixins/site.py:29-50 | A tag of the site is returned as its value, whatever the equipment list. Otherwise it returns a matching listed equipment, or the query `(siteRef==<dump(id)>) and (<key>)` with default limit, single and callback. With every equipment named, no `KeyError` arises. The fallback query is built by the helper `SiteLookup.Fallback`, which is `find_entity(key)` of line 49 |
| SiteLookup.ScanFirstMatch | pyhaystack/client/entity/mixins/site.py:37-43 | With all equipment named, the scan returns the first equipment, in list order, that matches by identifier or name |
| SiteLookup.ScanFallsBack | pyhaystack/client/entity/mixins/site.py:37-49 | With all equipment named, the scan falls back exactly when no equipment matches, in both directions |
| SiteLookup.ResolveFirstMatch | pyhaystack/client/entity/mixins/site.py:32-43 | A key that is not a site tag resolves to the first matching equipment in cache order |
| SiteLookup.ResolveFallsBack | pyhaystack/client/entity/mixins/site.py:32-50 | A key that is not a site tag gives the remote query if and only if no cached equipment matches |
| SiteLookup.NameMatchBeatsLaterIdMatch | pyhaystack/client/entity/mixins/site.py:37-43 | A name match on an earlier equipment wins over an identifier match on a later one |
| SiteCache.Perform | pyhaystack/client/entity/mixins/site.py:49-50 | Only the fallback talks to the session: it logs exactly one query and returns that query's answer. Every other outcome leaves the state alone |
| SiteCache.GetItem | pyhaystack/client/entity/mixins/site.py:29-50 | A tag of the site is answered with no load and no query. Any other key first loads the cache if it is absent, using one equipment query, and is then resolved against the cache |
| SiteCache.Equipments | pyhaystack/client/entity/mixins/site.py:59-70 | An existing cache is returned with no query. An absent one is replaced by the entities of exactly one equipment query, in order |
| SiteCache.AddEquip | pyhaystack/client/entity/mixins/site.py:79-87 | It issues exactly one query, with filter `(siteRef==<dump(id)>) and (equip)`, and appends that result's entities, in order, to the cache. An absent cache counts as empty. The helper `Haystack.Values` takes the entities out of the result items, as `.items()` and `equip[1]` do at lines 86-87 |
| SiteCache.Refresh | pyhaystack/client/entity/mixins/site.py:72-77 | Afterwards the cache is exactly one new query's entities, whatever was cached before, and exactly one query was issued |
| SiteCache.Iterate | pyhaystack/client/entity/mixins/site.py:52-57 | It yields exactly the cached equipment in cache order, loading it first if absent. An empty cache yields nothing |
| SiteCache.YieldEach | pyhaystack/client/entity/mixins/site.py:56-57 | The generator yields every element of the list it walks, in order, and nothing else |
| SiteCache.GetItemFindsEquipment | pyhaystack/client/entity/mixins/site.py:37-43 | On a loaded site, a key matching an equipment returns the first such equipment and issues no query |
| SiteCache.GetItemFallsBack | pyhaystack/client/entity/mixins/site.py:49-50 | On a loaded site, an unmatched key issues exactly one query, the key scoped to the site, and returns its answer |
| SiteTrace.Step | pyhaystack/client/entity/mixins/site.py:29-87 | One call keeps the site, only appends to the query log (at most two queries), and never drops an existing cache. Every call except `refresh` leaves an existing cache exactly as it was |
| SiteTrace.LoadedCacheStable | pyhaystack/client/entity/mixins/site.py:64-66 | Once the cache exists, any sequence of `equipments` reads and `site[key]` lookups without `refresh` leaves it unchanged, so later reads see the same list |
| SiteTrace.StepCoherent | pyhaystack/client/entity/mixins/site.py:29-87 | Each call keeps the cache equal to the whole result of some earlier equipment query |
| SiteTrace.RunCoherent | pyhaystack/client/entity/mixins/site.py:59-87 | After any sequence of calls the cache is never updated piecemeal: it is one whole equipment query's result |
| SiteTrace.ReadsQueryAtMostOnce | pyhaystack/client/entity/mixins/site.py:64-70 | Any number of reads of `equipments` issue one query if the cache was absent and none otherwise, and they all see the same list |
| SiteTrace.RefreshDiscardsCache | pyhaystack/client/entity/mixins/site.py:76-77 | Two site objects that differ only in their cache end in the same state after `refresh` |
| SiteTrace.AddEquipKeepsPrior | pyhaystack/client/entity/mixins/site.py:84-87 | If no cached equipment matches `equip`, loading goes to the query and keeps the stale entries in front of the new ones. This is why `refresh` empties the cache first |
| SiteRef.GetSite | pyhaystack/client/entity/mixins/site.py:95-100 | The session is asked for the `siteRef` tag's value as a single entity, with the callback unchanged. A missing `siteRef` is a `KeyError` |
| SiteRef.GetSiteOfEquipment | pyhaystack/client/entity/mixins/site.py:99-100 | An equipment whose `siteRef` holds a site's identifier asks for that identifier |

## Left out

- The session's transport, how `find_entity` and `get_entity` work inside, and the callback/asynchronous result contract. Queries are the abstract `Env.answer`. A callback is an opaque handle that is passed along.
- The `.result` unwrapping of the fallback query. Its answer is the ordered result items (`Item.Fetched`).
- The internals of `hszinc.dump_scalar` and of `str(id)`. Both are uninterpreted parameters.
- The `print` at line 68, because it is output only.
- The commented-out partial-name hint at lines 47-48, because it is not behaviour.
- A site that itself carries an `equip` tag. With such a tag, `self['equip']` returns the tag value, and `.items()` on it raises. So the members that can reach `_add_equip` require the tag's absence exactly when they reach it:
  - `SiteCache.GetItem` requires it only when the cache is absent and the key is not a tag of the site.
  - `SiteCache.Equipments` and `SiteCache.Iterate` require it only when the cache is absent.
  - `SiteCache.AddEquip` and `SiteCache.Refresh` always require it.
  - `SiteTrace.Step` requires the same as the call it makes (`Admissible`), and `SiteTrace.Run` requires it of every call when made (`RunAdmissible`).
- AddEquip: requires that the nested `self['equip']` falls back to the query. Both callers guarantee this, because they leave the cache absent or empty.
- A non-string key, and tag values other than marker, string, number, boolean and reference. Numbers are integral. Tag values are only compared for equality here.
- SiteTrace.RunCoherent: does not model a session query that raises, because `Env.answer` always returns a result. In the source, `_add_equip` and `refresh` set the cache to `[]` before the query (lines 76 and 84-85). If `request.result` raises at line 50, the cache stays `[]`, and every later `equipments` read returns that `[]` without a query until `refresh`. On that path the cache is not the result of any query, so `Coherent` fails, and the promises of `SiteCache.Equipments` and `SiteCache.Refresh` do not hold either. Nor does it model aliasing: `equipments` returns the live cache list itself (lines 66 and 70), and `__iter__` walks that same list (line 56). So a caller's `site.equipments.append(e)`, `.sort()` or `del site.equipments[0]` changes what later lookups scan and what iteration yields. The model's cache is an immutable `seq`, so the coherence and memoization results assume no caller changes the list in place.
- SiteCache.Iterate: loads the cache as soon as it is called. `__iter__` (lines 52-57) is a lazy generator, so its load runs only at the first `next()`. The model does not capture that timing.
- Concurrency and thread safety of the cache, because the source has none.
