/**
  Indexed lookup on a site (`SiteMixin.__getitem__`) as a pure decision:
  a tag of the site, else the first cached equipment matching by identifier
  or by name, else a site-scoped query with the key as filter expression.
 */
module SiteLookup {
  import opened Wrappers
  import opened Haystack
  import opened SiteFilter

  /** `s` with every '@' removed (Python's `s.replace('@', '')`). */
  function StripAt(s: string): (r: string)
    ensures '@' !in r
    ensures multiset(r) == multiset(s)['@' := 0]
  {
    if |s| == 0 then []
    else
      assert s == [s[0]] + s[1..];
      (if s[0] == '@' then [] else [s[0]]) + StripAt(s[1..])
  }

  /** The identifier test: equal once '@' is removed from both sides. */
  predicate IdMatches(key: string, e: Entity, show: Ref -> string) {
    StripAt(key) == StripAt(show(e.id))
  }

  /** The name test: the key is the `dis` or the `navName` string. */
  predicate NameMatches(key: string, e: Entity) {
    || ("dis" in e.tags && e.tags["dis"] == Str(key))
    || ("navName" in e.tags && e.tags["navName"] == Str(key))
  }

  predicate Matches(key: string, e: Entity, show: Ref -> string) {
    IdMatches(key, e, show) || NameMatches(key, e)
  }

  /** An equipment on which the name test cannot raise. */
  predicate Named(e: Entity) {
    "dis" in e.tags && "navName" in e.tags
  }

  predicate AllNamed(equips: seq<Entity>) {
    forall i :: 0 <= i < |equips| ==> Named(equips[i])
  }

  /** How `site[key]` is answered. */
  datatype Lookup =
    | TagValue(value: Value)     // a tag of the site itself
    | Equip(equip: Entity)       // a cached equipment
    | Remote(call: FindCall)     // falls back to a scoped query
    | MissingTag(tag: string)    // KeyError on an equipment lacking `dis`/`navName`

  /**
    The scan over the cached equipment, in order. `fallback` is the query
    issued when nothing matches.
   */
  function Scan(key: string, equips: seq<Entity>, show: Ref -> string, fallback: FindCall): (r: Lookup)
    ensures !r.TagValue?
    ensures r.Remote? ==> r.call == fallback
    ensures r.Equip? ==> r.equip in equips && Matches(key, r.equip, show)
    ensures r.MissingTag? ==>
      (r.tag == "dis" || r.tag == "navName") &&
      exists i :: 0 <= i < |equips| && !Named(equips[i])
  {
    if |equips| == 0 then Remote(fallback)
    else
      var e := equips[0];
      if IdMatches(key, e, show) then Equip(e)
      else if "dis" !in e.tags then MissingTag("dis")
      else if e.tags["dis"] == Str(key) then Equip(e)
      else if "navName" !in e.tags then MissingTag("navName")
      else if e.tags["navName"] == Str(key) then Equip(e)
      else
        var r := Scan(key, equips[1..], show, fallback);
        assert r.MissingTag? ==> exists i :: 1 <= i < |equips| && !Named(equips[i]) by {
          if r.MissingTag? {
            var j :| 0 <= j < |equips[1..]| && !Named(equips[1..][j]);
            assert equips[1..][j] == equips[j + 1];
          }
        }
        r
  }

  /** The query `site[key]` falls back to: `find_entity(key)` with defaults. */
  function Fallback(site: Entity, key: string, env: Env): FindCall {
    FindEntity(site.id, env.dump, Some(key), false, None, None)
  }

  /** `site[key]` decided against the equipment list `equips`. */
  function Resolve(key: string, site: Entity, equips: seq<Entity>, env: Env): (r: Lookup)
    ensures key in site.tags ==> r == TagValue(site.tags[key])
    ensures key !in site.tags ==> !r.TagValue?
    ensures r.Equip? ==> r.equip in equips && Matches(key, r.equip, env.show)
    ensures r.Remote? ==>
      r.call.filter == "(siteRef==" + env.dump(site.id) + ") and (" + key + ")" &&
      r.call.limit == None && !r.call.single && r.call.callback == None
    ensures AllNamed(equips) ==> !r.MissingTag?
  {
    if key in site.tags then TagValue(site.tags[key])
    else Scan(key, equips, env.show, Fallback(site, key, env))
  }

  /** The scan returns the first matching equipment, in list order. */
  lemma {:induction false} ScanFirstMatch(key: string, equips: seq<Entity>, show: Ref -> string,
                                          fallback: FindCall, i: nat)
    requires AllNamed(equips)
    requires i < |equips| && Matches(key, equips[i], show)
    requires forall j :: 0 <= j < i ==> !Matches(key, equips[j], show)
    ensures Scan(key, equips, show, fallback) == Equip(equips[i])
    decreases i
  {
    if i > 0 {
      assert !Matches(key, equips[0], show);
      assert Named(equips[0]);
      var rest := equips[1..];
      forall j | 0 <= j < |rest| ensures Named(rest[j]) {
        assert rest[j] == equips[j + 1];
      }
      forall j | 0 <= j < i - 1 ensures !Matches(key, rest[j], show) {
        assert rest[j] == equips[j + 1];
      }
      ScanFirstMatch(key, rest, show, fallback, i - 1);
    }
  }

  /** The scan falls back to the query exactly when no equipment matches. */
  lemma {:induction false} ScanFallsBack(key: string, equips: seq<Entity>, show: Ref -> string,
                                         fallback: FindCall)
    requires AllNamed(equips)
    ensures Scan(key, equips, show, fallback) == Remote(fallback)
        <==> forall j :: 0 <= j < |equips| ==> !Matches(key, equips[j], show)
  {
    if |equips| > 0 {
      var rest := equips[1..];
      forall j | 0 <= j < |rest| ensures Named(rest[j]) {
        assert rest[j] == equips[j + 1];
      }
      ScanFallsBack(key, rest, show, fallback);
      assert Named(equips[0]);
      if !Matches(key, equips[0], show) {
        assert (forall j :: 0 <= j < |rest| ==> !Matches(key, rest[j], show))
           <==> (forall j :: 0 <= j < |equips| ==> !Matches(key, equips[j], show)) by {
          if forall j :: 0 <= j < |rest| ==> !Matches(key, rest[j], show) {
            forall j | 0 <= j < |equips| ensures !Matches(key, equips[j], show) {
              if j > 0 { assert equips[j] == rest[j - 1]; }
            }
          }
          if forall j :: 0 <= j < |equips| ==> !Matches(key, equips[j], show) {
            forall j | 0 <= j < |rest| ensures !Matches(key, rest[j], show) {
              assert rest[j] == equips[j + 1];
            }
          }
        }
      }
    }
  }

  /**
    A key that is not a tag of the site resolves to the first equipment,
    in cache order, matching by identifier or by name.
   */
  lemma ResolveFirstMatch(key: string, site: Entity, equips: seq<Entity>, env: Env, i: nat)
    requires key !in site.tags && AllNamed(equips)
    requires i < |equips| && Matches(key, equips[i], env.show)
    requires forall j :: 0 <= j < i ==> !Matches(key, equips[j], env.show)
    ensures Resolve(key, site, equips, env) == Equip(equips[i])
  {
    ScanFirstMatch(key, equips, env.show, Fallback(site, key, env), i);
  }

  /**
    A key that is not a tag of the site falls back to the scoped query
    exactly when no cached equipment matches it.
   */
  lemma ResolveFallsBack(key: string, site: Entity, equips: seq<Entity>, env: Env)
    requires key !in site.tags && AllNamed(equips)
    ensures Resolve(key, site, equips, env).Remote?
        <==> forall j :: 0 <= j < |equips| ==> !Matches(key, equips[j], env.show)
  {
    ScanFallsBack(key, equips, env.show, Fallback(site, key, env));
  }

  /**
    Matching is decided per equipment: a name match on an earlier
    equipment wins over an identifier match on a later one.
   */
  lemma NameMatchBeatsLaterIdMatch(key: string, site: Entity, equips: seq<Entity>, env: Env,
                                   i: nat, j: nat)
    requires key !in site.tags && AllNamed(equips)
    requires i < j < |equips|
    requires NameMatches(key, equips[i]) && IdMatches(key, equips[j], env.show)
    requires forall k :: 0 <= k < i ==> !Matches(key, equips[k], env.show)
    ensures Resolve(key, site, equips, env) == Equip(equips[i])
  {
    ResolveFirstMatch(key, site, equips, env, i);
  }

  /** Removing '@' commutes with concatenation. */
  lemma {:induction false} StripAtAppend(a: string, b: string)
    ensures StripAt(a + b) == StripAt(a) + StripAt(b)
  {
    if |a| > 0 {
      assert (a + b)[1..] == a[1..] + b;
      StripAtAppend(a[1..], b);
    } else {
      assert a + b == b;
    }
  }

  /** A string without '@' is left as it is; so removing twice is removing once. */
  lemma {:induction false} StripAtFixed(s: string)
    requires '@' !in s
    ensures StripAt(s) == s
  {
    if |s| > 0 {
      assert s[0] in s;
      assert forall c :: c in s[1..] ==> c in s;
      StripAtFixed(s[1..]);
    }
  }

  /** Removing '@' from a string with one more '@' gives the same result. */
  lemma StripAtDropsAt(before: string, after: string)
    ensures StripAt(before + "@" + after) == StripAt(before + after)
  {
    var at: string := "@";
    assert StripAt(at) == [] by {
      assert at[1..] == [];
    }
    assert before + "@" + after == before + (at + after);
    StripAtAppend(at, after);
    StripAtAppend(before, at + after);
    StripAtAppend(before, after);
  }

  /**
    The identifier test ignores '@' anywhere in the key: `@abc`, `abc` and
    `a@bc` all select the equipment whose identifier shows as `@abc`.
   */
  lemma IdMatchIgnoresAt(before: string, after: string, e: Entity, show: Ref -> string)
    ensures IdMatches(before + "@" + after, e, show) <==> IdMatches(before + after, e, show)
  {
    StripAtDropsAt(before, after);
  }
}
