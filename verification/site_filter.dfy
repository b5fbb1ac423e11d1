/**
  Site-scoped queries (`SiteMixin.find_entity`): the caller's filter
  expression is conjoined with `siteRef==<serialized site id>` and handed to
  the session together with the caller's other arguments.
 */
module SiteFilter {
  import opened Wrappers
  import opened Haystack

  /** An opaque handle standing for the caller's completion callback. */
  datatype Callback = Callback(handle: nat)

  /** The arguments handed to the session's `find_entity`. */
  datatype FindCall = FindCall(
    filter: string,
    limit: Option<int>,
    single: bool,
    callback: Option<Callback>)

  /** What precedes the caller's expression in a conjoined filter. */
  function ScopePrefix(siteRef: string): string {
    "(siteRef==" + siteRef + ") and ("
  }

  /**
    The filter restricting `filterExpr` to the site whose serialized
    identifier is `siteRef`; it can always be taken apart again.
   */
  function ScopedFilter(siteRef: string, filterExpr: Option<string>): (f: string)
    ensures Unscope(siteRef, f) == Some(filterExpr)
  {
    match filterExpr
    case None =>
      "siteRef==" + siteRef
    case Some(expr) =>
      var f := ScopePrefix(siteRef) + expr + ")";
      assert f[0] == '(' && ("siteRef==" + siteRef)[0] == 's';
      assert f[..|ScopePrefix(siteRef)|] == ScopePrefix(siteRef);
      assert f[|ScopePrefix(siteRef)|..|f| - 1] == expr;
      f
  }

  /**
    Recovers the caller's expression from a filter scoped to `siteRef`:
    `Some(None)` for the bare site filter, `Some(Some(e))` for a conjunction
    with `e`, and `None` for a string of neither shape.
   */
  function Unscope(siteRef: string, f: string): Option<Option<string>> {
    var prefix := ScopePrefix(siteRef);
    if f == "siteRef==" + siteRef then Some(None)
    else if |prefix| < |f| && f[..|prefix|] == prefix && f[|f| - 1] == ')' then
      Some(Some(f[|prefix|..|f| - 1]))
    else None
  }

  /**
    `find_entity(filter_expr, single, limit, callback)` on the site `id`:
    the session receives the scoped filter and the other arguments as given.
   */
  function FindEntity(id: Ref, dump: Ref -> string, filterExpr: Option<string>,
                      single: bool, limit: Option<int>, callback: Option<Callback>): (call: FindCall)
    ensures filterExpr.None? ==> call.filter == "siteRef==" + dump(id)
    ensures filterExpr.Some? ==>
      call.filter == "(siteRef==" + dump(id) + ") and (" + filterExpr.value + ")"
    ensures Unscope(dump(id), call.filter) == Some(filterExpr)
    ensures call.limit == limit && call.single == single && call.callback == callback
  {
    FindCall(ScopedFilter(dump(id), filterExpr), limit, single, callback)
  }

  /** The caller's expression appears verbatim, right after the site clause. */
  lemma ExpressionVerbatim(siteRef: string, expr: string)
    ensures var f := ScopedFilter(siteRef, Some(expr));
      |ScopePrefix(siteRef)| + |expr| < |f| &&
      f[|ScopePrefix(siteRef)|..|ScopePrefix(siteRef)| + |expr|] == expr
  {
  }

  /** Different caller expressions give different filters for the same site. */
  lemma ScopedFilterInjective(siteRef: string, a: Option<string>, b: Option<string>)
    requires ScopedFilter(siteRef, a) == ScopedFilter(siteRef, b)
    ensures a == b
  {
  }
}
