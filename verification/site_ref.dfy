/**
  `SiteRefMixin.get_site`: an entity carrying a `siteRef` tag asks the
  session for the single entity that tag refers to.
 */
module SiteRef {
  import opened Wrappers
  import opened Haystack
  import opened SiteFilter

  /** The arguments handed to the session's `get_entity`. */
  datatype GetCall = GetCall(ref: Value, callback: Option<Callback>, single: bool)

  /**
    The session call `get_site` makes, or a `KeyError` naming the missing
    tag when the entity has no `siteRef`.
   */
  function GetSite(e: Entity, callback: Option<Callback>): (r: Result<GetCall, string>)
    ensures r.Success? <==> "siteRef" in e.tags
    ensures r.Success? ==>
      r.value.ref == e.tags["siteRef"] && r.value.single && r.value.callback == callback
    ensures r.Failure? ==> r.error == "siteRef"
  {
    if "siteRef" in e.tags then Success(GetCall(e.tags["siteRef"], callback, true))
    else Failure("siteRef")
  }

  /**
    An equipment whose `siteRef` holds a site's identifier asks for that
    site, by identifier, as a single entity.
   */
  lemma GetSiteOfEquipment(equip: Entity, site: Entity, callback: Option<Callback>)
    requires "siteRef" in equip.tags && equip.tags["siteRef"] == RefTo(site.id)
    ensures GetSite(equip, callback) == Success(GetCall(RefTo(site.id), callback, true))
  {
  }
}
