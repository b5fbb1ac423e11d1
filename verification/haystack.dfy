/**
  The Haystack tag model the site mix-ins work on: references, tag values,
  entities, and the external collaborators (the tag-value serializer and the
  session's query endpoint), which are given as function-typed parameters.
 */
module Haystack {
  import opened Wrappers

  /** A Haystack reference: an identifier with an optional display string. */
  datatype Ref = Ref(name: string, dis: Option<string>)

  /** A tag value. Numbers are kept integral; their exact kind never matters here. */
  datatype Value =
    | Marker
    | Str(s: string)
    | Number(n: int, unit: string)
    | Bool(b: bool)
    | RefTo(ref: Ref)

  type Tags = map<string, Value>

  /** A node of the tag graph: an identifier and its tags. */
  datatype Entity = Entity(id: Ref, tags: Tags)

  /**
    The collaborators the mix-ins call out to:
    - `dump` is the tag-value serializer applied to an identifier;
    - `show` is the string conversion of an identifier;
    - `answer(n, f)` is what the session returns to a site object that has
      already sent `n` queries of its own, when this query's filter is `f`:
      the result mapping's
      (identifier, entity) items, in order.
   */
  datatype Env = Env(
    dump: Ref -> string,
    show: Ref -> string,
    answer: (nat, string) -> seq<(Ref, Entity)>)

  /** The entities of a query result, in the result's order. */
  function Values(items: seq<(Ref, Entity)>): (es: seq<Entity>)
    ensures |es| == |items|
    ensures forall i :: 0 <= i < |items| ==> es[i] == items[i].1
  {
    seq(|items|, i requires 0 <= i < |items| => items[i].1)
  }
}
