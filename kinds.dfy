/** The closed set of analysis categories, `'face' | 'group' | 'crowd'`, shared by the
    record schema, the create route, both analysis pages and the gallery. */
module Kinds {
  import opened Common

  datatype Kind = Face | Group | Crowd

  /** The text the category is written as in URLs, request paths and stored records. */
  function Name(k: Kind): string {
    match k
    case Face => "face"
    case Group => "group"
    case Crowd => "crowd"
  }

  /** `['face', 'group', 'crowd']`, the list both pages and the create route test against. */
  const ValidTypes: seq<string> := ["face", "group", "crowd"]

  /** `validTypes.includes(type)`: the category a path parameter names, if any. */
  function Parse(s: string): (r: Option<Kind>)
    ensures r.Some? <==> s in ValidTypes
    ensures r.Some? ==> Name(r.value) == s
  {
    if s == "face" then Some(Face)
    else if s == "group" then Some(Group)
    else if s == "crowd" then Some(Crowd)
    else None
  }

  lemma ParseName(k: Kind)
    ensures Parse(Name(k)) == Some(k)
  {
  }

  lemma NameInjective(j: Kind, k: Kind)
    requires Name(j) == Name(k)
    ensures j == k
  {
    ParseName(j);
    ParseName(k);
  }
}
