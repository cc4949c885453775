/**
 * The application's three views (`ViewState` in types.ts). A world target's
 * `data-focus-id` attribute is cast straight to a view, so any other string
 * that reaches a view is kept as `Unlisted`.
 */
module ViewStates {

  datatype ViewState = Universe | Personal | Professional | Unlisted(name: string)

  /** The enum's string value. */
  function ViewName(v: ViewState): string
  {
    match v
    case Universe => "UNIVERSE"
    case Personal => "PERSONAL"
    case Professional => "PROFESSIONAL"
    case Unlisted(name) => name
  }

  /** The cast `id as ViewState`: the string names the view it spells. */
  function ViewOfId(id: string): (v: ViewState)
    ensures ViewName(v) == id
    ensures v.Unlisted? <==> id !in {"UNIVERSE", "PERSONAL", "PROFESSIONAL"}
  {
    if id == "UNIVERSE" then Universe
    else if id == "PERSONAL" then Personal
    else if id == "PROFESSIONAL" then Professional
    else Unlisted(id)
  }

  /** A view written without the cast: one of the enum's members, or a name outside them. */
  predicate Canonical(v: ViewState)
  {
    v.Unlisted? ==> v.name !in {"UNIVERSE", "PERSONAL", "PROFESSIONAL"}
  }

  /** Casting a view's own name gives that view back. */
  lemma ViewNameRoundTrip(v: ViewState)
    requires Canonical(v)
    ensures ViewOfId(ViewName(v)) == v
  {
  }
}
