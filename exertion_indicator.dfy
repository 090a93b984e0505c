/**
 * The exertion indicator: a progress bar out of 10 for an exercise's rating
 * of perceived exertion (RPE), coloured by how hard the set was.
 */
module ExertionIndicator {
  import opened Wrappers
  import opened Js

  /** `decideVariant`: the bar's colour for a rating, undefined counting as easy. */
  function DecideVariant(rpe: Option<real>): (variant: string)
    ensures variant == "success" <==> rpe.None? || rpe.value <= 7.0
    ensures variant == "warning" <==> rpe.Some? && 7.0 < rpe.value < 8.5
    ensures variant == "danger" <==> rpe.Some? && rpe.value >= 8.5
  {
    if rpe.None? || rpe.value <= 7.0 then "success"
    else if rpe.value < 8.5 then "warning"
    else "danger"
  }

  /** `decideTextColour`: dark text on the light warning colour, light text on any other. */
  function DecideTextColour(variant: string): (colour: string)
    ensures colour == "text-dark" <==> variant == "warning"
    ensures colour == "text-dark" || colour == "text-light"
  {
    if variant == "warning" then "text-dark" else "text-light"
  }

  /** The rendered bar: its value, its maximum, its colour and the colour of its label. */
  datatype Bar = Bar(now: real, max: real, variant: string, textColour: string)

  /** The component: nothing for a falsy rating (undefined or 0), otherwise the bar. */
  function Render(rpe: Option<real>): (bar: Option<Bar>)
    ensures bar.None? <==> !Truthy(rpe, 0.0)
    ensures bar.Some? ==> bar.value.now == rpe.value && bar.value.max == 10.0
    ensures bar.Some? ==> bar.value.variant == DecideVariant(rpe) && bar.value.textColour == DecideTextColour(bar.value.variant)
  {
    if !Truthy(rpe, 0.0) then None
    else
      var variant := DecideVariant(rpe);
      Some(Bar(rpe.value, 10.0, variant, DecideTextColour(variant)))
  }

  /**
   * A rendered bar has dark text exactly for ratings strictly between 7 and
   * 8.5, and a rating of 0 renders nothing although it would count as easy.
   */
  lemma {:induction false} RenderedColours(rpe: real)
    requires rpe != 0.0
    ensures Render(Some(rpe)).Some?
    ensures Render(Some(rpe)).value.textColour == "text-dark" <==> 7.0 < rpe < 8.5
    ensures Render(Some(rpe)).value.variant == "danger" ==> Render(Some(rpe)).value.textColour == "text-light"
    ensures Render(Some(0.0)).None? && DecideVariant(Some(0.0)) == "success"
  {
  }
}
