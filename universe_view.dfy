/**
 * The landing view of components/UniverseView.tsx: two world zones, the
 * Voyager (personal) and the Alchemist (professional), each highlighted
 * and focused while the pointer is over its lower part, and a gesture
 * effect that mirrors a world focus into the highlight.
 */
module UniverseView {
  import opened Wrappers
  import opened ViewStates
  import opened Actions
  import opened App

  /** `isBelowHoverBoundary`: the pointer is at or below 35% of the window height. */
  predicate IsBelowHoverBoundary(y: real, innerHeight: real)
  {
    y >= innerHeight * SuppressedBand
  }

  /**
   * The mouse zones and the gesture cursor agree on the boundary: on the
   * universe view, a world target under the cursor survives the shell's
   * suppression exactly when the cursor is below the hover boundary.
   */
  lemma BoundaryMatchesSuppression(y: real, stack: seq<seq<DomNode>>, innerHeight: real)
    requires FirstInStack(stack).Some? && FirstInStack(stack).value.World?
    ensures SyncedFocus(Universe, y, stack, innerHeight) == FirstInStack(stack) <==> IsBelowHoverBoundary(y, innerHeight)
    ensures SyncedFocus(Universe, y, stack, innerHeight).None? <==> !IsBelowHoverBoundary(y, innerHeight)
  {
  }

  /** The two world zones. */
  predicate IsZone(side: ViewState)
  {
    side == Personal || side == Professional
  }

  /** The highlight the gesture effect leaves for a focus: a world's view, none for no focus, else unchanged. */
  function HoverForFocus(gestureEnabled: bool, focus: Option<FocusTarget>, hovered: Option<ViewState>)
    : (r: Option<ViewState>)
    ensures !gestureEnabled ==> r == hovered
    ensures gestureEnabled && focus.Some? && focus.value.World? ==> r == Some(focus.value.view)
    ensures gestureEnabled && focus.None? ==> r.None?
    ensures focus.Some? && !focus.value.World? ==> r == hovered
  {
    if !gestureEnabled then hovered
    else if focus.Some? && focus.value.World? then Some(focus.value.view)
    else if focus.None? then None
    else hovered
  }

  class UniverseScreen {
    const actions: ActionLayer
    /** `hoveredSide`. */
    var hoveredSide: Option<ViewState>

    constructor (actions: ActionLayer)
      ensures this.actions == actions && hoveredSide.None?
    {
      this.actions := actions;
      hoveredSide := None;
    }

    /** The gesture effect, with the `gestureEnabled` prop of the current render. */
    method OnFocusChange(gestureEnabled: bool)
      modifies this
      ensures hoveredSide == HoverForFocus(gestureEnabled, actions.focus, old(hoveredSide))
    {
      if !gestureEnabled {
        return;
      }
      if actions.focus.Some? && actions.focus.value.World? {
        hoveredSide := Some(actions.focus.value.view);
        return;
      }
      if actions.focus.None? {
        hoveredSide := None;
      }
    }

    /**
     * `setFocus`, and the gesture effect when React sees a new focus: every
     * target object is a fresh literal, so only `null` over `null` counts
     * as no change.
     */
    method Focus(target: Option<FocusTarget>, gestureEnabled: bool)
      modifies this, actions
      ensures actions.focus == target && actions.Signals() == old(actions.Signals())
      ensures hoveredSide ==
                if old(actions.focus).None? && target.None? then old(hoveredSide)
                else HoverForFocus(gestureEnabled, target, old(hoveredSide))
    {
      var changed := target.Some? || actions.focus.Some?;
      actions.SetFocus(target);
      if changed {
        OnFocusChange(gestureEnabled);
      }
    }

    /**
     * A mouse move over zone `side` at height `clientY`: below the boundary
     * the zone is highlighted and focused; above it the highlight goes,
     * and the focus too if it is this zone.
     */
    method MouseMove(side: ViewState, clientY: real, innerHeight: real, gestureEnabled: bool)
      requires IsZone(side)
      modifies this, actions
      ensures IsBelowHoverBoundary(clientY, innerHeight) ==>
                hoveredSide == Some(side) && actions.focus == Some(World(side))
      ensures !IsBelowHoverBoundary(clientY, innerHeight) ==>
                hoveredSide.None?
                && actions.focus == (if old(actions.focus) == Some(World(side)) then None else old(actions.focus))
      ensures actions.Signals() == old(actions.Signals())
    {
      if IsBelowHoverBoundary(clientY, innerHeight) {
        hoveredSide := Some(side);
        Focus(Some(World(side)), gestureEnabled);
      } else {
        hoveredSide := None;
        if actions.focus == Some(World(side)) {
          Focus(None, gestureEnabled);
        }
      }
    }

    /** Leaving zone `side` drops the highlight, and the focus if it is this zone. */
    method MouseLeave(side: ViewState, gestureEnabled: bool)
      requires IsZone(side)
      modifies this, actions
      ensures hoveredSide.None?
      ensures actions.focus == (if old(actions.focus) == Some(World(side)) then None else old(actions.focus))
      ensures actions.Signals() == old(actions.Signals())
    {
      hoveredSide := None;
      if actions.focus == Some(World(side)) {
        Focus(None, gestureEnabled);
      }
    }

    /** Clicking zone `side` focuses and confirms it and selects its view. */
    method Click(side: ViewState, gestureEnabled: bool) returns (selected: ViewState)
      requires IsZone(side)
      modifies this, actions
      ensures selected == side
      ensures actions.focus == Some(World(side)) && actions.confirmFocus == Some(World(side))
      ensures actions.confirmId == old(actions.confirmId) + 1
      ensures actions.summonId == old(actions.summonId) && actions.dismissId == old(actions.dismissId)
      ensures actions.scrollSignal == old(actions.scrollSignal)
      ensures hoveredSide == if gestureEnabled then Some(side) else old(hoveredSide)
    {
      Focus(Some(World(side)), gestureEnabled);
      actions.Confirm(Omitted);
      selected := side;
    }

    /** Hovering the guide button focuses it; the highlight is left as it is. */
    method GuideEnter(gestureEnabled: bool)
      modifies this, actions
      ensures actions.focus == Some(Guide) && actions.Signals() == old(actions.Signals())
      ensures hoveredSide == old(hoveredSide)
    {
      Focus(Some(Guide), gestureEnabled);
    }

    method GuideLeave(gestureEnabled: bool)
      modifies this, actions
      ensures actions.focus == (if old(actions.focus) == Some(Guide) then None else old(actions.focus))
      ensures actions.Signals() == old(actions.Signals())
      ensures hoveredSide == (if old(actions.focus) == Some(Guide) && gestureEnabled then None else old(hoveredSide))
    {
      if actions.focus == Some(Guide) {
        Focus(None, gestureEnabled);
      }
    }

    /** The guide button focuses and confirms itself and asks for the guide to be toggled. */
    method GuideClick(guideOpen: bool, gestureEnabled: bool) returns (requestOpen: bool)
      modifies this, actions
      ensures requestOpen == !guideOpen
      ensures actions.focus == Some(Guide) && actions.confirmFocus == Some(Guide)
      ensures actions.confirmId == old(actions.confirmId) + 1
      ensures actions.summonId == old(actions.summonId) && actions.dismissId == old(actions.dismissId)
      ensures actions.scrollSignal == old(actions.scrollSignal)
      ensures hoveredSide == old(hoveredSide)
    {
      Focus(Some(Guide), gestureEnabled);
      actions.Confirm(Omitted);
      requestOpen := !guideOpen;
    }
  }

  /**
   * In gesture mode the highlight follows a world focus, whoever set it:
   * after the effect, a world focus and the highlight name the same view.
   */
  lemma GestureHoverFollowsFocus(focus: Option<FocusTarget>, hovered: Option<ViewState>)
    requires focus.Some? && focus.value.World?
    ensures HoverForFocus(true, focus, hovered) == Some(focus.value.view)
    ensures HoverForFocus(false, focus, hovered) == hovered
  {
  }
}
