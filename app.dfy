/**
 * The application shell (App.tsx): resolving a focus target from the
 * elements under the cursor, mapping gestures to actions, and the effects
 * that turn confirm and dismiss signals into the current view and the
 * guide's visibility. The DOM is abstracted: an element is its
 * `data-focus-*` attributes, an element with its ancestors is a chain, and
 * `elementsFromPoint` is a stack of such chains supplied by the caller.
 */
module App {
  import opened Wrappers
  import opened ViewStates
  import opened GestureLogic
  import opened Actions

  /** An element's `data-focus-type`, `data-focus-id` and `data-focus-url` (absent is `None`). */
  datatype DomNode = DomNode(focusType: Option<string>, focusId: Option<string>, focusUrl: Option<string>)

  /** JavaScript truthiness of an optional string attribute: present and not empty. */
  predicate Truthy(a: Option<string>)
  {
    a.Some? && a.value != ""
  }

  /** Fraction of the window height above which a world target is not focused on the universe view. */
  const SuppressedBand: real := 0.35

  /** Milliseconds after a gesture cursor update during which mouse moves are ignored. */
  const MouseQuiet: real := 800.0

  // ------------------------------------------------------ focus resolution

  /**
   * One step of `parseFocusTarget`'s walk: the target this node names, if
   * it names one with what that kind needs. 'toggle-gesture' and unknown
   * kinds name nothing.
   */
  function Resolve(node: DomNode): (r: Option<FocusTarget>)
    ensures r.Some? ==> Truthy(node.focusType)
    ensures var t := node.focusType;
      && (r.Some? && r.value.World? <==> t == Some("world") && Truthy(node.focusId))
      && (r.Some? && r.value.Place? <==> t == Some("place") && Truthy(node.focusId))
      && (r.Some? && r.value.Project? <==> t == Some("project") && Truthy(node.focusId))
      && (r.Some? && r.value.Link? <==> t == Some("link") && Truthy(node.focusUrl))
      && (r == Some(Guide) <==> t == Some("guide"))
      && (r == Some(GuideClose) <==> t == Some("guide-close"))
      && (r == Some(Back) <==> t == Some("back"))
      && r != Some(ToggleGesture)
    ensures r.Some? && r.value.World? ==> ViewName(r.value.view) == node.focusId.value
    ensures r.Some? && (r.value.Place? || r.value.Project?) ==> r.value.id == node.focusId.value
    ensures r.Some? && r.value.Link? ==> r.value.url == node.focusUrl.value
  {
    if !Truthy(node.focusType) then None
    else
      var t := node.focusType.value;
      if t == "world" && Truthy(node.focusId) then Some(World(ViewOfId(node.focusId.value)))
      else if t == "place" && Truthy(node.focusId) then Some(Place(node.focusId.value))
      else if t == "project" && Truthy(node.focusId) then Some(Project(node.focusId.value))
      else if t == "link" && Truthy(node.focusUrl) then Some(Link(node.focusUrl.value))
      else if t == "guide" then Some(Guide)
      else if t == "guide-close" then Some(GuideClose)
      else if t == "back" then Some(Back)
      else None
  }

  /** The index of the first present entry, or the length when there is none. */
  function FirstSomeIndex<T>(xs: seq<Option<T>>): (i: nat)
    ensures i <= |xs|
    ensures forall j :: 0 <= j < i ==> xs[j].None?
    ensures i < |xs| ==> xs[i].Some?
  {
    if xs == [] then 0
    else if xs[0].Some? then 0
    else 1 + FirstSomeIndex(xs[1..])
  }

  /** The first present entry. */
  function FirstSome<T>(xs: seq<Option<T>>): (r: Option<T>)
    ensures r.None? <==> forall j :: 0 <= j < |xs| ==> xs[j].None?
  {
    var i := FirstSomeIndex(xs);
    if i < |xs| then xs[i] else None
  }

  /** What each node of a chain names on its own. */
  function Resolutions(chain: seq<DomNode>): (rs: seq<Option<FocusTarget>>)
    ensures |rs| == |chain|
    ensures forall i :: 0 <= i < |chain| ==> rs[i] == Resolve(chain[i])
  {
    seq(|chain|, i requires 0 <= i < |chain| => Resolve(chain[i]))
  }

  /** The target of the nearest node, from the element outwards, that names one. */
  function FirstFocus(chain: seq<DomNode>): Option<FocusTarget>
  {
    FirstSome(Resolutions(chain))
  }

  /** An earlier entry that is present is the first present one. */
  lemma FirstSomeAt<T>(xs: seq<Option<T>>, i: nat)
    requires i < |xs| && xs[i].Some?
    requires forall j :: 0 <= j < i ==> xs[j].None?
    ensures FirstSomeIndex(xs) == i && FirstSome(xs) == xs[i]
  {
  }

  /**
   * `parseFocusTarget(el)`: walks from the element through its ancestors
   * and returns the first target named, skipping nodes that name none.
   */
  method ParseFocusTarget(chain: seq<DomNode>) returns (r: Option<FocusTarget>)
    ensures r == FirstFocus(chain)
    ensures r.None? <==> forall i :: 0 <= i < |chain| ==> Resolve(chain[i]).None?
  {
    var i := 0;
    while i < |chain|
      invariant 0 <= i <= |chain|
      invariant forall j :: 0 <= j < i ==> Resolve(chain[j]).None?
    {
      var target := Resolve(chain[i]);
      if target.Some? {
        FirstSomeAt(Resolutions(chain), i);
        return target;
      }
      i := i + 1;
    }
    assert forall j :: 0 <= j < |chain| ==> Resolutions(chain)[j].None?;
    return None;
  }

  /** What each element under the cursor resolves to. */
  function StackResolutions(stack: seq<seq<DomNode>>): (rs: seq<Option<FocusTarget>>)
    ensures |rs| == |stack|
    ensures forall k :: 0 <= k < |stack| ==> rs[k] == FirstFocus(stack[k])
  {
    seq(|stack|, k requires 0 <= k < |stack| => FirstFocus(stack[k]))
  }

  /** The first element of `elementsFromPoint` that resolves to a target. */
  function FirstInStack(stack: seq<seq<DomNode>>): Option<FocusTarget>
  {
    FirstSome(StackResolutions(stack))
  }

  /**
   * The target `syncFocusFromCursor` settles on: the first resolving element,
   * except that a world target on the universe view is dropped while the
   * cursor is in the top 35% of the window.
   */
  function SyncedFocus(view: ViewState, y: real, stack: seq<seq<DomNode>>, innerHeight: real): (r: Option<FocusTarget>)
    ensures r.None? || r == FirstInStack(stack)
    ensures r != FirstInStack(stack) <==>
              view == Universe && FirstInStack(stack).Some? && FirstInStack(stack).value.World?
              && y < innerHeight * SuppressedBand
  {
    var found := FirstInStack(stack);
    if view == Universe && found.Some? && found.value.World? && y < innerHeight * SuppressedBand then None
    else found
  }

  // ----------------------------------------------------------- focus equality

  /** A focus whose world view, if any, is written without the cast. */
  predicate CanonicalFocus(f: Option<FocusTarget>)
  {
    f.Some? && f.value.World? ==> Canonical(f.value.view)
  }

  /**
   * `isSameFocus`: two nulls are equal, null and a target are not; targets
   * are equal when their kinds agree and so do their ids (world views by
   * their string) or urls; kinds without an id are equal by kind. On
   * canonical targets this is equality; it is always reflexive and symmetric.
   */
  function SameFocus(a: Option<FocusTarget>, b: Option<FocusTarget>): (r: bool)
    ensures a.None? || b.None? ==> (r <==> a.None? && b.None?)
    ensures CanonicalFocus(a) && CanonicalFocus(b) ==> (r <==> a == b)
    ensures a == b ==> r
  {
    if a.None? || b.None? then a.None? && b.None?
    else
      match (a.value, b.value)
      case (World(v), World(w)) => ViewName(v) == ViewName(w)
      case (Place(i), Place(j)) => i == j
      case (Project(i), Project(j)) => i == j
      case (Link(u), Link(w)) => u == w
      case (Guide, Guide) => true
      case (GuideClose, GuideClose) => true
      case (ToggleGesture, ToggleGesture) => true
      case (Back, Back) => true
      case _ => false
  }

  /** `isSameFocus` does not depend on the order of its arguments. */
  lemma SameFocusSymmetric(a: Option<FocusTarget>, b: Option<FocusTarget>)
    ensures SameFocus(a, b) == SameFocus(b, a)
  {
  }

  /** Two canonical views with the same string are the same view. */
  lemma CanonicalByName(v: ViewState, w: ViewState)
    requires Canonical(v) && Canonical(w) && ViewName(v) == ViewName(w)
    ensures v == w
  {
    ViewNameRoundTrip(v);
    ViewNameRoundTrip(w);
  }

  // ----------------------------------------------------------------- shell

  datatype Cursor = Cursor(x: real, y: real)

  /** The state `App` keeps, and the action layer it owns. */
  class AppShell {
    const actions: ActionLayer
    var view: ViewState
    var guideOpen: bool
    var gestureEnabled: bool
    /** `virtualCursor` and `virtualCursorRef`, which are always written together. */
    var virtualCursor: Option<Cursor>
    /** `lastGestureAtRef`. */
    var lastGestureAt: real

    /** The initial state: the universe view, gestures off, the cursor parked off-screen. */
    constructor ()
      ensures fresh(actions)
      ensures view == Universe && !guideOpen && !gestureEnabled
      ensures virtualCursor == Some(Cursor(-1000.0, -1000.0)) && lastGestureAt == 0.0
      ensures actions.focus.None? && actions.confirmFocus.None?
      ensures actions.confirmId == 0 && actions.summonId == 0 && actions.dismissId == 0
    {
      actions := new ActionLayer();
      view := Universe;
      guideOpen := false;
      gestureEnabled := false;
      virtualCursor := Some(Cursor(-1000.0, -1000.0));
      lastGestureAt := 0.0;
    }

    /**
     * The window's `mousemove` handler at time `now`: ignored while gesture
     * mode is on and a gesture cursor arrived less than 800 ms ago.
     */
    method OnMouseMove(now: real, x: real, y: real)
      modifies this
      ensures virtualCursor ==
                if gestureEnabled && now - lastGestureAt < MouseQuiet then old(virtualCursor) else Some(Cursor(x, y))
      ensures view == old(view) && guideOpen == old(guideOpen) && gestureEnabled == old(gestureEnabled)
      ensures lastGestureAt == old(lastGestureAt)
    {
      if gestureEnabled && now - lastGestureAt < MouseQuiet {
        return;
      }
      virtualCursor := Some(Cursor(x, y));
    }

    /** `onCursor` of the gesture controller: a cursor from the hand wins and stamps the time. */
    method OnGestureCursor(now: real, position: Option<Cursor>)
      modifies this
      ensures position.None? ==> virtualCursor == old(virtualCursor) && lastGestureAt == old(lastGestureAt)
      ensures position.Some? ==> virtualCursor == position && lastGestureAt == now
      ensures view == old(view) && guideOpen == old(guideOpen) && gestureEnabled == old(gestureEnabled)
    {
      if position.None? {
        return;
      }
      lastGestureAt := now;
      virtualCursor := position;
    }

    /** The gesture toggle button. */
    method ToggleGestures()
      modifies this
      ensures gestureEnabled == !old(gestureEnabled)
      ensures view == old(view) && guideOpen == old(guideOpen) && virtualCursor == old(virtualCursor)
      ensures lastGestureAt == old(lastGestureAt)
    {
      gestureEnabled := !gestureEnabled;
    }

    /**
     * The hover effect: in gesture mode, the element under the cursor
     * (`chain`, from `elementFromPoint`) sets the focus when it differs.
     */
    method OnCursorHover(chain: seq<DomNode>)
      modifies actions
      ensures var next := FirstFocus(chain);
        actions.focus ==
          if !gestureEnabled || virtualCursor.None? || SameFocus(next, old(actions.focus)) then old(actions.focus)
          else next
      ensures actions.confirmFocus == old(actions.confirmFocus) && actions.confirmId == old(actions.confirmId)
      ensures actions.summonId == old(actions.summonId) && actions.dismissId == old(actions.dismissId)
      ensures actions.scrollSignal == old(actions.scrollSignal)
    {
      if !gestureEnabled || virtualCursor.None? {
        return;
      }
      var nextFocus := ParseFocusTarget(chain);
      if !SameFocus(nextFocus, actions.focus) {
        actions.SetFocus(nextFocus);
      }
    }

    /**
     * `syncFocusFromCursor`: without a cursor nothing happens and the result
     * is `undefined`; otherwise the first resolving element under the cursor
     * (`stack`, from `elementsFromPoint`), less a suppressed world target,
     * becomes the focus if it differs, and is returned.
     */
    method SyncFocusFromCursor(stack: seq<seq<DomNode>>, innerHeight: real) returns (r: ConfirmArg)
      modifies actions
      ensures virtualCursor.None? ==> r == Omitted && actions.focus == old(actions.focus)
      ensures virtualCursor.Some? ==>
                var next := SyncedFocus(view, virtualCursor.value.y, stack, innerHeight);
                && r == Given(next)
                && actions.focus == if SameFocus(next, old(actions.focus)) then old(actions.focus) else next
      ensures actions.confirmFocus == old(actions.confirmFocus) && actions.confirmId == old(actions.confirmId)
      ensures actions.summonId == old(actions.summonId) && actions.dismissId == old(actions.dismissId)
      ensures actions.scrollSignal == old(actions.scrollSignal)
    {
      if virtualCursor.None? {
        return Omitted;
      }
      var y := virtualCursor.value.y;
      var nextFocus: Option<FocusTarget> := None;
      var k := 0;
      while k < |stack|
        invariant 0 <= k <= |stack|
        invariant forall j :: 0 <= j < k ==> FirstFocus(stack[j]).None?
        invariant unchanged(actions)
      {
        var resolved := ParseFocusTarget(stack[k]);
        if resolved.Some? {
          nextFocus := resolved;
          FirstSomeAt(StackResolutions(stack), k);
          break;
        }
        k := k + 1;
      }
      if k == |stack| {
        assert forall j :: 0 <= j < |stack| ==> StackResolutions(stack)[j].None?;
      }
      assert nextFocus == FirstInStack(stack);
      if view == Universe && nextFocus.Some? && nextFocus.value.World? && y < innerHeight * SuppressedBand {
        nextFocus := None;
      }
      assert nextFocus == SyncedFocus(view, y, stack, innerHeight);
      if !SameFocus(nextFocus, actions.focus) {
        actions.SetFocus(nextFocus);
      }
      return Given(nextFocus);
    }

    /**
     * `handleGesture`: CONFIRM and SUMMON both confirm the synchronised
     * focus, the scrolls send -1 and +1, DISMISS dismisses; WAKE and no
     * gesture do nothing, and the summon counter is never touched.
     */
    method HandleGesture(gesture: Option<GestureType>, stack: seq<seq<DomNode>>, innerHeight: real)
      modifies actions
      ensures actions.summonId == old(actions.summonId)
      ensures gesture == Some(Confirm) || gesture == Some(Summon) ==>
                && actions.confirmId == old(actions.confirmId) + 1
                && actions.confirmFocus ==
                     (if virtualCursor.None? then old(actions.focus)
                      else SyncedFocus(view, virtualCursor.value.y, stack, innerHeight))
                && actions.focus ==
                     (if virtualCursor.None? then old(actions.focus)
                      else var next := SyncedFocus(view, virtualCursor.value.y, stack, innerHeight);
                        if SameFocus(next, old(actions.focus)) then old(actions.focus) else next)
                && actions.dismissId == old(actions.dismissId) && actions.scrollSignal == old(actions.scrollSignal)
      ensures gesture == Some(ScrollLeft) ==>
                actions.scrollSignal == ScrollSignal(old(actions.scrollSignal.id) + 1, -1.0)
      ensures gesture == Some(ScrollRight) ==>
                actions.scrollSignal == ScrollSignal(old(actions.scrollSignal.id) + 1, 1.0)
      ensures gesture == Some(ScrollLeft) || gesture == Some(ScrollRight) || gesture == Some(Dismiss) ==>
                actions.focus == old(actions.focus) && actions.confirmFocus == old(actions.confirmFocus)
                && actions.confirmId == old(actions.confirmId)
      ensures gesture == Some(ScrollLeft) || gesture == Some(ScrollRight) ==> actions.dismissId == old(actions.dismissId)
      ensures gesture == Some(Dismiss) ==>
                actions.dismissId == old(actions.dismissId) + 1 && actions.scrollSignal == old(actions.scrollSignal)
      ensures gesture.None? || gesture == Some(Wake) ==>
                actions.focus == old(actions.focus) && actions.confirmFocus == old(actions.confirmFocus)
                && actions.confirmId == old(actions.confirmId) && actions.dismissId == old(actions.dismissId)
                && actions.scrollSignal == old(actions.scrollSignal)
    {
      match gesture {
        case Some(Confirm) =>
          var arg := SyncFocusFromCursor(stack, innerHeight);
          actions.Confirm(arg);
        case Some(ScrollLeft) =>
          actions.ScrollBy(-1.0);
        case Some(ScrollRight) =>
          actions.ScrollBy(1.0);
        case Some(Summon) =>
          var arg := SyncFocusFromCursor(stack, innerHeight);
          actions.Confirm(arg);
        case Some(Dismiss) =>
          actions.Dismiss();
        case _ =>
      }
    }

    /**
     * The confirm effect: nothing before the first confirm or for a `null`
     * payload; a world target opens its view, the guide targets open and
     * close the guide, `back` returns to the universe.
     */
    method OnConfirmSignal()
      modifies this
      ensures var f := actions.confirmFocus;
        if actions.confirmId == 0 || f.None? then view == old(view) && guideOpen == old(guideOpen)
        else
          && view == (if f.value.World? then f.value.view else if f.value == Back then Universe else old(view))
          && guideOpen == (if f.value == Guide then true else if f.value == GuideClose then false else old(guideOpen))
      ensures gestureEnabled == old(gestureEnabled) && virtualCursor == old(virtualCursor)
      ensures lastGestureAt == old(lastGestureAt)
    {
      if actions.confirmId == 0 {
        return;
      }
      if actions.confirmFocus.None? {
        return;
      }
      var f := actions.confirmFocus.value;
      if f.World? {
        view := f.view;
      }
      if f == Guide {
        guideOpen := true;
      }
      if f == GuideClose {
        guideOpen := false;
      }
      if f == Back {
        view := Universe;
      }
    }

    /** The dismiss effect: any dismiss closes the guide. */
    method OnDismissSignal()
      modifies this
      ensures guideOpen == (if actions.dismissId == 0 then old(guideOpen) else false)
      ensures view == old(view) && gestureEnabled == old(gestureEnabled) && virtualCursor == old(virtualCursor)
      ensures lastGestureAt == old(lastGestureAt)
    {
      if actions.dismissId == 0 {
        return;
      }
      guideOpen := false;
    }
  }
}
