/**
 * The action layer (actions.ts): the focus cell every view reads, the
 * payload of the last confirm, and counters the views watch as edge
 * triggers. React state cells become fields; each setter is a method that
 * takes effect at once.
 */
module Actions {
  import opened Wrappers
  import opened ViewStates

  /** `FocusTarget`; a world target's `id` is the cast view. */
  datatype FocusTarget =
    | World(view: ViewState)
    | Place(id: string)
    | Project(id: string)
    | Link(url: string)
    | Guide
    | GuideClose
    | ToggleGesture
    | Back

  /** The argument of `confirm`: left out (`undefined`), or given, possibly `null`. */
  datatype ConfirmArg = Omitted | Given(target: Option<FocusTarget>)

  /** `scrollSignal`: a counter and the delta of the last scroll. */
  datatype ScrollSignal = ScrollSignal(id: nat, delta: real)

  /** Everything the layer holds except the focus: what a focus change must leave alone. */
  datatype SignalState = SignalState(confirmFocus: Option<FocusTarget>, confirmId: nat, summonId: nat, dismissId: nat,
                                     scrollSignal: ScrollSignal)

  /** The value `useActionLayer` returns, less its setters. */
  class ActionLayer {
    var focus: Option<FocusTarget>
    var confirmFocus: Option<FocusTarget>
    var confirmId: nat
    var summonId: nat
    var dismissId: nat
    var scrollSignal: ScrollSignal

    ghost function Signals(): SignalState
      reads this
    {
      SignalState(confirmFocus, confirmId, summonId, dismissId, scrollSignal)
    }

    /** The initial `useState` values. */
    constructor ()
      ensures focus.None? && confirmFocus.None?
      ensures confirmId == 0 && summonId == 0 && dismissId == 0
      ensures scrollSignal == ScrollSignal(0, 0.0)
    {
      focus := None;
      confirmFocus := None;
      confirmId := 0;
      summonId := 0;
      dismissId := 0;
      scrollSignal := ScrollSignal(0, 0.0);
    }

    /** `setFocus`: the last write wins and no counter moves. */
    method SetFocus(target: Option<FocusTarget>)
      modifies this
      ensures focus == target
      ensures confirmFocus == old(confirmFocus) && confirmId == old(confirmId)
      ensures summonId == old(summonId) && dismissId == old(dismissId) && scrollSignal == old(scrollSignal)
    {
      focus := target;
    }

    /**
     * `confirm(target?)`: stores the given target, `null` included, or the
     * current focus when the argument is left out, and bumps `confirmId`.
     */
    method Confirm(arg: ConfirmArg)
      modifies this
      ensures confirmFocus == (if arg.Omitted? then old(focus) else arg.target)
      ensures confirmId == old(confirmId) + 1
      ensures focus == old(focus) && summonId == old(summonId) && dismissId == old(dismissId)
      ensures scrollSignal == old(scrollSignal)
    {
      var next := if arg.Omitted? then focus else arg.target;
      confirmFocus := next;
      confirmId := confirmId + 1;
    }

    /** `summon()`: bumps its own counter only. */
    method Summon()
      modifies this
      ensures summonId == old(summonId) + 1
      ensures focus == old(focus) && confirmFocus == old(confirmFocus) && confirmId == old(confirmId)
      ensures dismissId == old(dismissId) && scrollSignal == old(scrollSignal)
    {
      summonId := summonId + 1;
    }

    /** `dismiss()`: bumps its own counter only. */
    method Dismiss()
      modifies this
      ensures dismissId == old(dismissId) + 1
      ensures focus == old(focus) && confirmFocus == old(confirmFocus) && confirmId == old(confirmId)
      ensures summonId == old(summonId) && scrollSignal == old(scrollSignal)
    {
      dismissId := dismissId + 1;
    }

    /** `scrollBy(delta)`: bumps the signal's id and replaces its delta. */
    method ScrollBy(delta: real)
      modifies this
      ensures scrollSignal == ScrollSignal(old(scrollSignal.id) + 1, delta)
      ensures focus == old(focus) && confirmFocus == old(confirmFocus) && confirmId == old(confirmId)
      ensures summonId == old(summonId) && dismissId == old(dismissId)
    {
      scrollSignal := ScrollSignal(scrollSignal.id + 1, delta);
    }
  }
}
