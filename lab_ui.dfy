/**
 * The gesture lab's page controller (apps/gesture-lab/src/ui.js): two modal
 * flags, the visible modal, the card strip's horizontal scroll with its
 * wrap-around jump, the cursor, the hovered card and the pinch visuals,
 * driven by recognised gestures, the keyboard and the pointer.
 *
 * Each handler is a transition on a `UiState` value; the class `LabUiPage`
 * holds the same fields and its methods are proved to perform those
 * transitions.  The DOM queries become inputs: the card layout, the card
 * found under an event, the focused card, and a hit test from screen
 * coordinates to the card there.
 */
module LabUi {
  import opened Wrappers
  import opened JsMath
  import opened GestureLogic

  /** A `.galaxy-card`: its offset box in the strip and the texts the detail modal shows. */
  datatype Card = Card(offsetLeft: real, offsetWidth: real, title: string, desc: string)

  /** The strip: its cards in document order, `scrollWidth` and `clientWidth`. */
  datatype Layout = Layout(cards: seq<Card>, totalWidth: real, viewWidth: real)

  datatype ScreenPos = ScreenPos(x: real, y: real)

  /** The fields `ui.js` reads and writes, and the modal and cursor classes it toggles. */
  datatype UiState = UiState(
    modalOpen: bool,
    guideModalOpen: bool,
    detailShown: bool,
    memoryShown: bool,
    detailTitle: string,
    detailDesc: string,
    scrollLeft: real,
    cursorShown: bool,
    cursorAt: Option<ScreenPos>,
    hovered: Option<nat>,
    clicking: bool,
    progressShown: real,
    loading: bool)

  const ScrollStep: real := 15.0
  const WrapMargin: real := 100.0

  /** The page as loaded: no modal, the strip at its start, no cursor yet. */
  const Loaded: UiState := UiState(false, false, false, false, "", "", 0.0, false, None, None, false, 0.0, false)

  /** `modalOpen` tells whether a modal is shown, at most one is, and the hovered card exists. */
  predicate Inv(layout: Layout, s: UiState)
  {
    && s.modalOpen == (s.detailShown || s.memoryShown)
    && !(s.detailShown && s.memoryShown)
    && (s.hovered.Some? ==> s.hovered.value < |layout.cards|)
  }

  /** A hit test that only ever names cards of the layout. */
  ghost predicate HitsCards(layout: Layout, hitTest: (real, real) -> Option<nat>)
  {
    forall x: real, y: real :: hitTest(x, y).Some? ==> hitTest(x, y).value < |layout.cards|
  }

  // ----------------------------------------------------------------- modals

  function ModalsClosed(s: UiState): UiState
  {
    s.(detailShown := false, memoryShown := false, modalOpen := false)
  }

  function MemoryModalOpened(s: UiState): UiState
  {
    s.(memoryShown := true, modalOpen := true)
  }

  /** `triggerClick(card)`: nothing while a modal is open, else the card's detail modal. */
  function Clicked(s: UiState, card: Card): (r: UiState)
    ensures s.modalOpen ==> r == s
    ensures !s.modalOpen ==> r.modalOpen && r.detailShown && r.detailTitle == card.title && r.detailDesc == card.desc
  {
    if s.modalOpen then s
    else s.(detailTitle := card.title, detailDesc := card.desc, detailShown := true, modalOpen := true)
  }

  /** Opening a card's details keeps the modal bookkeeping. */
  lemma ClickedKeepsInv(layout: Layout, s: UiState, card: Card)
    requires Inv(layout, s)
    ensures Inv(layout, Clicked(s, card))
  {
  }

  // ---------------------------------------------------------------- scroll

  /**
   * `checkInfiniteLoop`: the strip holds three copies of its content; a
   * position in the band `[100, 2/3 total + view]` stays, one left of it
   * jumps a margin into the middle copy, one right of it to the middle
   * copy's start.
   */
  function Wrap(total: real, view: real, pos: real): (r: real)
    ensures WrapMargin <= pos <= 2.0 * total / 3.0 + view ==> r == pos
    ensures pos < WrapMargin ==> r == total / 3.0 + WrapMargin
    ensures pos > 2.0 * total / 3.0 + view ==> pos >= WrapMargin ==> r == total / 3.0
    ensures r != pos ==> total / 3.0 <= r <= total / 3.0 + WrapMargin
  {
    if pos < WrapMargin then total / 3.0 + WrapMargin
    else if pos > 2.0 * total / 3.0 + view then total / 3.0
    else pos
  }

  /** A strip of at least three times the margin: a wrapped position is not moved again. */
  lemma WrapIdempotent(total: real, view: real, pos: real)
    requires total >= 3.0 * WrapMargin && view >= 0.0
    ensures Wrap(total, view, Wrap(total, view, pos)) == Wrap(total, view, pos)
  {
  }

  /** On a wide strip the wrapped position is always inside the band. */
  lemma WrapLandsInBand(total: real, view: real, pos: real)
    requires total >= 3.0 * WrapMargin && view >= 0.0
    ensures WrapMargin <= Wrap(total, view, pos) <= 2.0 * total / 3.0 + view
  {
  }

  /** `scrollBy({left: delta})` followed by `checkInfiniteLoop`. */
  function ScrollBy(layout: Layout, s: UiState, delta: real): UiState
  {
    s.(scrollLeft := Wrap(layout.totalWidth, layout.viewWidth, s.scrollLeft + delta))
  }

  // ---------------------------------------------------------------- cursor

  /** `updateCursor`: mirrored and scaled to the window, with no gain and no clamping. */
  function CursorPos(x: real, y: real, width: real, height: real): (p: ScreenPos)
    ensures 0.0 <= x <= 1.0 && width >= 0.0 ==> 0.0 <= p.x <= width
    ensures 0.0 <= y <= 1.0 && height >= 0.0 ==> 0.0 <= p.y <= height
    ensures p.x == width - x * width
  {
    WithinUnit(1.0 - x, width);
    WithinUnit(y, height);
    ScreenPos((1.0 - x) * width, y * height)
  }

  lemma WithinUnit(a: real, b: real)
    ensures 0.0 <= a <= 1.0 && b >= 0.0 ==> 0.0 <= a * b <= b
  {
    if 0.0 <= a <= 1.0 && b >= 0.0 {
      assert (1.0 - a) * b >= 0.0;
    }
  }

  function CursorMoved(s: UiState, x: real, y: real, width: real, height: real): UiState
  {
    s.(cursorShown := true, cursorAt := Some(CursorPos(x, y, width, height)))
  }

  /** `updateCursorVisuals(progress, isClicking)`: the loading class is left alone while clicking. */
  function CursorVisuals(s: UiState, progress: real, isClicking: bool): (r: UiState)
    ensures r.clicking == isClicking
    ensures r.progressShown == if isClicking then 1.0 else progress
    ensures r.loading == if isClicking then s.loading else progress > 0.0
  {
    if isClicking then s.(clicking := true, progressShown := 1.0)
    else s.(clicking := false, progressShown := progress, loading := progress > 0.0)
  }

  /** `elementFromPoint` at the stored cursor; an unset cursor hits nothing. */
  function HitAt(s: UiState, hitTest: (real, real) -> Option<nat>): Option<nat>
  {
    if s.cursorAt.None? then None else hitTest(s.cursorAt.value.x, s.cursorAt.value.y)
  }

  // ----------------------------------------------------------- interaction

  /**
   * `handleInteraction({gesture, pinchProgress})`. DISMISS with a modal open
   * closes every modal; SUMMON with none open opens the memory modal; with
   * a modal open nothing else happens. Otherwise a scroll moves the strip,
   * the card under the cursor becomes the hovered one, CONFIRM opens it,
   * and the pinch visuals follow. The guide modal does not block gestures.
   */
  function Interact(layout: Layout, s: UiState, gesture: Option<GestureType>, progress: real,
                    hitTest: (real, real) -> Option<nat>): UiState
    requires HitsCards(layout, hitTest)
  {
    if gesture == Some(Dismiss) && s.modalOpen then ModalsClosed(s)
    else if gesture == Some(Summon) && !s.modalOpen then MemoryModalOpened(s)
    else if s.modalOpen then s
    else Engage(layout, s, gesture, progress, hitTest)
  }

  /** The strip after a gesture: scrolls move it by 15 and wrap it, other gestures leave it. */
  function ScrollFor(layout: Layout, s: UiState, gesture: Option<GestureType>): (r: UiState)
    ensures r == s.(scrollLeft := r.scrollLeft)
  {
    if gesture == Some(ScrollLeft) then ScrollBy(layout, s, -ScrollStep)
    else if gesture == Some(ScrollRight) then ScrollBy(layout, s, ScrollStep)
    else s
  }

  /** `handleInteraction` past its modal guards: scroll, hover, click, visuals. */
  function Engage(layout: Layout, s: UiState, gesture: Option<GestureType>, progress: real,
                  hitTest: (real, real) -> Option<nat>): UiState
    requires HitsCards(layout, hitTest)
  {
    CursorVisuals(HoverAndClick(layout, ScrollFor(layout, s, gesture), gesture, hitTest), progress, gesture == Some(Confirm))
  }

  /** The card under the cursor becomes the hovered one; CONFIRM clicks it. */
  function HoverAndClick(layout: Layout, s: UiState, gesture: Option<GestureType>,
                         hitTest: (real, real) -> Option<nat>): UiState
    requires HitsCards(layout, hitTest)
  {
    var hit := HitAt(s, hitTest);
    var hovering := s.(hovered := hit);
    if hit.Some? && gesture == Some(Confirm) then Clicked(hovering, layout.cards[hit.value])
    else hovering
  }

  lemma InteractKeepsInv(layout: Layout, s: UiState, gesture: Option<GestureType>, progress: real,
                         hitTest: (real, real) -> Option<nat>)
    requires HitsCards(layout, hitTest) && Inv(layout, s)
    ensures Inv(layout, Interact(layout, s, gesture, progress, hitTest))
  {
    if !s.modalOpen && gesture != Some(Summon) {
      EngageKeepsInv(layout, s, gesture, progress, hitTest);
    }
  }

  lemma EngageKeepsInv(layout: Layout, s: UiState, gesture: Option<GestureType>, progress: real,
                       hitTest: (real, real) -> Option<nat>)
    requires HitsCards(layout, hitTest) && Inv(layout, s) && !s.modalOpen
    ensures Inv(layout, Engage(layout, s, gesture, progress, hitTest))
  {
    var scrolled := ScrollFor(layout, s, gesture);
    var hit := HitAt(scrolled, hitTest);
    if hit.Some? {
      assert hitTest(scrolled.cursorAt.value.x, scrolled.cursorAt.value.y) == hit;
    }
    var hovering := scrolled.(hovered := hit);
    assert Inv(layout, hovering);
  }

  /** While a modal is open only DISMISS does anything. */
  lemma ModalBlocksGestures(layout: Layout, s: UiState, gesture: Option<GestureType>, progress: real,
                            hitTest: (real, real) -> Option<nat>)
    requires HitsCards(layout, hitTest) && s.modalOpen
    ensures gesture != Some(Dismiss) <==> Interact(layout, s, gesture, progress, hitTest) == s
  {
  }

  /** DISMISS with a modal open closes all of them, and SUMMON with none open shows the memory modal. */
  lemma SummonAndDismiss(layout: Layout, s: UiState, progress: real, hitTest: (real, real) -> Option<nat>)
    requires HitsCards(layout, hitTest) && Inv(layout, s)
    ensures var r := Interact(layout, s, Some(Dismiss), progress, hitTest);
      s.modalOpen ==> !r.modalOpen && !r.detailShown && !r.memoryShown && r.scrollLeft == s.scrollLeft
    ensures var r := Interact(layout, s, Some(Summon), progress, hitTest);
      !s.modalOpen ==> r.modalOpen && r.memoryShown && !r.detailShown && r.scrollLeft == s.scrollLeft
  {
  }

  /** CONFIRM with no modal opens the detail modal of the card under the cursor, if there is one. */
  lemma ConfirmOpensHovered(layout: Layout, s: UiState, progress: real, hitTest: (real, real) -> Option<nat>)
    requires HitsCards(layout, hitTest) && !s.modalOpen
    ensures var r := Interact(layout, s, Some(Confirm), progress, hitTest);
      var hit := HitAt(s, hitTest);
      && r.hovered == hit
      && r.clicking
      && (hit.Some? <==> r.modalOpen)
      && (hit.Some? ==> r.detailShown && r.detailTitle == layout.cards[hit.value].title
                        && r.detailDesc == layout.cards[hit.value].desc)
  {
    var hit := HitAt(s, hitTest);
    assert ScrollFor(layout, s, Some(Confirm)) == s;
    var hovering := s.(hovered := hit);
    if hit.Some? {
      var c := Clicked(hovering, layout.cards[hit.value]);
      assert Interact(layout, s, Some(Confirm), progress, hitTest) == CursorVisuals(c, progress, true);
    } else {
      assert Interact(layout, s, Some(Confirm), progress, hitTest) == CursorVisuals(hovering, progress, true);
    }
  }

  /** A scroll gesture with no modal moves the strip by 15 and wraps it, and opens nothing. */
  lemma ScrollGestures(layout: Layout, s: UiState, progress: real, hitTest: (real, real) -> Option<nat>)
    requires HitsCards(layout, hitTest) && !s.modalOpen
    ensures var r := Interact(layout, s, Some(ScrollLeft), progress, hitTest);
      r.scrollLeft == Wrap(layout.totalWidth, layout.viewWidth, s.scrollLeft - ScrollStep) && !r.modalOpen
    ensures var r := Interact(layout, s, Some(ScrollRight), progress, hitTest);
      r.scrollLeft == Wrap(layout.totalWidth, layout.viewWidth, s.scrollLeft + ScrollStep) && !r.modalOpen
  {
  }

  /** The guide modal's flag neither affects a gesture nor is affected by one. */
  lemma GesturesIgnoreGuide(layout: Layout, s: UiState, open: bool, gesture: Option<GestureType>, progress: real,
                            hitTest: (real, real) -> Option<nat>)
    requires HitsCards(layout, hitTest)
    ensures Interact(layout, s.(guideModalOpen := open), gesture, progress, hitTest)
         == Interact(layout, s, gesture, progress, hitTest).(guideModalOpen := open)
  {
    var t := s.(guideModalOpen := open);
    if gesture == Some(Dismiss) && s.modalOpen {
      assert ModalsClosed(t) == ModalsClosed(s).(guideModalOpen := open);
    } else if gesture == Some(Summon) && !s.modalOpen {
      assert MemoryModalOpened(t) == MemoryModalOpened(s).(guideModalOpen := open);
    } else if !s.modalOpen {
      EngageIgnoresGuide(layout, s, open, gesture, progress, hitTest);
    }
  }

  lemma EngageIgnoresGuide(layout: Layout, s: UiState, open: bool, gesture: Option<GestureType>, progress: real,
                           hitTest: (real, real) -> Option<nat>)
    requires HitsCards(layout, hitTest)
    ensures Engage(layout, s.(guideModalOpen := open), gesture, progress, hitTest)
         == Engage(layout, s, gesture, progress, hitTest).(guideModalOpen := open)
  {
    var ss := ScrollFor(layout, s, gesture);
    ScrollIgnoresGuide(layout, s, open, gesture);
    HoverIgnoresGuide(layout, ss, open, gesture, hitTest);
    VisualsIgnoreGuide(HoverAndClick(layout, ss, gesture, hitTest), open, progress, gesture == Some(Confirm));
  }

  lemma HoverIgnoresGuide(layout: Layout, s: UiState, open: bool, gesture: Option<GestureType>,
                          hitTest: (real, real) -> Option<nat>)
    requires HitsCards(layout, hitTest)
    ensures HoverAndClick(layout, s.(guideModalOpen := open), gesture, hitTest)
         == HoverAndClick(layout, s, gesture, hitTest).(guideModalOpen := open)
  {
    var hit := HitAt(s, hitTest);
    HitIgnoresGuide(s, open, hitTest);
    HoveredIgnoresGuide(s, open, hit);
    if hit.Some? && gesture == Some(Confirm) {
      ClickIgnoresGuide(s.(hovered := hit), open, layout.cards[hit.value]);
    }
  }

  lemma HitIgnoresGuide(s: UiState, open: bool, hitTest: (real, real) -> Option<nat>)
    ensures HitAt(s.(guideModalOpen := open), hitTest) == HitAt(s, hitTest)
  {
  }

  lemma HoveredIgnoresGuide(s: UiState, open: bool, hit: Option<nat>)
    ensures s.(guideModalOpen := open).(hovered := hit) == s.(hovered := hit).(guideModalOpen := open)
  {
  }

  lemma ScrollIgnoresGuide(layout: Layout, s: UiState, open: bool, gesture: Option<GestureType>)
    ensures ScrollFor(layout, s.(guideModalOpen := open), gesture) == ScrollFor(layout, s, gesture).(guideModalOpen := open)
  {
    var r := ScrollFor(layout, s, gesture);
    var t := ScrollFor(layout, s.(guideModalOpen := open), gesture);
    assert t.scrollLeft == r.scrollLeft;
  }

  lemma ClickIgnoresGuide(s: UiState, open: bool, card: Card)
    ensures Clicked(s.(guideModalOpen := open), card) == Clicked(s, card).(guideModalOpen := open)
  {
  }

  lemma VisualsIgnoreGuide(s: UiState, open: bool, progress: real, isClicking: bool)
    ensures CursorVisuals(s.(guideModalOpen := open), progress, isClicking)
         == CursorVisuals(s, progress, isClicking).(guideModalOpen := open)
  {
    var r := CursorVisuals(s, progress, isClicking);
    var t := CursorVisuals(s.(guideModalOpen := open), progress, isClicking);
    assert t.clicking == r.clicking && t.progressShown == r.progressShown && t.loading == r.loading;
  }

  // ------------------------------------------------------------ centre card

  function Dist(card: Card, center: real): real
  {
    Abs(card.offsetLeft + card.offsetWidth / 2.0 - center)
  }

  /**
   * The card `clickCenterCard`'s scan has chosen after the first `n` cards:
   * the nearest to `center`, the earliest among equals.
   */
  function NearestAmong(cards: seq<Card>, center: real, n: nat): (r: Option<nat>)
    requires n <= |cards|
    ensures r.None? <==> n == 0
    ensures r.Some? ==> r.value < n
    ensures r.Some? ==> forall j :: 0 <= j < n ==> Dist(cards[r.value], center) <= Dist(cards[j], center)
    ensures r.Some? ==> forall j :: 0 <= j < r.value ==> Dist(cards[j], center) > Dist(cards[r.value], center)
  {
    if n == 0 then None
    else
      var p := NearestAmong(cards, center, n - 1);
      if p.None? || Dist(cards[n - 1], center) < Dist(cards[p.value], center) then Some(n - 1) else p
  }

  /** The scan of `clickCenterCard`: a strict `<` keeps the first of equally near cards. */
  method NearestCard(cards: seq<Card>, center: real) returns (closest: Option<nat>)
    ensures closest == NearestAmong(cards, center, |cards|)
  {
    closest := None;
    var minDist := 0.0;
    var i := 0;
    while i < |cards|
      invariant 0 <= i <= |cards|
      invariant closest == NearestAmong(cards, center, i)
      invariant closest.Some? ==> minDist == Dist(cards[closest.value], center)
    {
      var dist := Dist(cards[i], center);
      if closest.None? || dist < minDist {
        minDist := dist;
        closest := Some(i);
      }
      i := i + 1;
    }
  }

  /** `clickCenterCard`: the card nearest the middle of the visible strip, if any, is clicked. */
  function ClickCenter(layout: Layout, s: UiState): UiState
  {
    var pick := NearestAmong(layout.cards, s.scrollLeft + layout.viewWidth / 2.0, |layout.cards|);
    if pick.None? then s else Clicked(s, layout.cards[pick.value])
  }

  // --------------------------------------------------------------- keyboard

  /** What the page's main `keydown` listener does with a key. */
  datatype KeyCommand = Ignored | CloseGuide | Send(gesture: GestureType) | ActivateCard

  predicate FormControl(targetTag: Option<string>)
  {
    targetTag.Some? && targetTag.value in ["BUTTON", "INPUT", "TEXTAREA", "SELECT"]
  }

  predicate ActivationKey(key: string)
  {
    key == "Enter" || key == " " || key == "Spacebar"
  }

  /**
   * The keyboard policy: keys aimed at form controls are ignored; Escape
   * closes the guide first, else dismisses an open modal; with a modal open
   * every other key is ignored; arrows scroll, M summons and the activation
   * keys click the focused or central card.
   */
  function KeyCommandOf(targetTag: Option<string>, key: string, modalOpen: bool, guideOpen: bool): (c: KeyCommand)
    ensures FormControl(targetTag) ==> c == Ignored
    ensures !FormControl(targetTag) && key == "Escape" ==>
              c == (if guideOpen then CloseGuide else if modalOpen then Send(Dismiss) else Ignored)
    ensures c.Send? ==> c.gesture in {Dismiss, ScrollLeft, ScrollRight, Summon}
    ensures c == ActivateCard ==> ActivationKey(key) && !modalOpen && !guideOpen
  {
    if FormControl(targetTag) then Ignored
    else if key == "Escape" && guideOpen then CloseGuide
    else if key == "Escape" && modalOpen then Send(Dismiss)
    else if modalOpen || guideOpen then Ignored
    else if key == "ArrowRight" then Send(ScrollRight)
    else if key == "ArrowLeft" then Send(ScrollLeft)
    else if ActivationKey(key) then ActivateCard
    else if key == "m" || key == "M" then Send(Summon)
    else Ignored
  }

  /** With either modal open the keyboard can only close the guide or dismiss. */
  lemma KeyboardRespectsModals(targetTag: Option<string>, key: string, modalOpen: bool, guideOpen: bool)
    requires modalOpen || guideOpen
    ensures var c := KeyCommandOf(targetTag, key, modalOpen, guideOpen);
      c == Ignored || c == CloseGuide || c == Send(Dismiss)
    ensures var c := KeyCommandOf(targetTag, key, modalOpen, guideOpen);
      c != Ignored ==> key == "Escape"
  {
  }

  /** With no modal and no form control, each mapped key sends its gesture. */
  lemma KeyMap(targetTag: Option<string>)
    requires !FormControl(targetTag)
    ensures KeyCommandOf(targetTag, "ArrowRight", false, false) == Send(ScrollRight)
    ensures KeyCommandOf(targetTag, "ArrowLeft", false, false) == Send(ScrollLeft)
    ensures KeyCommandOf(targetTag, "m", false, false) == Send(Summon)
    ensures KeyCommandOf(targetTag, "M", false, false) == Send(Summon)
    ensures KeyCommandOf(targetTag, "Enter", false, false) == ActivateCard
    ensures KeyCommandOf(targetTag, "Escape", false, false) == Ignored
  {
  }

  /** `clickFocusedOrCenterCard`: the focused card if there is one, else the central one. */
  function ActivateCardOf(layout: Layout, s: UiState, focused: Option<nat>): UiState
    requires focused.Some? ==> focused.value < |layout.cards|
  {
    if focused.Some? then Clicked(s, layout.cards[focused.value]) else ClickCenter(layout, s)
  }

  /**
   * One `keydown`: the card listener registered first clicks a card the
   * event came from on an activation key, then the main listener applies
   * the keyboard policy to the state that left.
   */
  function KeyDown(layout: Layout, s: UiState, targetTag: Option<string>, key: string, eventCard: Option<nat>,
                   focused: Option<nat>, hitTest: (real, real) -> Option<nat>): UiState
    requires HitsCards(layout, hitTest)
    requires eventCard.Some? ==> eventCard.value < |layout.cards|
    requires focused.Some? ==> focused.value < |layout.cards|
  {
    var s1 :=
      if ActivationKey(key) && eventCard.Some? && !s.modalOpen && !s.guideModalOpen
      then Clicked(s, layout.cards[eventCard.value])
      else s;
    PageKey(layout, s1, targetTag, key, focused, hitTest)
  }

  /** The main `keydown` listener: the keyboard policy applied to the page. */
  function PageKey(layout: Layout, s: UiState, targetTag: Option<string>, key: string,
                   focused: Option<nat>, hitTest: (real, real) -> Option<nat>): UiState
    requires HitsCards(layout, hitTest)
    requires focused.Some? ==> focused.value < |layout.cards|
  {
    match KeyCommandOf(targetTag, key, s.modalOpen, s.guideModalOpen)
    case Ignored => s
    case CloseGuide => s.(guideModalOpen := false)
    case Send(g) => Interact(layout, s, Some(g), 0.0, hitTest)
    case ActivateCard => ActivateCardOf(layout, s, focused)
  }

  /** An activation key on a card opens that card, and the main listener then adds nothing. */
  lemma CardKeyOpensEventCard(layout: Layout, s: UiState, targetTag: Option<string>, key: string, card: nat,
                              focused: Option<nat>, hitTest: (real, real) -> Option<nat>)
    requires HitsCards(layout, hitTest) && card < |layout.cards|
    requires focused.Some? ==> focused.value < |layout.cards|
    requires ActivationKey(key) && !s.modalOpen && !s.guideModalOpen
    ensures KeyDown(layout, s, targetTag, key, Some(card), focused, hitTest) == Clicked(s, layout.cards[card])
  {
  }

  // ---------------------------------------------------------------- pointer

  /** `handlePointer`: a primary (or unnumbered) button on a card with no modal open clicks it. */
  function Pointer(layout: Layout, s: UiState, button: Option<int>, eventCard: Option<nat>): UiState
    requires eventCard.Some? ==> eventCard.value < |layout.cards|
  {
    if button.Some? && button.value != 0 then s
    else if eventCard.None? then s
    else if s.modalOpen || s.guideModalOpen then s
    else Clicked(s, layout.cards[eventCard.value])
  }

  /** `pointerup` and `click` both reach the handler; the second finds the modal open and does nothing. */
  lemma PointerClickOpensOnce(layout: Layout, s: UiState, button: Option<int>, eventCard: Option<nat>)
    requires eventCard.Some? ==> eventCard.value < |layout.cards|
    ensures var once := Pointer(layout, s, button, eventCard);
      Pointer(layout, once, button, eventCard) == once
  {
  }

  // ----------------------------------------------------------------- frames

  /**
   * `updateDebug(landmarks, gestureResult)`: with no hand the cursor is
   * hidden; with a result the cursor moves and the gesture is handled.
   */
  function DebugFrame(layout: Layout, s: UiState, handSeen: bool, result: Option<GestureResult>,
                 width: real, height: real, hitTest: (real, real) -> Option<nat>): UiState
    requires HitsCards(layout, hitTest)
  {
    if !handSeen then s.(cursorShown := false)
    else if result.None? then s
    else
      var g := result.value;
      Interact(layout, CursorMoved(s, g.cursorX, g.cursorY, width, height), g.gesture, g.pinchProgress, hitTest)
  }

  /** A detection frame keeps the modal bookkeeping consistent. */
  lemma FrameKeepsInv(layout: Layout, s: UiState, handSeen: bool, result: Option<GestureResult>,
                      width: real, height: real, hitTest: (real, real) -> Option<nat>)
    requires HitsCards(layout, hitTest) && Inv(layout, s)
    ensures Inv(layout, DebugFrame(layout, s, handSeen, result, width, height, hitTest))
  {
    if handSeen && result.Some? {
      var g := result.value;
      InteractKeepsInv(layout, CursorMoved(s, g.cursorX, g.cursorY, width, height), g.gesture, g.pinchProgress, hitTest);
    }
  }

  /** A key press keeps the modal bookkeeping consistent. */
  lemma KeyDownKeepsInv(layout: Layout, s: UiState, targetTag: Option<string>, key: string,
                        eventCard: Option<nat>, focused: Option<nat>, hitTest: (real, real) -> Option<nat>)
    requires HitsCards(layout, hitTest) && Inv(layout, s)
    requires eventCard.Some? ==> eventCard.value < |layout.cards|
    requires focused.Some? ==> focused.value < |layout.cards|
    ensures Inv(layout, KeyDown(layout, s, targetTag, key, eventCard, focused, hitTest))
  {
    var s1 :=
      if ActivationKey(key) && eventCard.Some? && !s.modalOpen && !s.guideModalOpen
      then Clicked(s, layout.cards[eventCard.value])
      else s;
    if eventCard.Some? {
      ClickedKeepsInv(layout, s, layout.cards[eventCard.value]);
    }
    PageKeyKeepsInv(layout, s1, targetTag, key, focused, hitTest);
  }

  /** The main listener keeps the modal bookkeeping consistent. */
  lemma PageKeyKeepsInv(layout: Layout, s: UiState, targetTag: Option<string>, key: string,
                        focused: Option<nat>, hitTest: (real, real) -> Option<nat>)
    requires HitsCards(layout, hitTest) && Inv(layout, s)
    requires focused.Some? ==> focused.value < |layout.cards|
    ensures Inv(layout, PageKey(layout, s, targetTag, key, focused, hitTest))
  {
    var c := KeyCommandOf(targetTag, key, s.modalOpen, s.guideModalOpen);
    if c.Send? {
      InteractKeepsInv(layout, s, Some(c.gesture), 0.0, hitTest);
    }
  }

  /** A pointer event keeps the modal bookkeeping consistent. */
  lemma PointerKeepsInv(layout: Layout, s: UiState, button: Option<int>, eventCard: Option<nat>)
    requires Inv(layout, s)
    requires eventCard.Some? ==> eventCard.value < |layout.cards|
    ensures Inv(layout, Pointer(layout, s, button, eventCard))
  {
  }

  // ------------------------------------------------------------------ class

  /** The `UI` object. */
  class LabUiPage {
    const layout: Layout
    var modalOpen: bool
    var guideModalOpen: bool
    var detailShown: bool
    var memoryShown: bool
    var detailTitle: string
    var detailDesc: string
    var scrollLeft: real
    var cursorShown: bool
    var cursorAt: Option<ScreenPos>
    var hovered: Option<nat>
    var clicking: bool
    var progressShown: real
    var loading: bool

    ghost function State(): UiState
      reads this
    {
      UiState(modalOpen, guideModalOpen, detailShown, memoryShown, detailTitle, detailDesc, scrollLeft,
              cursorShown, cursorAt, hovered, clicking, progressShown, loading)
    }

    ghost predicate Valid()
      reads this
    {
      Inv(layout, State())
    }

    constructor (layout: Layout)
      ensures this.layout == layout && State() == Loaded && Valid()
    {
      this.layout := layout;
      modalOpen := false;
      guideModalOpen := false;
      detailShown := false;
      memoryShown := false;
      detailTitle := "";
      detailDesc := "";
      scrollLeft := 0.0;
      cursorShown := false;
      cursorAt := None;
      hovered := None;
      clicking := false;
      progressShown := 0.0;
      loading := false;
    }

    /** The delayed jump of `initInfiniteScroll` to the start of the middle copy. */
    method JumpToMiddle()
      modifies this
      ensures State() == old(State()).(scrollLeft := layout.totalWidth / 3.0)
    {
      scrollLeft := layout.totalWidth / 3.0;
    }

    method OpenGuideModal()
      modifies this
      ensures State() == old(State()).(guideModalOpen := true)
    {
      guideModalOpen := true;
    }

    method CloseGuideModal()
      modifies this
      ensures State() == old(State()).(guideModalOpen := false)
    {
      guideModalOpen := false;
    }

    method CloseModals()
      modifies this
      ensures State() == ModalsClosed(old(State()))
    {
      detailShown := false;
      memoryShown := false;
      modalOpen := false;
    }

    method OpenMemoryModal()
      modifies this
      ensures State() == MemoryModalOpened(old(State()))
    {
      memoryShown := true;
      modalOpen := true;
    }

    method TriggerClick(card: nat)
      requires card < |layout.cards|
      modifies this
      ensures State() == Clicked(old(State()), layout.cards[card])
    {
      if modalOpen {
        return;
      }
      detailTitle := layout.cards[card].title;
      detailDesc := layout.cards[card].desc;
      detailShown := true;
      modalOpen := true;
    }

    method CheckInfiniteLoop()
      modifies this
      ensures State() == old(State()).(scrollLeft := Wrap(layout.totalWidth, layout.viewWidth, old(scrollLeft)))
    {
      if scrollLeft < WrapMargin {
        scrollLeft := layout.totalWidth / 3.0 + WrapMargin;
      } else if scrollLeft > 2.0 * layout.totalWidth / 3.0 + layout.viewWidth {
        scrollLeft := layout.totalWidth / 3.0;
      }
    }

    method UpdateCursor(x: real, y: real, width: real, height: real)
      modifies this
      ensures State() == CursorMoved(old(State()), x, y, width, height)
    {
      cursorShown := true;
      cursorAt := Some(CursorPos(x, y, width, height));
    }

    method UpdateCursorVisuals(progress: real, isClicking: bool)
      modifies this
      ensures State() == CursorVisuals(old(State()), progress, isClicking)
    {
      if isClicking {
        clicking := true;
        progressShown := 1.0;
      } else {
        clicking := false;
        progressShown := progress;
        loading := progress > 0.0;
      }
    }

    method HandleInteraction(gesture: Option<GestureType>, progress: real, hitTest: (real, real) -> Option<nat>)
      requires HitsCards(layout, hitTest) && Valid()
      modifies this
      ensures State() == Interact(layout, old(State()), gesture, progress, hitTest)
      ensures Valid()
    {
      InteractKeepsInv(layout, State(), gesture, progress, hitTest);
      if gesture == Some(Dismiss) && modalOpen {
        CloseModals();
        return;
      }
      if gesture == Some(Summon) && !modalOpen {
        OpenMemoryModal();
        return;
      }
      if modalOpen {
        return;
      }
      EngageCards(gesture, progress, hitTest);
    }

    /** The part of `handleInteraction` that runs with no modal open. */
    method EngageCards(gesture: Option<GestureType>, progress: real, hitTest: (real, real) -> Option<nat>)
      requires HitsCards(layout, hitTest)
      modifies this
      ensures State() == Engage(layout, old(State()), gesture, progress, hitTest)
    {
      ScrollForGesture(gesture);
      HoverCard(gesture, hitTest);
      UpdateCursorVisuals(progress, gesture == Some(Confirm));
    }

    /** The hit test at the cursor picks the hovered card, which CONFIRM clicks. */
    method HoverCard(gesture: Option<GestureType>, hitTest: (real, real) -> Option<nat>)
      requires HitsCards(layout, hitTest)
      modifies this
      ensures State() == HoverAndClick(layout, old(State()), gesture, hitTest)
    {
      var hit := if cursorAt.None? then None else hitTest(cursorAt.value.x, cursorAt.value.y);
      assert hit == HitAt(old(State()), hitTest);
      hovered := hit;
      if hit.Some? && gesture == Some(Confirm) {
        TriggerClick(hit.value);
      }
    }

    /** The scroll gestures move the strip by 15 and wrap it. */
    method ScrollForGesture(gesture: Option<GestureType>)
      modifies this
      ensures State() == ScrollFor(layout, old(State()), gesture)
    {
      if gesture == Some(ScrollLeft) {
        scrollLeft := scrollLeft - ScrollStep;
        CheckInfiniteLoop();
      } else if gesture == Some(ScrollRight) {
        scrollLeft := scrollLeft + ScrollStep;
        CheckInfiniteLoop();
      }
    }

    method ClickCenterCard()
      modifies this
      ensures State() == ClickCenter(layout, old(State()))
    {
      var closest := NearestCard(layout.cards, scrollLeft + layout.viewWidth / 2.0);
      if closest.Some? {
        TriggerClick(closest.value);
      }
    }

    method ClickFocusedOrCenterCard(focused: Option<nat>)
      requires focused.Some? ==> focused.value < |layout.cards|
      modifies this
      ensures State() == ActivateCardOf(layout, old(State()), focused)
    {
      if focused.Some? {
        TriggerClick(focused.value);
        return;
      }
      ClickCenterCard();
    }

    method OnKeyDown(targetTag: Option<string>, key: string, eventCard: Option<nat>, focused: Option<nat>,
                     hitTest: (real, real) -> Option<nat>)
      requires HitsCards(layout, hitTest)
      requires eventCard.Some? ==> eventCard.value < |layout.cards|
      requires focused.Some? ==> focused.value < |layout.cards|
      requires Valid()
      modifies this
      ensures State() == KeyDown(layout, old(State()), targetTag, key, eventCard, focused, hitTest)
      ensures Valid()
    {
      KeyDownKeepsInv(layout, State(), targetTag, key, eventCard, focused, hitTest);
      if ActivationKey(key) && eventCard.Some? && !modalOpen && !guideModalOpen {
        ClickedKeepsInv(layout, State(), layout.cards[eventCard.value]);
        TriggerClick(eventCard.value);
      }
      OnPageKey(targetTag, key, focused, hitTest);
    }

    /** The main `keydown` listener. */
    method OnPageKey(targetTag: Option<string>, key: string, focused: Option<nat>,
                     hitTest: (real, real) -> Option<nat>)
      requires HitsCards(layout, hitTest) && Valid()
      requires focused.Some? ==> focused.value < |layout.cards|
      modifies this
      ensures State() == PageKey(layout, old(State()), targetTag, key, focused, hitTest)
    {
      var command := KeyCommandOf(targetTag, key, modalOpen, guideModalOpen);
      match command
      case Ignored =>
      case CloseGuide => CloseGuideModal();
      case Send(g) => HandleInteraction(Some(g), 0.0, hitTest);
      case ActivateCard => ClickFocusedOrCenterCard(focused);
    }

    method OnPointer(button: Option<int>, eventCard: Option<nat>)
      requires eventCard.Some? ==> eventCard.value < |layout.cards|
      requires Valid()
      modifies this
      ensures State() == Pointer(layout, old(State()), button, eventCard)
      ensures Valid()
    {
      PointerKeepsInv(layout, State(), button, eventCard);
      if button.Some? && button.value != 0 {
        return;
      }
      if eventCard.None? {
        return;
      }
      if modalOpen || guideModalOpen {
        return;
      }
      TriggerClick(eventCard.value);
    }

    method UpdateDebug(handSeen: bool, result: Option<GestureResult>, width: real, height: real,
                       hitTest: (real, real) -> Option<nat>)
      requires HitsCards(layout, hitTest) && Valid()
      modifies this
      ensures State() == DebugFrame(layout, old(State()), handSeen, result, width, height, hitTest)
      ensures Valid()
    {
      FrameKeepsInv(layout, State(), handSeen, result, width, height, hitTest);
      if !handSeen {
        cursorShown := false;
        return;
      }
      if result.Some? {
        UpdateCursor(result.value.cursorX, result.value.cursorY, width, height);
        HandleInteraction(result.value.gesture, result.value.pinchProgress, hitTest);
      }
    }
  }
}
