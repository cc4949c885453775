/**
 * The professional view (components/ProfessionalGalaxy.tsx): a carousel of
 * project cards on a ring, turned by `rotation` degrees. The selected card
 * follows the rotation; confirms, summons, dismisses, scroll signals and
 * focus changes from the action layer turn the ring or open and close the
 * details panel, and so do dragging, the wheel and hovering a card.
 */
module ProfessionalGalaxy {
  import opened Wrappers
  import opened JsMath
  import opened JsStrings
  import opened Actions

  const FullTurn: real := 360.0
  const ScrollDegrees: real := 15.0
  const DragGain: real := 0.4
  const WheelLimit: real := 25.0
  const WheelGain: real := 0.008

  // ------------------------------------------------------------ angles

  predicate IsWhole(x: real)
  {
    x == x.Floor as real
  }

  /** `a` and `b` differ by whole turns. */
  predicate SameAngle(a: real, b: real)
  {
    IsWhole((a - b) / FullTurn)
  }

  /** A difference of whole turns smaller than one turn is no difference. */
  lemma SameAngleWithinTurn(a: real, b: real)
    requires SameAngle(a, b) && -FullTurn < a - b < FullTurn
    ensures a == b
  {
    var k := ((a - b) / FullTurn).Floor;
    assert a - b == k as real * FullTurn;
  }

  lemma SameAngleOfMultiple(a: real, b: real, k: int)
    requires a - b == k as real * FullTurn
    ensures SameAngle(a, b)
  {
    assert (a - b) / FullTurn == k as real;
  }

  /**
   * `getClosestRotation(current, target)` as written: with JavaScript's
   * truncating `%`, the shift lies in [-180, 180) only while
   * `target - current + 540` is not negative.
   */
  function ClosestRotationAsWritten(current: real, target: real): (r: real)
    ensures SameAngle(r, target)
    ensures target - current + 540.0 >= 0.0 ==> -180.0 <= r - current < 180.0
  {
    var a := target - current + 540.0;
    var r := current + (RealRem(a, FullTurn) - 180.0);
    SameAngleOfMultiple(r, target, 1 - RealQuot(a, FullTurn));
    r
  }

  /** Far enough ahead of the target, the written version turns the long way round. */
  lemma ClosestRotationLongWay()
    ensures ClosestRotationAsWritten(1000.0, 0.0) == 720.0
    ensures ClosestRotationAsWritten(1000.0, 0.0) - 1000.0 < -180.0
    ensures ClosestRotation(1000.0, 0.0) == 1080.0
  {
    assert RealQuot(-460.0, FullTurn) == -1;
    assert -460.0 / FullTurn == -1.0 - 100.0 / 360.0;
    assert (-460.0 / FullTurn).Floor == -2;
  }

  /** `a mod n` with the remainder always in [0, n). */
  function FloorRem(a: real, n: real): (r: real)
    requires n > 0.0
    ensures 0.0 <= r < n
    ensures IsWhole((a - r) / n)
  {
    FloorRemBounds(a, n);
    a - (a / n).Floor as real * n
  }

  lemma FloorRemBounds(a: real, n: real)
    requires n > 0.0
    ensures var q := (a / n).Floor as real;
      0.0 <= a - q * n < n && (a - (a - q * n)) / n == q
  {
    var f := a / n;
    var q := f.Floor as real;
    assert f * n == a;
    RemStep(a, n, f, q, q + 1.0);
  }

  /**
   * `getClosestRotation(current, target)` as intended: the angle equal to
   * `target` up to whole turns that is nearest `current`, at most half a
   * turn behind it and less than half a turn ahead.
   */
  function ClosestRotation(current: real, target: real): (r: real)
    ensures SameAngle(r, target)
    ensures -180.0 <= r - current < 180.0
  {
    var a := target - current + 540.0;
    var m := FloorRem(a, FullTurn);
    var k := ((a - m) / FullTurn).Floor;
    var r := current + (m - 180.0);
    assert a - m == k as real * FullTurn;
    SameAngleOfMultiple(r, target, 1 - k);
    r
  }

  /** The intended rotation is the only angle of the target in that window. */
  lemma ClosestRotationUnique(current: real, target: real, r: real)
    requires SameAngle(r, target) && -180.0 <= r - current < 180.0
    ensures r == ClosestRotation(current, target)
  {
    var c := ClosestRotation(current, target);
    var k1 := ((r - target) / FullTurn).Floor;
    var k2 := ((c - target) / FullTurn).Floor;
    assert r - target == k1 as real * FullTurn;
    assert c - target == k2 as real * FullTurn;
    SameAngleOfMultiple(r, c, k1 - k2);
    SameAngleWithinTurn(r, c);
  }

  /** Turning once more towards the same target turns no further. */
  lemma ClosestRotationIdempotent(current: real, target: real)
    ensures ClosestRotation(ClosestRotation(current, target), target) == ClosestRotation(current, target)
  {
    var c := ClosestRotation(current, target);
    ClosestRotationUnique(c, target, c);
  }

  /** Where the written version stays within half a turn, it is the intended one. */
  lemma AsWrittenAgreesInRange(current: real, target: real)
    requires target - current + 540.0 >= 0.0
    ensures ClosestRotationAsWritten(current, target) == ClosestRotation(current, target)
  {
    ClosestRotationUnique(current, target, ClosestRotationAsWritten(current, target));
  }

  // --------------------------------------------------------- selection

  /** `theta`: the angle between neighbouring cards. */
  function Theta(count: nat): real
    requires count > 0
  {
    FullTurn / count as real
  }

  /** The rotation that brings card `index` to the front. */
  function ProjectAngle(index: nat, count: nat): real
    requires count > 0
  {
    index as real * -Theta(count)
  }

  /** `Math.round(rotation / -theta)`: the card nearest the front, before wrapping. */
  function SnapIndex(rotation: real, count: nat): int
    requires count > 0
  {
    Round(rotation / -Theta(count))
  }

  /**
   * The selection effect, `((snap % count) + count) % count` with
   * JavaScript's `%`: the mathematical residue of the snap index.
   */
  function SelectedIndex(rotation: real, count: nat): (i: int)
    requires count > 0
    ensures 0 <= i < count
    ensures i == SnapIndex(rotation, count) % count
  {
    var k := SnapIndex(rotation, count);
    var n := count as int;
    var j := IntRem(k, n);
    if k >= 0 then
      ModOfRange(j + n, n, 1);
      IntRem(j + n, n)
    else
      var m := (-k) % n;
      var q := (-k) / n;
      assert -k == n * q + m;
      if m == 0 then
        ModOfRange(n, n, 1);
        ModOfRange(k, n, -q);
        IntRem(j + n, n)
      else
        ModOfRange(n - m, n, 0);
        ModOfRange(k, n, -q - 1);
        IntRem(j + n, n)
  }

  lemma DivCancel(x: real, t: real)
    requires t != 0.0
    ensures (x / t) * t == x
    ensures (x * t) / t == x
  {
  }

  /** The drag end's snap: the nearest card angle, with the same card in front. */
  function Snapped(rotation: real, count: nat): (r: real)
    requires count > 0
    ensures -Theta(count) / 2.0 <= r - rotation < Theta(count) / 2.0
    ensures IsWhole(r / Theta(count))
    ensures SnapIndex(r, count) == SnapIndex(rotation, count)
  {
    var t := Theta(count);
    var x := rotation / -t;
    var k := SnapIndex(rotation, count);
    var r := k as real * -t;
    DivCancel(rotation, -t);
    DivCancel(k as real, -t);
    DivCancel(-(k as real), t);
    assert r - rotation == t * (x - k as real);
    ScaleWindow(x - k as real, t);
    assert r == -(k as real) * t;
    assert r / t == -(k as real);
    WholeInt(-k);
    r
  }

  lemma WholeInt(k: int)
    ensures IsWhole(k as real)
  {
  }

  lemma ScaleWindow(d: real, t: real)
    requires t > 0.0 && -0.5 <= d < 0.5
    ensures -t / 2.0 <= t * d < t / 2.0
  {
    assert t * (d + 0.5) >= 0.0;
    assert t * (0.5 - d) > 0.0;
  }

  /** The wheel: the horizontal delta if any, else the vertical, clamped to 25 and scaled. */
  function WheelRotation(prev: real, deltaX: real, deltaY: real): (r: real)
    ensures -0.2 <= r - prev <= 0.2
    ensures deltaX != 0.0 && -WheelLimit <= deltaX <= WheelLimit ==> r == prev - deltaX * WheelGain
    ensures deltaX == 0.0 && -WheelLimit <= deltaY <= WheelLimit ==> r == prev - deltaY * WheelGain
    ensures var raw := if deltaX != 0.0 then deltaX else deltaY;
      (raw > WheelLimit ==> r == prev - 0.2) && (raw < -WheelLimit ==> r == prev + 0.2)
  {
    var raw := if deltaX != 0.0 then deltaX else deltaY;
    prev - Clamp(-WheelLimit, WheelLimit, raw) * WheelGain
  }

  /** The scroll effect: a signal with a non-zero delta turns the ring by 15 degrees per unit. */
  function ScrollRotation(prev: real, signal: ScrollSignal): (r: real)
    ensures signal.id == 0 || signal.delta == 0.0 ==> r == prev
    ensures signal.id != 0 && signal.delta > 0.0 ==> r < prev
    ensures signal.id != 0 && signal.delta < 0.0 ==> r > prev
    ensures signal.id != 0 ==> Abs(r - prev) == ScrollDegrees * Abs(signal.delta)
  {
    if signal.id == 0 || signal.delta == 0.0 then prev else prev - signal.delta * ScrollDegrees
  }

  /** The ring after the scroll effect has seen each of `signals` in turn. */
  function ScrollAll(prev: real, signals: seq<ScrollSignal>): real
    decreases |signals|
  {
    if signals == [] then prev else ScrollAll(ScrollRotation(prev, signals[0]), signals[1..])
  }

  /** The deltas of the signals the effect acts on (a zero id is the initial signal). */
  function SignalledDelta(signals: seq<ScrollSignal>): real
    decreases |signals|
  {
    if signals == [] then 0.0
    else (if signals[0].id == 0 then 0.0 else signals[0].delta) + SignalledDelta(signals[1..])
  }

  /** A series of scroll signals turns the ring by 15 degrees per unit of total delta, against its sign. */
  lemma {:induction false} ScrollAllTurns(prev: real, signals: seq<ScrollSignal>)
    ensures ScrollAll(prev, signals) == prev - ScrollDegrees * SignalledDelta(signals)
    decreases |signals|
  {
    if signals != [] {
      ScrollAllTurns(ScrollRotation(prev, signals[0]), signals[1..]);
    }
  }

  /** `k` signals of delta `d` move the ring by exactly `-15 * k * d`. */
  lemma {:induction false} RepeatedScroll(prev: real, signals: seq<ScrollSignal>, d: real)
    requires forall i :: 0 <= i < |signals| ==> signals[i].id != 0 && signals[i].delta == d
    ensures ScrollAll(prev, signals) == prev - ScrollDegrees * (|signals| as real) * d
  {
    ScrollAllTurns(prev, signals);
    SignalledConstant(signals, d);
  }

  lemma {:induction false} SignalledConstant(signals: seq<ScrollSignal>, d: real)
    requires forall i :: 0 <= i < |signals| ==> signals[i].id != 0 && signals[i].delta == d
    ensures SignalledDelta(signals) == (|signals| as real) * d
    decreases |signals|
  {
    if signals != [] {
      SignalledConstant(signals[1..], d);
    }
  }

  // ---------------------------------------------------------- projects

  /** `projectIndexById.get(id)`: a `Map` built in order keeps the last index of each id. */
  function IndexById(ids: seq<string>, id: string): (r: Option<nat>)
    ensures r.None? <==> id !in ids
    ensures r.Some? ==> r.value < |ids| && ids[r.value] == id
    ensures r.Some? ==> forall j :: r.value < j < |ids| ==> ids[j] != id
  {
    if |ids| == 0 then None
    else if ids[|ids| - 1] == id then Some(|ids| - 1)
    else
      var r := IndexById(ids[..|ids| - 1], id);
      assert ids == ids[..|ids| - 1] + [ids[|ids| - 1]];
      r
  }

  predicate Distinct(ids: seq<string>)
  {
    forall i, j :: 0 <= i < j < |ids| ==> ids[i] != ids[j]
  }

  /** With distinct ids, the map gives back each card's own index. */
  lemma IndexOfDistinct(ids: seq<string>, i: nat)
    requires Distinct(ids) && i < |ids|
    ensures IndexById(ids, ids[i]) == Some(i)
  {
  }

  /** The technical-execution list: the lines of the text, trimmed, without the blank ones. */
  function TechnicalItems(text: string): (items: seq<string>)
    ensures forall x :: x in items <==> x != "" && x in TrimAll(Split(text, '\n'))
    ensures multiset(items) == multiset(TrimAll(Split(text, '\n')))["" := 0]
  {
    NonEmpty(TrimAll(Split(text, '\n')))
  }

  /** A text of one line gives its trimmed line, unless that is blank. */
  lemma TechnicalItemsOneLine(line: string)
    requires '\n' !in line
    ensures TechnicalItems(line) == Kept(Trim(line))
  {
    SplitNoSeparator(line, '\n');
    assert TrimAll([line]) == [Trim(line)];
    NonEmptySingle(Trim(line));
  }

  /**
   * The items of a text are those of its first line, in the order the
   * lines come: the first line's trimmed text unless it is blank, then the
   * items of the rest.
   */
  lemma TechnicalItemsFirstLine(line: string, rest: string)
    requires '\n' !in line
    ensures TechnicalItems(line + ['\n'] + rest) == Kept(Trim(line)) + TechnicalItems(rest)
  {
    var pieces := Split(rest, '\n');
    SplitFirstLine(line, '\n', rest);
    TrimAllConcat([line], pieces);
    assert TrimAll([line]) == [Trim(line)];
    NonEmptyConcat([Trim(line)], TrimAll(pieces));
    NonEmptySingle(Trim(line));
  }

  /** No item is blank, spans two lines, or keeps a space at either end. */
  lemma TechnicalItemsClean(text: string, item: string)
    requires item in TechnicalItems(text)
    ensures item != "" && '\n' !in item && item == Trim(item)
  {
    var lines := Split(text, '\n');
    var trimmed := TrimAll(lines);
    var j :| 0 <= j < |trimmed| && trimmed[j] == item;
    TrimKeepsOut(lines[j], '\n');
    TrimIdempotent(lines[j]);
  }

  // -------------------------------------------------------------- view

  /** The component's own state. */
  datatype GalaxyState = GalaxyState(
    selectedIndex: int,
    rotation: real,
    isDragging: bool,
    detailsOpen: bool,
    startX: real,
    dragBase: real)

  /** What the confirm effect does to the rotation and which link it opens. */
  function ConfirmRotation(ids: seq<string>, rotation: real, target: Option<FocusTarget>): real
    requires |ids| > 0
  {
    if target.Some? && target.value.Project? && IndexById(ids, target.value.id).Some? then
      ClosestRotation(rotation, ProjectAngle(IndexById(ids, target.value.id).value, |ids|))
    else rotation
  }

  class ProfessionalGalaxyView {
    const actions: ActionLayer
    /** The ids of PROJECTS, in order. */
    const projectIds: seq<string>
    var selectedIndex: int
    var rotation: real
    var isDragging: bool
    var detailsOpen: bool
    var startX: real
    var dragBase: real

    ghost function Local(): GalaxyState
      reads this
    {
      GalaxyState(selectedIndex, rotation, isDragging, detailsOpen, startX, dragBase)
    }

    /** There are cards, and the selected one is the card the rotation brings nearest the front. */
    ghost predicate Valid()
      reads this
    {
      |projectIds| > 0 && selectedIndex == SelectedIndex(rotation, |projectIds|)
    }

    constructor (actions: ActionLayer, projectIds: seq<string>)
      requires |projectIds| > 0
      ensures this.actions == actions && this.projectIds == projectIds
      ensures Local() == GalaxyState(0, 0.0, false, false, 0.0, 0.0) && Valid()
    {
      this.actions := actions;
      this.projectIds := projectIds;
      selectedIndex := 0;
      rotation := 0.0;
      isDragging := false;
      detailsOpen := false;
      startX := 0.0;
      dragBase := 0.0;
      assert SnapIndex(0.0, |projectIds|) == 0;
    }

    /** `setRotation`, followed by the selection effect. */
    method RotateTo(r: real)
      requires |projectIds| > 0
      modifies this
      ensures Local() == old(Local()).(rotation := r, selectedIndex := SelectedIndex(r, |projectIds|))
      ensures Valid()
    {
      rotation := r;
      selectedIndex := SelectedIndex(r, |projectIds|);
    }

    /**
     * The confirm effect: a project target turns its card to the front the
     * short way and opens the details; a link target is opened.
     */
    method OnConfirmSignal() returns (openedUrl: Option<string>)
      requires Valid()
      modifies this
      ensures Valid()
      ensures var f := actions.confirmFocus;
        if actions.confirmId == 0 || f.None? then Local() == old(Local()) && openedUrl.None?
        else if f.value.Project? then
          var r := ConfirmRotation(projectIds, old(rotation), f);
          Local() == old(Local()).(rotation := r, selectedIndex := SelectedIndex(r, |projectIds|), detailsOpen := true)
          && openedUrl.None?
        else Local() == old(Local()) && openedUrl == (if f.value.Link? then Some(f.value.url) else None)
    {
      openedUrl := None;
      if actions.confirmId == 0 {
        return;
      }
      var f := actions.confirmFocus;
      if f.None? {
        return;
      }
      if f.value.Project? {
        var next := IndexById(projectIds, f.value.id);
        if next.Some? {
          RotateTo(ClosestRotation(rotation, ProjectAngle(next.value, |projectIds|)));
        }
        detailsOpen := true;
      }
      if f.value.Link? {
        openedUrl := Some(f.value.url);
      }
    }

    method OnSummonSignal()
      modifies this
      ensures Local() == old(Local()).(detailsOpen := if actions.summonId == 0 then old(detailsOpen) else true)
    {
      if actions.summonId == 0 {
        return;
      }
      detailsOpen := true;
    }

    method OnDismissSignal()
      modifies this
      ensures Local() == old(Local()).(detailsOpen := if actions.dismissId == 0 then old(detailsOpen) else false)
    {
      if actions.dismissId == 0 {
        return;
      }
      detailsOpen := false;
    }

    method OnScrollSignal()
      requires Valid()
      modifies this
      ensures Valid()
      ensures rotation == ScrollRotation(old(rotation), actions.scrollSignal)
      ensures Local() == old(Local()).(rotation := rotation, selectedIndex := selectedIndex)
    {
      if actions.scrollSignal.id == 0 || actions.scrollSignal.delta == 0.0 {
        return;
      }
      RotateTo(rotation - actions.scrollSignal.delta * ScrollDegrees);
    }

    /** The focus effect: a project focus turns its card to the front, unless a drag is on. */
    method OnFocusChange()
      requires Valid()
      modifies this
      ensures Valid()
      ensures rotation == (if isDragging then old(rotation) else ConfirmRotation(projectIds, old(rotation), actions.focus))
      ensures Local() == old(Local()).(rotation := rotation, selectedIndex := selectedIndex)
    {
      if actions.focus.None? || !actions.focus.value.Project? {
        return;
      }
      if isDragging {
        return;
      }
      var next := IndexById(projectIds, actions.focus.value.id);
      if next.Some? {
        RotateTo(ClosestRotation(rotation, ProjectAngle(next.value, |projectIds|)));
      }
    }

    method DragStart(clientX: real)
      modifies this
      ensures Local() == old(Local()).(isDragging := true, startX := clientX, dragBase := old(rotation))
    {
      isDragging := true;
      startX := clientX;
      dragBase := rotation;
    }

    /** While dragging, the ring follows the pointer at 0.4 degrees per pixel from where the drag began. */
    method DragMove(clientX: real)
      requires Valid()
      modifies this
      ensures Valid()
      ensures rotation == (if old(isDragging) then dragBase + (clientX - startX) * DragGain else old(rotation))
      ensures Local() == old(Local()).(rotation := rotation, selectedIndex := selectedIndex)
    {
      if !isDragging {
        return;
      }
      RotateTo(dragBase + (clientX - startX) * DragGain);
    }

    /**
     * Mouse up, touch end and mouse leave all snap the ring to the nearest
     * card, dragging or not. Ending a drag changes `isDragging`, so the
     * focus effect runs again and turns a focused project to the front.
     */
    method DragEnd()
      requires Valid()
      modifies this
      ensures Valid()
      ensures var snapped := Snapped(old(rotation), |projectIds|);
        rotation == if old(isDragging) then ConfirmRotation(projectIds, snapped, actions.focus) else snapped
      ensures !old(isDragging) ==> selectedIndex == old(selectedIndex)
      ensures Local() == old(Local()).(isDragging := false, rotation := rotation, selectedIndex := selectedIndex)
    {
      var wasDragging := isDragging;
      isDragging := false;
      RotateTo(Snapped(rotation, |projectIds|));
      if wasDragging {
        OnFocusChange();
      }
    }

    method Wheel(deltaX: real, deltaY: real)
      requires Valid()
      modifies this
      ensures Valid()
      ensures rotation == WheelRotation(old(rotation), deltaX, deltaY)
      ensures Local() == old(Local()).(rotation := rotation, selectedIndex := selectedIndex)
    {
      RotateTo(WheelRotation(rotation, deltaX, deltaY));
    }

    /**
     * Hovering card `index`: it becomes the focus and, when no drag is on,
     * the ring turns it to the front; the focus effect that follows turns
     * no further when the ids are distinct.
     */
    method CardEnter(index: nat)
      requires Valid() && index < |projectIds|
      modifies this, actions
      ensures Valid()
      ensures actions.focus == Some(Project(projectIds[index])) && actions.Signals() == old(actions.Signals())
      ensures old(isDragging) ==> rotation == old(rotation)
      ensures !old(isDragging) && Distinct(projectIds) ==>
                rotation == ClosestRotation(old(rotation), ProjectAngle(index, |projectIds|))
      ensures Local() == old(Local()).(rotation := rotation, selectedIndex := selectedIndex)
    {
      actions.SetFocus(Some(Project(projectIds[index])));
      ghost var r0 := rotation;
      if !isDragging && index != selectedIndex {
        RotateTo(ClosestRotation(rotation, ProjectAngle(index, |projectIds|)));
      }
      ghost var r1 := rotation;
      OnFocusChange();
      if !old(isDragging) && Distinct(projectIds) {
        IndexOfDistinct(projectIds, index);
        ClosestRotationIdempotent(r0, ProjectAngle(index, |projectIds|));
      }
    }

    /** Leaving card `index` clears the focus only if it is still that card. */
    method CardLeave(index: nat)
      requires index < |projectIds|
      modifies actions
      ensures actions.focus == (if old(actions.focus) == Some(Project(projectIds[index])) then None else old(actions.focus))
      ensures actions.Signals() == old(actions.Signals())
    {
      if actions.focus == Some(Project(projectIds[index])) {
        actions.SetFocus(None);
      }
    }

    /**
     * Clicking card `index`: focus and confirm it and open the details;
     * the confirm effect turns it to the front, and the focus effect after
     * it turns no further.
     */
    method CardClick(index: nat)
      requires Valid() && index < |projectIds|
      modifies this, actions
      ensures Valid()
      ensures actions.focus == Some(Project(projectIds[index])) && actions.confirmFocus == actions.focus
      ensures actions.confirmId == old(actions.confirmId) + 1
      ensures actions.summonId == old(actions.summonId) && actions.dismissId == old(actions.dismissId)
      ensures actions.scrollSignal == old(actions.scrollSignal)
      ensures rotation == ConfirmRotation(projectIds, old(rotation), actions.focus) && detailsOpen
      ensures Distinct(projectIds) ==> rotation == ClosestRotation(old(rotation), ProjectAngle(index, |projectIds|))
      ensures Local() == old(Local()).(rotation := rotation, selectedIndex := selectedIndex, detailsOpen := true)
    {
      actions.SetFocus(Some(Project(projectIds[index])));
      actions.Confirm(Omitted);
      detailsOpen := true;
      var _ := OnConfirmSignal();
      ghost var r1 := rotation;
      OnFocusChange();
      var j := IndexById(projectIds, projectIds[index]).value;
      ClosestRotationIdempotent(old(rotation), ProjectAngle(j, |projectIds|));
      if Distinct(projectIds) {
        IndexOfDistinct(projectIds, index);
      }
    }

    method CloseDetails()
      modifies this
      ensures Local() == old(Local()).(detailsOpen := false)
    {
      detailsOpen := false;
    }

    /** Hovering a link button makes its URL the focus. */
    method LinkEnter(url: string)
      modifies actions
      ensures actions.focus == Some(Link(url)) && actions.Signals() == old(actions.Signals())
    {
      actions.SetFocus(Some(Link(url)));
    }

    method LinkLeave(url: string)
      modifies actions
      ensures actions.focus == (if old(actions.focus) == Some(Link(url)) then None else old(actions.focus))
      ensures actions.Signals() == old(actions.Signals())
    {
      if actions.focus == Some(Link(url)) {
        actions.SetFocus(None);
      }
    }

    method BackEnter()
      modifies actions
      ensures actions.focus == Some(Back) && actions.Signals() == old(actions.Signals())
    {
      actions.SetFocus(Some(Back));
    }

    method BackLeave()
      modifies actions
      ensures actions.focus == (if old(actions.focus) == Some(Back) then None else old(actions.focus))
      ensures actions.Signals() == old(actions.Signals())
    {
      if actions.focus == Some(Back) {
        actions.SetFocus(None);
      }
    }

    /** The exit button: focus and confirm the back target; the confirm effect leaves the view alone. */
    method BackClick()
      requires Valid()
      modifies this, actions
      ensures Valid() && Local() == old(Local())
      ensures actions.focus == Some(Back) && actions.confirmFocus == Some(Back)
      ensures actions.confirmId == old(actions.confirmId) + 1
      ensures actions.summonId == old(actions.summonId) && actions.dismissId == old(actions.dismissId)
      ensures actions.scrollSignal == old(actions.scrollSignal)
    {
      actions.SetFocus(Some(Back));
      actions.Confirm(Omitted);
      var _ := OnConfirmSignal();
    }
  }
}
