/**
 * The map view of components/PersonalGalaxy.tsx: memories pinned at
 * percentage coordinates, one of them open at a time, the map translated so
 * the open one sits at (25%, 50%), and the gesture signals of the action
 * layer opening, cycling and closing memories.
 */
module PersonalGalaxy {
  import opened Wrappers
  import opened JsMath
  import opened Actions

  /** A memory: its id and its position on the map, in percent. */
  datatype Memory = Memory(id: string, x: real, y: real)

  /** The map's translation, in percent. */
  datatype Offset = Offset(x: real, y: real)

  /** No two memories share an id. */
  predicate DistinctIds(memories: seq<Memory>)
  {
    forall i, j :: 0 <= i < j < |memories| ==> memories[i].id != memories[j].id
  }

  /** `MEMORIES.findIndex(m => m.id === id)`: the first memory with that id, or -1. */
  function FindIndex(memories: seq<Memory>, id: string): (r: int)
    ensures -1 <= r < |memories|
    ensures r == -1 <==> forall k :: 0 <= k < |memories| ==> memories[k].id != id
    ensures r >= 0 ==> memories[r].id == id && forall k :: 0 <= k < r ==> memories[k].id != id
  {
    if |memories| == 0 then -1
    else if memories[0].id == id then 0
    else
      var r := FindIndex(memories[1..], id);
      if r == -1 then -1 else r + 1
  }

  /** With distinct ids, the memory at `i` is found at `i`. */
  lemma FindIndexOfDistinct(memories: seq<Memory>, i: nat)
    requires DistinctIds(memories) && i < |memories|
    ensures FindIndex(memories, memories[i].id) == i
  {
  }

  /** `MEMORIES.find(mem => mem.id === id)`: the first memory with that id. */
  function FindMemory(memories: seq<Memory>, id: string): (r: Option<Memory>)
    ensures r.None? <==> forall k :: 0 <= k < |memories| ==> memories[k].id != id
    ensures r.Some? ==> exists k :: 0 <= k < |memories| && r.value == memories[k]
                                    && forall j :: 0 <= j < k ==> memories[j].id != id
    ensures r.Some? ==> r.value.id == id
  {
    var i := FindIndex(memories, id);
    if i == -1 then None else Some(memories[i])
  }

  /**
   * `handleSummon`: the memory after the open one, the last wrapping to the
   * first; with none open, or the open one not found, the first. An empty
   * list reads past its end, which is `undefined` and shows nothing.
   */
  function NextMemory(memories: seq<Memory>, active: Option<Memory>): (r: Option<Memory>)
    ensures |memories| == 0 <==> r.None?
    ensures r.Some? ==> r.value in memories
    ensures |memories| > 0 && (active.None? || FindIndex(memories, active.value.id) == -1) ==> r == Some(memories[0])
    ensures |memories| > 0 && active.Some? && FindIndex(memories, active.value.id) == |memories| - 1 ==>
              r == Some(memories[0])
    ensures active.Some? && 0 <= FindIndex(memories, active.value.id) < |memories| - 1 ==>
              r == Some(memories[FindIndex(memories, active.value.id) + 1])
  {
    if |memories| == 0 then None
    else
      var current := if active.Some? then FindIndex(memories, active.value.id) else -1;
      Some(memories[NextIndex(current, |memories|)])
  }

  /** The index after `c` in a list of `n`, the last wrapping to the first. */
  function NextIndex(c: int, n: int): (r: nat)
    requires n > 0 && -1 <= c < n
    ensures r < n
  {
    if c == n - 1 then 0 else c + 1
  }

  /** `NextIndex` is the source's `(c + 1) % n`. */
  lemma WrapSucc(c: int, n: int)
    requires n > 0 && -1 <= c < n
    ensures (c + 1) % n == NextIndex(c, n)
  {
    if c == n - 1 { ModOfRange(c + 1, n, 1); } else { ModOfRange(c + 1, n, 0); }
  }

  /** `k` presses of Jump (or summon signals) in a row, from `active`. */
  function SummonTimes(memories: seq<Memory>, active: Option<Memory>, k: nat): Option<Memory>
    decreases k
  {
    if k == 0 then active else SummonTimes(memories, NextMemory(memories, active), k - 1)
  }

  /** Jumping `k` times from the memory at `i` lands `k` places on, round the list. */
  lemma SummonFrom(memories: seq<Memory>, i: nat, k: nat)
    requires DistinctIds(memories) && i < |memories|
    ensures SummonTimes(memories, Some(memories[i]), k) == Some(memories[(i + k) % |memories|])
  {
    SummonAdvance(memories, i, k);
    AdvanceWraps(i, k, |memories|);
  }

  /** The index `k` places on from `i`, stepping round a list of `n`. */
  ghost function Advance(i: nat, k: nat, n: nat): (r: nat)
    requires i < n
    ensures r < n
    decreases k
  {
    if k == 0 then i else Advance(NextIndex(i, n), k - 1, n)
  }

  lemma {:induction false} SummonAdvance(memories: seq<Memory>, i: nat, k: nat)
    requires DistinctIds(memories) && i < |memories|
    ensures SummonTimes(memories, Some(memories[i]), k) == Some(memories[Advance(i, k, |memories|)])
    decreases k
  {
    if k > 0 {
      var j := NextAfter(memories, i);
      SummonAdvance(memories, j, k - 1);
    }
  }

  lemma {:induction false} AdvanceWraps(i: nat, k: nat, n: nat)
    requires i < n
    ensures Advance(i, k, n) == (i + k) % n
    decreases k
  {
    if k == 0 {
      ModOfRange(i, n, 0);
    } else {
      var j := NextIndex(i, n);
      WrapSucc(i, n);
      AdvanceWraps(j, k - 1, n);
      ShiftIndex(i, k, n, j);
    }
  }

  /** With distinct ids, one jump from the memory at `i` opens the next one, the last wrapping to the first. */
  lemma NextAfter(memories: seq<Memory>, i: nat) returns (j: nat)
    requires DistinctIds(memories) && i < |memories|
    ensures j == NextIndex(i, |memories|)
    ensures NextMemory(memories, Some(memories[i])) == Some(memories[j])
  {
    FindIndexOfDistinct(memories, i);
    j := NextIndex(i, |memories|);
  }

  lemma AddFullRound(i: nat, n: nat)
    requires i < n
    ensures (i + n) % n == i
  {
    ModOfRange(i + n, n, 1);
  }

  lemma ShiftIndex(i: nat, k: nat, n: int, j: nat)
    requires n > 0 && k >= 1 && j == (i + 1) % n
    ensures (j + (k - 1)) % n == (i + k) % n
  {
    ModAbsorb(i + 1, k - 1, n);
  }

  /** `((a % n) + b) % n == (a + b) % n` for non-negative `a` and `b`. */
  lemma ModAbsorb(a: nat, b: nat, n: int)
    requires n > 0
    ensures ((a % n) + b) % n == (a + b) % n
  {
    var q := a / n;
    var s := (a % n) + b;
    var p := s / n;
    assert s == n * p + s % n;
    assert a == n * q + a % n;
    assert (a + b) - (q + p) * n == s % n;
    ModOfRange(a + b, n, q + p);
  }

  /**
   * From nothing open, the `k`-th jump opens the memory at `(k - 1) mod n`:
   * jumps visit every memory in list order, then start again.
   */
  lemma SummonCycles(memories: seq<Memory>, k: nat)
    requires DistinctIds(memories) && |memories| > 0 && k >= 1
    ensures SummonTimes(memories, None, k) == Some(memories[(k - 1) % |memories|])
  {
    SummonFrom(memories, 0, k - 1);
  }

  /** A full round of jumps comes back to the memory it started from. */
  lemma SummonFullRound(memories: seq<Memory>, i: nat)
    requires DistinctIds(memories) && i < |memories|
    ensures SummonTimes(memories, Some(memories[i]), |memories|) == Some(memories[i])
  {
    var n := |memories|;
    SummonFrom(memories, i, n);
    AddFullRound(i, n);
  }

  /** The offset effect: the open memory is moved to (25%, 50%); with none open the map is not moved. */
  function OffsetFor(active: Option<Memory>): (r: Offset)
    ensures active.Some? ==> active.value.x + r.x == 25.0 && active.value.y + r.y == 50.0
    ensures active.None? ==> r == Offset(0.0, 0.0)
  {
    if active.Some? then Offset(25.0 - active.value.x, 50.0 - active.value.y) else Offset(0.0, 0.0)
  }

  /** The memory a place marker highlights for a focus: the focused place's id, else none. */
  function HoveredFor(focus: Option<FocusTarget>): (r: Option<string>)
    ensures r.Some? <==> focus.Some? && focus.value.Place?
    ensures r.Some? ==> focus == Some(Place(r.value))
  {
    if focus.Some? && focus.value.Place? then Some(focus.value.id) else None
  }

  /** The memory a confirmed place opens: the first with its id, if any, and only once a confirm has happened. */
  function ConfirmedMemory(memories: seq<Memory>, active: Option<Memory>, confirmId: nat, target: Option<FocusTarget>)
    : (r: Option<Memory>)
    ensures confirmId == 0 || target.None? || !target.value.Place? ==> r == active
    ensures confirmId != 0 && target.Some? && target.value.Place? ==>
              r == (if FindMemory(memories, target.value.id).Some? then FindMemory(memories, target.value.id) else active)
  {
    if confirmId == 0 || target.None? || !target.value.Place? then active
    else
      var m := FindMemory(memories, target.value.id);
      if m.Some? then m else active
  }

  /**
   * The summon effect as written: its dependencies include `handleSummon`,
   * which is rebuilt whenever the open memory changes, so once any summon has
   * happened each change of the open memory runs the effect again.
   */
  predicate SummonEffectRerunsAsWritten(summonId: nat, before: Option<Memory>, after: Option<Memory>)
  {
    summonId != 0 && before != after
  }

  /**
   * With two or more memories and a summon signal on record, the effect
   * never settles: every run opens a different memory, which runs it again.
   */
  lemma SummonEffectNeverSettles(memories: seq<Memory>, summonId: nat, k: nat)
    requires DistinctIds(memories) && |memories| >= 2 && summonId != 0 && k >= 1
    ensures SummonEffectRerunsAsWritten(summonId, SummonTimes(memories, None, k), SummonTimes(memories, None, k + 1))
  {
    var n := |memories|;
    SummonCycles(memories, k);
    SummonCycles(memories, k + 1);
    var a := (k - 1) % n;
    ModAbsorb(k - 1, 1, n);
    WrapSucc(a, n);
    assert memories[a].id != memories[NextIndex(a, n)].id;
  }

  /** The view's own state. */
  datatype MapState = MapState(activeMemory: Option<Memory>, hoveredMemoryId: Option<string>, offset: Offset)

  class PersonalGalaxyView {
    const actions: ActionLayer
    /** MEMORIES, in order. */
    const memories: seq<Memory>
    var activeMemory: Option<Memory>
    var hoveredMemoryId: Option<string>
    var offset: Offset

    ghost function Local(): MapState
      reads this
    {
      MapState(activeMemory, hoveredMemoryId, offset)
    }

    /** The map is always translated for the memory that is open. */
    ghost predicate Valid()
      reads this
    {
      offset == OffsetFor(activeMemory)
    }

    constructor (actions: ActionLayer, memories: seq<Memory>)
      ensures this.actions == actions && this.memories == memories
      ensures Local() == MapState(None, None, Offset(0.0, 0.0)) && Valid()
    {
      this.actions := actions;
      this.memories := memories;
      activeMemory := None;
      hoveredMemoryId := None;
      offset := Offset(0.0, 0.0);
    }

    /** `setActiveMemory`, followed by the offset effect. */
    method SetActive(m: Option<Memory>)
      modifies this
      ensures Valid()
      ensures Local() == old(Local()).(activeMemory := m, offset := OffsetFor(m))
    {
      activeMemory := m;
      offset := OffsetFor(m);
    }

    /** `handleSummon`, from the Jump button or the summon signal: one step round the list. */
    method HandleSummon()
      modifies this
      ensures Valid()
      ensures activeMemory == NextMemory(memories, old(activeMemory))
      ensures Local() == old(Local()).(activeMemory := activeMemory, offset := offset)
    {
      var current := -1;
      if activeMemory.Some? {
        current := FindIndex(memories, activeMemory.value.id);
      }
      if |memories| == 0 {
        SetActive(None);
      } else {
        WrapSucc(current, |memories|);
        SetActive(Some(memories[(current + 1) % |memories|]));
      }
    }

    /** `closeMemory`: the map background, the Close button and the journal's close button. */
    method CloseMemory()
      modifies this
      ensures Valid()
      ensures Local() == old(Local()).(activeMemory := None, offset := Offset(0.0, 0.0))
    {
      SetActive(None);
    }

    /** The confirm effect: a confirmed place opens the first memory with its id. */
    method OnConfirmSignal()
      requires Valid()
      modifies this
      ensures Valid()
      ensures activeMemory == ConfirmedMemory(memories, old(activeMemory), actions.confirmId, actions.confirmFocus)
      ensures Local() == old(Local()).(activeMemory := activeMemory, offset := offset)
    {
      if actions.confirmId == 0 {
        return;
      }
      var f := actions.confirmFocus;
      if f.None? {
        return;
      }
      if f.value.Place? {
        var next := FindMemory(memories, f.value.id);
        if next.Some? {
          SetActive(next);
        }
      }
    }

    /** The summon effect, run once per new summon signal: one jump. */
    method OnSummonSignal()
      requires Valid()
      modifies this
      ensures Valid()
      ensures activeMemory == (if actions.summonId == 0 then old(activeMemory) else NextMemory(memories, old(activeMemory)))
      ensures Local() == old(Local()).(activeMemory := activeMemory, offset := offset)
    {
      if actions.summonId == 0 {
        return;
      }
      HandleSummon();
    }

    method OnDismissSignal()
      requires Valid()
      modifies this
      ensures Valid()
      ensures activeMemory == (if actions.dismissId == 0 then old(activeMemory) else None)
      ensures Local() == old(Local()).(activeMemory := activeMemory, offset := offset)
    {
      if actions.dismissId == 0 {
        return;
      }
      CloseMemory();
    }

    /** The focus effect: a place focus highlights its marker; any other focus clears the highlight. */
    method OnFocusChange()
      modifies this
      ensures Local() == old(Local()).(hoveredMemoryId := HoveredFor(actions.focus))
    {
      if actions.focus.Some? && actions.focus.value.Place? {
        hoveredMemoryId := Some(actions.focus.value.id);
        return;
      }
      hoveredMemoryId := None;
    }

    /** Hovering the marker of memory `index` highlights it and makes its place the focus. */
    method MarkerEnter(index: nat)
      requires index < |memories|
      modifies this, actions
      ensures actions.focus == Some(Place(memories[index].id)) && actions.Signals() == old(actions.Signals())
      ensures Local() == old(Local()).(hoveredMemoryId := Some(memories[index].id))
    {
      var target := Some(Place(memories[index].id));
      hoveredMemoryId := Some(memories[index].id);
      actions.SetFocus(target);
      OnFocusChange();
    }

    /** Leaving the marker drops the highlight, and the focus only if it is still this place. */
    method MarkerLeave(index: nat)
      requires index < |memories|
      modifies this, actions
      ensures actions.focus == (if old(actions.focus) == Some(Place(memories[index].id)) then None else old(actions.focus))
      ensures actions.Signals() == old(actions.Signals())
      ensures Local() == old(Local()).(hoveredMemoryId := None)
    {
      hoveredMemoryId := None;
      if actions.focus == Some(Place(memories[index].id)) {
        actions.SetFocus(None);
        OnFocusChange();
      }
    }

    /**
     * Clicking the marker of memory `index` focuses and confirms its place
     * and opens it; the confirm effect then opens the first memory with that
     * id, which is this one when ids are distinct. The click does not reach
     * the map background, so the memory is not closed again.
     */
    method MarkerClick(index: nat)
      requires Valid() && index < |memories|
      modifies this, actions
      ensures Valid()
      ensures actions.focus == Some(Place(memories[index].id)) && actions.confirmFocus == actions.focus
      ensures actions.confirmId == old(actions.confirmId) + 1
      ensures actions.summonId == old(actions.summonId) && actions.dismissId == old(actions.dismissId)
      ensures actions.scrollSignal == old(actions.scrollSignal)
      ensures activeMemory == FindMemory(memories, memories[index].id)
      ensures DistinctIds(memories) ==> activeMemory == Some(memories[index])
      ensures hoveredMemoryId == Some(memories[index].id)
    {
      var target := Some(Place(memories[index].id));
      actions.SetFocus(target);
      actions.Confirm(Omitted);
      SetActive(Some(memories[index]));
      OnConfirmSignal();
      OnFocusChange();
      if DistinctIds(memories) {
        FindIndexOfDistinct(memories, index);
      }
    }

    /** Hovering the exit button makes it the focus, which clears any marker highlight. */
    method BackEnter()
      modifies this, actions
      ensures actions.focus == Some(Back) && actions.Signals() == old(actions.Signals())
      ensures Local() == old(Local()).(hoveredMemoryId := None)
    {
      actions.SetFocus(Some(Back));
      OnFocusChange();
    }

    method BackLeave()
      modifies this, actions
      ensures actions.focus == (if old(actions.focus) == Some(Back) then None else old(actions.focus))
      ensures actions.Signals() == old(actions.Signals())
      ensures Local() == old(Local()).(hoveredMemoryId := if old(actions.focus) == Some(Back) then None else old(hoveredMemoryId))
    {
      if actions.focus == Some(Back) {
        actions.SetFocus(None);
        OnFocusChange();
      }
    }

    /** The exit button: focus and confirm the back target; the confirm effect leaves the map alone. */
    method BackClick()
      requires Valid()
      modifies this, actions
      ensures Valid() && activeMemory == old(activeMemory)
      ensures actions.focus == Some(Back) && actions.confirmFocus == Some(Back)
      ensures actions.confirmId == old(actions.confirmId) + 1
      ensures actions.summonId == old(actions.summonId) && actions.dismissId == old(actions.dismissId)
      ensures actions.scrollSignal == old(actions.scrollSignal)
      ensures Local() == old(Local()).(hoveredMemoryId := None)
    {
      actions.SetFocus(Some(Back));
      actions.Confirm(Omitted);
      OnConfirmSignal();
      OnFocusChange();
    }
  }
}
