// The drag-to-reorder list controller of src/components/DraggableList.tsx:
// the three pieces of drag state, the six drag-event handlers, the index
// arithmetic of a drop, and the per-item highlight flags.
module DraggableList {
  import opened Props
  import opened ListOps

  /** Which side of the hovered item the dragged item would land on. */
  datatype DropPosition = Above | Below

  /** The bounding box of an item's container, in client coordinates. */
  datatype Rect = Rect(left: real, top: real, right: real, bottom: real)
  {
    function Height(): real { bottom - top }

    /** The vertical midpoint that splits the item into its upper and lower half. */
    function MidY(): real { top + Height() / 2.0 }
  }

  /** The drag state of one list. */
  datatype DragState = DragState(
    draggedIndex: Option<nat>,
    dragOverIndex: Option<nat>,
    dropPosition: DropPosition)

  /** The state a list starts with: no drag, no target, `below`. */
  function Initial(): (s: DragState)
    ensures Idle(s) && s.dropPosition == Below
  {
    DragState(None, None, Below)
  }

  /** No drag is active and no item is a drop target. */
  predicate Idle(s: DragState)
  {
    s.draggedIndex.None? && s.dragOverIndex.None?
  }

  /**
   * The guard of the hover, enter and drop handlers: a drag is active and
   * `index` is some other item than the dragged one.
   */
  predicate IsTarget(s: DragState, index: nat)
  {
    s.draggedIndex.Some? && s.draggedIndex.value != index
  }

  /** `e.clientY < midY`: the pointer is in the upper half of the item. */
  predicate IsAbove(clientY: real, rect: Rect)
  {
    clientY < rect.MidY()
  }

  /** The pointer is strictly outside the rectangle; its edges count as inside. */
  predicate Outside(x: real, y: real, rect: Rect)
  {
    x < rect.left || x > rect.right || y < rect.top || y > rect.bottom
  }

  /** `handleDragStart`: only the dragged index is recorded. */
  function Start(s: DragState, index: nat): (r: DragState)
    ensures r.draggedIndex == Some(index)
    ensures r.dragOverIndex == s.dragOverIndex && r.dropPosition == s.dropPosition
  {
    s.(draggedIndex := Some(index))
  }

  /**
   * `handleDragOver` and `handleDragEnter` (the two have the same body):
   * ignored unless `index` is a target; otherwise the item becomes the drop
   * target and the pointer's half of it decides the drop position.
   */
  function Hover(s: DragState, index: nat, clientY: real, rect: Rect): (r: DragState)
    ensures r.draggedIndex == s.draggedIndex
    ensures !IsTarget(s, index) ==> r == s
    ensures IsTarget(s, index) ==> r.dragOverIndex == Some(index)
    ensures IsTarget(s, index) ==> (r.dropPosition == Above <==> clientY < rect.MidY())
  {
    if IsTarget(s, index) then
      s.(dragOverIndex := Some(index), dropPosition := if IsAbove(clientY, rect) then Above else Below)
    else
      s
  }

  /**
   * `handleDragLeave`: the drop target is cleared only when the pointer has
   * left the container's rectangle; nothing else changes.
   */
  function Leave(s: DragState, clientX: real, clientY: real, rect: Rect): (r: DragState)
    ensures r.draggedIndex == s.draggedIndex && r.dropPosition == s.dropPosition
    ensures Outside(clientX, clientY, rect) ==> r.dragOverIndex.None?
    ensures rect.left <= clientX <= rect.right && rect.top <= clientY <= rect.bottom ==> r == s
  {
    if Outside(clientX, clientY, rect) then s.(dragOverIndex := None) else s
  }

  /**
   * The state after `handleDrop` or `handleDragEnd`: both indices cleared,
   * while the drop position is kept for the next gesture.
   */
  function Reset(s: DragState): (r: DragState)
    ensures Idle(r) && r.dropPosition == s.dropPosition
  {
    s.(draggedIndex := None, dragOverIndex := None)
  }

  /**
   * Where the dragged item is inserted into the list it was removed from:
   * the drop index, moved one left when the removal shifted it, and one
   * further right when dropping below the target.
   */
  function InsertIndex(from: nat, dropIndex: nat, pos: DropPosition): (r: nat)
    requires from != dropIndex
    ensures r <= if from < dropIndex then dropIndex else from
  {
    var shifted := if from < dropIndex then dropIndex - 1 else dropIndex;
    if pos == Below then shifted + 1 else shifted
  }

  /**
   * The list with the item at `from` taken out and put back at `to`, stated
   * position by position: the items between the two positions shift by one
   * towards `from`, and every other item stays where it was.
   */
  function Moved<T>(s: seq<T>, from: nat, to: nat): (r: seq<T>)
    requires from < |s| && to < |s|
    ensures |r| == |s| && r[to] == s[from]
  {
    seq(|s|, k requires 0 <= k < |s| =>
      if k == to then s[from]
      else if from <= k < to then s[k + 1]
      else if to < k <= from then s[k - 1]
      else s[k])
  }

  /** Moving is what the two splices of the drop handler do. */
  lemma MovedBySplice<T>(s: seq<T>, from: nat, to: nat)
    requires from < |s| && to < |s|
    ensures Moved(s, from, to) == InsertAt(RemoveAt(s, from), to, s[from])
  {
  }

  /** Moving an item permutes the list. */
  lemma MovedIsPermutation<T>(s: seq<T>, from: nat, to: nat)
    requires from < |s| && to < |s|
    ensures multiset(Moved(s, from, to)) == multiset(s)
  {
    MovedBySplice(s, from, to);
    RemoveAtMultiset(s, from);
    InsertAtMultiset(RemoveAt(s, from), to, s[from]);
  }

  /** Apart from the moved item, every item keeps its relative order. */
  lemma MovedKeepsOthersInOrder<T>(s: seq<T>, from: nat, to: nat)
    requires from < |s| && to < |s|
    ensures RemoveAt(Moved(s, from, to), to) == RemoveAt(s, from)
  {
  }

  /**
   * `handleDrop`'s effect on the list: `onReorder` receives the reordered
   * list (Some) exactly when a drag is active and the drop is on another
   * item, and is not called (None) otherwise. The list it receives is a
   * permutation of `items`.
   */
  function DropOutcome<T>(items: seq<T>, s: DragState, dropIndex: nat): (r: Option<seq<T>>)
    requires IsTarget(s, dropIndex) ==> s.draggedIndex.value < |items| && dropIndex < |items|
    ensures r.Some? <==> IsTarget(s, dropIndex)
    ensures r.Some? ==> |r.value| == |items| && multiset(r.value) == multiset(items)
  {
    if IsTarget(s, dropIndex) then
      var from := s.draggedIndex.value;
      var to := InsertIndex(from, dropIndex, s.dropPosition);
      MovedIsPermutation(items, from, to);
      Some(Moved(items, from, to))
    else
      None
  }

  /**
   * After a committing drop the dragged item sits at the insert index, the
   * other items are in their old order, and the target item is right below
   * it (drop `above`) or right above it (drop `below`).
   */
  lemma DropLandsBesideTarget<T>(items: seq<T>, s: DragState, dropIndex: nat)
    requires IsTarget(s, dropIndex)
    requires s.draggedIndex.value < |items| && dropIndex < |items|
    ensures var from := s.draggedIndex.value;
            var at := InsertIndex(from, dropIndex, s.dropPosition);
            var r := DropOutcome(items, s, dropIndex).value;
            && at < |items|
            && r[at] == items[from]
            && RemoveAt(r, at) == RemoveAt(items, from)
            && (s.dropPosition == Above ==> at + 1 < |r| && r[at + 1] == items[dropIndex])
            && (s.dropPosition == Below ==> 0 < at && r[at - 1] == items[dropIndex])
  {
  }

  /** `[A,B,C,D]`, drag `A` (0) and drop it below `C` (2): `[B,C,A,D]`. */
  lemma DropFirstBelowThird<T>(a: T, b: T, c: T, d: T)
    ensures DropOutcome([a, b, c, d], DragState(Some(0), Some(2), Below), 2) == Some([b, c, a, d])
  {
    assert Moved([a, b, c, d], 0, 2) == [b, c, a, d];
  }

  /** `[A,B,C,D]`, drag `D` (3) and drop it above `A` (0): `[D,A,B,C]`. */
  lemma DropLastAboveFirst<T>(a: T, b: T, c: T, d: T)
    ensures DropOutcome([a, b, c, d], DragState(Some(3), Some(0), Above), 0) == Some([d, a, b, c])
  {
    assert Moved([a, b, c, d], 3, 0) == [d, a, b, c];
  }

  /** `[A,B,C]`, drag `B` (1) and drop it above `C` (2): the list is unchanged. */
  lemma DropMiddleAboveLast<T>(a: T, b: T, c: T)
    ensures DropOutcome([a, b, c], DragState(Some(1), Some(2), Above), 2) == Some([a, b, c])
  {
    assert Moved([a, b, c], 1, 1) == [a, b, c];
  }

  /**
   * Dropping an item on the near side of either neighbour commits the list
   * unchanged, while dropping it on itself commits nothing.
   */
  lemma DropBesideOwnSlot<T>(items: seq<T>, i: nat, over: Option<nat>, pos: DropPosition)
    requires i + 1 < |items|
    ensures DropOutcome(items, DragState(Some(i), over, Above), i + 1) == Some(items)
    ensures DropOutcome(items, DragState(Some(i + 1), over, Below), i) == Some(items)
    ensures DropOutcome(items, DragState(Some(i), over, pos), i).None?
  {
    assert Moved(items, i, i) == items;
    assert Moved(items, i + 1, i + 1) == items;
  }

  /** The presentation flags of the item at position `i`. */
  datatype ItemFlags = ItemFlags(isDragging: bool, isDragOver: bool, borderTop: bool, borderBottom: bool)

  /**
   * The flags the list derives for item `i` on each render: dimmed while it
   * is dragged, and highlighted on the edge the dragged item would land on
   * while it is the drop target. Never both edges at once.
   */
  function FlagsAt(s: DragState, i: nat): (f: ItemFlags)
    ensures f.isDragging <==> s.draggedIndex == Some(i)
    ensures f.isDragOver <==> s.dragOverIndex == Some(i)
    ensures f.borderTop <==> f.isDragOver && s.dropPosition == Above
    ensures f.borderBottom <==> f.isDragOver && s.dropPosition == Below
    ensures !(f.borderTop && f.borderBottom)
  {
    var over := s.dragOverIndex == Some(i);
    ItemFlags(s.draggedIndex == Some(i), over, over && s.dropPosition == Above, over && s.dropPosition == Below)
  }

  /** Whether item `i` shows an edge highlight. */
  predicate Highlighted(s: DragState, i: nat)
  {
    FlagsAt(s, i).borderTop || FlagsAt(s, i).borderBottom
  }

  /** An event the list's containers and handles receive. */
  datatype Event =
    | DragStart(index: nat)
    | DragOver(index: nat, clientY: real, rect: Rect)
    | DragEnter(index: nat, clientY: real, rect: Rect)
    | DragLeave(clientX: real, clientY: real, rect: Rect)
    | Drop(index: nat)
    | DragEnd

  /** The drag state after one event. */
  function Step(s: DragState, e: Event): DragState
  {
    match e
    case DragStart(i) => Start(s, i)
    case DragOver(i, y, rect) => Hover(s, i, y, rect)
    case DragEnter(i, y, rect) => Hover(s, i, y, rect)
    case DragLeave(x, y, rect) => Leave(s, x, y, rect)
    case Drop(_) => Reset(s)
    case DragEnd => Reset(s)
  }

  /** The drag state after a series of events, in order. */
  function Run(s: DragState, es: seq<Event>): DragState
    decreases |es|
  {
    if es == [] then s else Run(Step(s, es[0]), es[1..])
  }

  /**
   * The design's invariant: a drop target exists only during a drag, and it
   * is never the dragged item itself.
   */
  predicate Consistent(s: DragState)
  {
    s.dragOverIndex.Some? ==> IsTarget(s, s.dragOverIndex.value)
  }

  /** Every drag start in `es` arrives while no drag is active. */
  predicate StartsOnlyWhenIdle(s: DragState, es: seq<Event>)
    decreases |es|
  {
    es == [] || ((es[0].DragStart? ==> s.draggedIndex.None?) && StartsOnlyWhenIdle(Step(s, es[0]), es[1..]))
  }

  /**
   * Each event keeps the invariant, except a drag start that arrives while a
   * drag is already active: the handler does not clear the old target.
   */
  lemma StepKeepsConsistent(s: DragState, e: Event)
    requires Consistent(s)
    requires e.DragStart? ==> s.draggedIndex.None?
    ensures Consistent(Step(s, e))
  {
  }

  /** A drag start during a drag can make the old target the dragged item. */
  lemma RestartBreaksConsistent()
    ensures var s := DragState(Some(0), Some(1), Above);
            Consistent(s) && !Consistent(Step(s, DragStart(1)))
  {
  }

  /** Any series of events whose drag starts come while idle keeps the invariant. */
  lemma {:induction false} RunKeepsConsistent(s: DragState, es: seq<Event>)
    requires Consistent(s) && StartsOnlyWhenIdle(s, es)
    ensures Consistent(Run(s, es))
    decreases |es|
  {
    if es != [] {
      StepKeepsConsistent(s, es[0]);
      RunKeepsConsistent(Step(s, es[0]), es[1..]);
    }
  }

  /** A series of events that ends with a drop or a drag end leaves the list idle. */
  lemma {:induction false} RunEndingGestureIsIdle(s: DragState, es: seq<Event>)
    requires es != [] && (es[|es| - 1].Drop? || es[|es| - 1].DragEnd?)
    ensures Idle(Run(s, es))
    decreases |es|
  {
    if |es| > 1 {
      RunEndingGestureIsIdle(Step(s, es[0]), es[1..]);
    }
  }

  /**
   * Only hovering changes the drop position: it survives drops, drag ends
   * and leaves, and so carries over from one gesture to the next.
   */
  lemma {:induction false} RunWithoutHoverKeepsPosition(s: DragState, es: seq<Event>)
    requires forall k :: 0 <= k < |es| ==> !es[k].DragOver? && !es[k].DragEnter?
    ensures Run(s, es).dropPosition == s.dropPosition
    decreases |es|
  {
    if es != [] {
      RunWithoutHoverKeepsPosition(Step(s, es[0]), es[1..]);
    }
  }

  /** An idle list leaves its idle state only by a drag start. */
  lemma IdleOnlyLeftByStart(s: DragState, e: Event)
    requires Idle(s) && !e.DragStart?
    ensures Step(s, e) == s
  {
  }

  /**
   * The dragged item is never highlighted, and at most one item is: the
   * target of a consistent state is another item than the dragged one.
   */
  lemma HighlightIsUnique(s: DragState, i: nat, j: nat)
    requires Consistent(s)
    ensures Highlighted(s, i) ==> !FlagsAt(s, i).isDragging
    ensures Highlighted(s, i) && Highlighted(s, j) ==> i == j
  {
  }

  /**
   * The controller of one rendered list. Its fields are the component's
   * three pieces of state; `items` and `onReorder` belong to the caller and
   * are passed to the drop handler, which returns the list it hands to
   * `onReorder`, if any.
   */
  class DraggableList<T> {
    var draggedIndex: Option<nat>
    var dragOverIndex: Option<nat>
    var dropPosition: DropPosition

    function State(): DragState
      reads this
    {
      DragState(draggedIndex, dragOverIndex, dropPosition)
    }

    constructor ()
      ensures State() == Initial()
    {
      draggedIndex, dragOverIndex, dropPosition := None, None, Below;
    }

    method HandleDragStart(index: nat)
      modifies this
      ensures State() == Step(old(State()), DragStart(index))
      ensures draggedIndex == Some(index)
    {
      draggedIndex := Some(index);
    }

    method HandleDragOver(index: nat, clientY: real, rect: Rect)
      modifies this
      ensures State() == Step(old(State()), DragOver(index, clientY, rect))
    {
      if draggedIndex.Some? && draggedIndex.value != index {
        var isAbove := clientY < rect.top + rect.Height() / 2.0;
        dragOverIndex := Some(index);
        dropPosition := if isAbove then Above else Below;
      }
    }

    method HandleDragEnter(index: nat, clientY: real, rect: Rect)
      modifies this
      ensures State() == Step(old(State()), DragEnter(index, clientY, rect))
    {
      if draggedIndex.Some? && draggedIndex.value != index {
        var isAbove := clientY < rect.top + rect.Height() / 2.0;
        dragOverIndex := Some(index);
        dropPosition := if isAbove then Above else Below;
      }
    }

    method HandleDragLeave(clientX: real, clientY: real, rect: Rect)
      modifies this
      ensures State() == Step(old(State()), DragLeave(clientX, clientY, rect))
    {
      if clientX < rect.left || clientX > rect.right || clientY < rect.top || clientY > rect.bottom {
        dragOverIndex := None;
      }
    }

    /**
     * Removes the dragged item from a copy of `items`, works out the insert
     * index and inserts the item there; `commit` is what `onReorder` gets.
     * Both indices are cleared whether or not anything was committed.
     */
    method HandleDrop(items: seq<T>, dropIndex: nat) returns (commit: Option<seq<T>>)
      requires IsTarget(State(), dropIndex) ==> draggedIndex.value < |items| && dropIndex < |items|
      modifies this
      ensures commit == DropOutcome(items, old(State()), dropIndex)
      ensures State() == Step(old(State()), Drop(dropIndex))
      ensures draggedIndex.None? && dragOverIndex.None? && dropPosition == old(dropPosition)
    {
      commit := None;
      if draggedIndex.Some? && draggedIndex.value != dropIndex {
        var from := draggedIndex.value;
        var newItems := items;
        var draggedItem := newItems[from];
        newItems := RemoveAt(newItems, from);
        var insertIndex := dropIndex;
        if from < dropIndex {
          insertIndex := dropIndex - 1;
        }
        if dropPosition == Below {
          insertIndex := insertIndex + 1;
        }
        newItems := InsertAt(newItems, insertIndex, draggedItem);
        MovedBySplice(items, from, insertIndex);
        commit := Some(newItems);
      }
      draggedIndex := None;
      dragOverIndex := None;
    }

    method HandleDragEnd()
      modifies this
      ensures State() == Step(old(State()), DragEnd)
      ensures draggedIndex.None? && dragOverIndex.None? && dropPosition == old(dropPosition)
    {
      draggedIndex := None;
      dragOverIndex := None;
    }
  }
}
