/** Drag reordering of a list (hooks/useDragAndDrop.ts). While an item is dragged, each move
    of the finger turns the vertical offset into a target row, clamps it to the list, and, when
    the target differs from the dragged row and the finger has moved more than half a row,
    moves the dragged item there and follows it. Offsets and the row height are whole numbers
    of pixels here. */
module DragAndDrop {
  import opened Wrappers

  const DEFAULT_ITEM_HEIGHT := 100

  /** `s` without its element at `i` (`splice(i, 1)` on a copy). */
  function RemoveAt<T>(s: seq<T>, i: nat): (r: seq<T>)
    requires i < |s|
    ensures |r| == |s| - 1
  {
    s[..i] + s[i + 1..]
  }

  /** `s` with `x` inserted before position `j` (`splice(j, 0, x)`). */
  function Insert<T>(s: seq<T>, j: nat, x: T): (r: seq<T>)
    requires j <= |s|
    ensures |r| == |s| + 1
  {
    s[..j] + [x] + s[j..]
  }

  /** The reordered list: the item at `i` taken out and put back at `j`. */
  function Moved<T>(s: seq<T>, i: nat, j: nat): (r: seq<T>)
    requires i < |s| && j < |s|
    ensures |r| == |s|
  {
    Insert(RemoveAt(s, i), j, s[i])
  }

  /** Inserting and then removing at the same place changes nothing, and so does removing and
      putting back at the same place. */
  lemma RemoveInsert<T>(s: seq<T>, j: nat, x: T)
    requires j <= |s|
    ensures RemoveAt(Insert(s, j, x), j) == s
  {
    var t := Insert(s, j, x);
    assert t[..j] == s[..j];
    assert t[j + 1..] == s[j..];
  }

  lemma InsertRemove<T>(s: seq<T>, i: nat)
    requires i < |s|
    ensures Insert(RemoveAt(s, i), i, s[i]) == s
  {
    var r := RemoveAt(s, i);
    assert r[..i] == s[..i];
    assert r[i..] == s[i + 1..];
    assert s == s[..i] + [s[i]] + s[i + 1..];
  }

  /** Position by position: outside the stretch between `i` and `j` nothing moves, the dragged
      item lands at `j`, and the items in between shift one place towards `i`. */
  lemma MovedAt<T>(s: seq<T>, i: nat, j: nat, k: nat)
    requires i < |s| && j < |s| && k < |s|
    ensures Moved(s, i, j)[k] ==
            if k == j then s[i]
            else if (k < i && k < j) || (k > i && k > j) then s[k]
            else if i < j then s[k + 1]
            else s[k - 1]
  {
    var r := RemoveAt(s, i);
    assert forall m :: 0 <= m < |r| ==> r[m] == (if m < i then s[m] else s[m + 1]);
    var t := Insert(r, j, s[i]);
    assert forall m :: 0 <= m < |t| ==> t[m] == (if m < j then r[m] else if m == j then s[i] else r[m - 1]);
  }

  /** Moving an item only rearranges the list. */
  lemma MovedPermutation<T>(s: seq<T>, i: nat, j: nat)
    requires i < |s| && j < |s|
    ensures multiset(Moved(s, i, j)) == multiset(s)
  {
    var r := RemoveAt(s, i);
    assert s == s[..i] + [s[i]] + s[i + 1..];
    assert multiset(s) == multiset(s[..i]) + multiset{s[i]} + multiset(s[i + 1..]);
    assert multiset(r) == multiset(s[..i]) + multiset(s[i + 1..]);
    var t := Insert(r, j, s[i]);
    assert t == Moved(s, i, j);
    assert r == r[..j] + r[j..];
    assert multiset(r) == multiset(r[..j]) + multiset(r[j..]);
    assert t == r[..j] + [s[i]] + r[j..];
    assert multiset(t) == multiset(r[..j]) + multiset{s[i]} + multiset(r[j..]);
    assert multiset(t) == multiset(r) + multiset{s[i]};
    assert multiset(s) == multiset(r) + multiset{s[i]};
  }

  /** The reordered list is a permutation of the original with the dragged item at `j` and all
      other items in their original relative order; moving it back restores the list. */
  lemma MovedSpec<T>(s: seq<T>, i: nat, j: nat)
    requires i < |s| && j < |s|
    ensures multiset(Moved(s, i, j)) == multiset(s)
    ensures Moved(s, i, j)[j] == s[i]
    ensures RemoveAt(Moved(s, i, j), j) == RemoveAt(s, i)
    ensures Moved(Moved(s, i, j), j, i) == s
  {
    MovedPermutation(s, i, j);
    var r := RemoveAt(s, i);
    RemoveInsert(r, j, s[i]);
    InsertRemove(s, i);
  }

  /** `Math.round(draggedIndex + gestureY / itemHeight)`: the nearest integer, halves rounded up. */
  function RoundedIndex(draggedIndex: int, gestureY: int, itemHeight: int): (r: int)
    requires itemHeight > 0
    ensures 2 * itemHeight * r <= 2 * (draggedIndex * itemHeight + gestureY) + itemHeight < 2 * itemHeight * (r + 1)
  {
    (2 * (draggedIndex * itemHeight + gestureY) + itemHeight) / (2 * itemHeight)
  }

  /** `Math.max(0, Math.min(length - 1, index))` */
  function Clamp(length: nat, index: int): (r: int)
    ensures r >= 0
    ensures length >= 1 ==> r < length
    ensures 0 <= index < length ==> r == index
    ensures length >= 1 && index >= length ==> r == length - 1
    ensures index < 0 ==> r == 0
  {
    var upper := if length - 1 < index then length - 1 else index;
    if upper < 0 then 0 else upper
  }

  /** `Math.abs(gestureY) > itemHeight / 2` */
  predicate PastHalfRow(gestureY: int, itemHeight: int) {
    2 * (if gestureY < 0 then -gestureY else gestureY) > itemHeight
  }

  lemma MulLe(c: int, a: int, b: int)
    requires c >= 0 && a <= b
    ensures c * a <= c * b
  {
    assert c * b - c * a == c * (b - a);
  }

  /** An offset of less than half a row, either way, rounds back to the dragged row. */
  lemma SmallMoveKeepsRow(draggedIndex: int, gestureY: int, itemHeight: int)
    requires itemHeight > 0 && 2 * gestureY < itemHeight && -itemHeight <= 2 * gestureY
    ensures RoundedIndex(draggedIndex, gestureY, itemHeight) == draggedIndex
  {
    var r := RoundedIndex(draggedIndex, gestureY, itemHeight);
    var x := 2 * (draggedIndex * itemHeight + gestureY) + itemHeight;
    assert 2 * itemHeight * draggedIndex <= x < 2 * itemHeight * (draggedIndex + 1);
    if r < draggedIndex {
      MulLe(2 * itemHeight, r + 1, draggedIndex);
      assert false;
    } else if r > draggedIndex {
      MulLe(2 * itemHeight, draggedIndex + 1, r);
      assert false;
    }
  }

  /** The two `splice` calls on the copied array: the item at `from` is taken out and put back
      at `to`, shifting the items in between by one. */
  method MoveInPlace<T>(a: array<T>, from: nat, to: nat)
    requires from < a.Length && to < a.Length
    modifies a
    ensures a[..] == Moved(old(a[..]), from, to)
  {
    ghost var s := a[..];
    var item := a[from];
    if from < to {
      var i := from;
      while i < to
        invariant from <= i <= to
        invariant forall k :: 0 <= k < from ==> a[k] == s[k]
        invariant forall k :: from <= k < i ==> a[k] == s[k + 1]
        invariant forall k :: i <= k < a.Length ==> a[k] == s[k]
      {
        a[i] := a[i + 1];
        i := i + 1;
      }
    } else {
      var i := from;
      while i > to
        invariant to <= i <= from
        invariant forall k :: 0 <= k <= i ==> a[k] == s[k]
        invariant forall k :: i < k <= from ==> a[k] == s[k - 1]
        invariant forall k :: from < k < a.Length ==> a[k] == s[k]
      {
        a[i] := a[i - 1];
        i := i - 1;
      }
    }
    a[to] := item;
    forall k | 0 <= k < a.Length ensures a[k] == Moved(s, from, to)[k] {
      MovedAt(s, from, to, k);
    }
  }

  /** The hook's state: the dragged row, if any, and the dragging flag. */
  class DragState {
    var draggedIndex: Option<int>
    var isDragging: bool
    const itemHeight: int

    constructor (itemHeight: int := DEFAULT_ITEM_HEIGHT)
      requires itemHeight > 0
      ensures draggedIndex == None && !isDragging && this.itemHeight == itemHeight
    {
      draggedIndex := None;
      isDragging := false;
      this.itemHeight := itemHeight;
    }

    /** `onDragStart` */
    method OnDragStart(index: int)
      modifies this
      ensures draggedIndex == Some(index) && isDragging
    {
      draggedIndex := Some(index);
      isDragging := true;
    }

    /** `onDragEnd` */
    method OnDragEnd()
      modifies this
      ensures draggedIndex == None && !isDragging
    {
      draggedIndex := None;
      isDragging := false;
    }

    /** `onDragMove`: with no drag in progress it does nothing. Otherwise it computes the
        clamped target row and, when that differs from the dragged row and the offset exceeds
        half a row, returns the reordered list (what is passed to `onReorder`) and follows the
        item to its new row. */
    method OnDragMove<T>(data: seq<T>, gestureY: int) returns (reordered: Option<seq<T>>)
      requires itemHeight > 0
      requires draggedIndex.Some? ==> 0 <= draggedIndex.value < |data|
      modifies this
      ensures isDragging == old(isDragging)
      ensures old(draggedIndex).None? ==> reordered == None && draggedIndex == None
      ensures old(draggedIndex).Some? ==>
                var from := old(draggedIndex).value;
                var target := Clamp(|data|, RoundedIndex(from, gestureY, itemHeight));
                if target != from && PastHalfRow(gestureY, itemHeight) then
                  && 0 <= target < |data|
                  && reordered == Some(Moved(data, from, target))
                  && draggedIndex == Some(target)
                else reordered == None && draggedIndex == old(draggedIndex)
      ensures draggedIndex.Some? ==> 0 <= draggedIndex.value < |data|
    {
      if draggedIndex.None? {
        return None;
      }
      var from := draggedIndex.value;
      var newIndex := RoundedIndex(from, gestureY, itemHeight);
      var clampedIndex := Clamp(|data|, newIndex);
      if clampedIndex != from && PastHalfRow(gestureY, itemHeight) {
        var newData := new T[|data|](k requires 0 <= k < |data| => data[k]);
        assert newData[..] == data;
        MoveInPlace(newData, from, clampedIndex);
        draggedIndex := Some(clampedIndex);
        reordered := Some(newData[..]);
      } else {
        reordered := None;
      }
    }
  }
}
