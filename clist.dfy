/// The generic circular list of list.c. A list is named by its last cell;
/// the last cell's `next` is the first cell, so one pointer gives both ends.
/// `append` links a new cell in after the last one, `list_length` and
/// `ltov` walk once around the cycle, and `listhead` remembers the cell that
/// started the most recent list.

module CList {
  import opened Util

  class Cell<T> {
    var next: Cell?<T>
    var x: T

    constructor (x: T)
      ensures this.x == x && next == null
    {
      this.x := x;
      next := null;
    }
  }

  /** `tail` names a cycle through `cells` (first to last) holding `items`:
      each cell links to the following one and the last back to the first;
      the empty list is `NULL`. */
  ghost predicate Ring<T>(tail: Cell?<T>, cells: seq<Cell<T>>, items: seq<T>)
    reads cells
  {
    && |cells| == |items|
    && (tail == null <==> |cells| == 0)
    && (|cells| > 0 ==> tail == cells[|cells| - 1] && cells[|cells| - 1].next == cells[0])
    && (forall i :: 0 <= i < |cells| - 1 ==> cells[i].next == cells[i + 1])
    && (forall i :: 0 <= i < |cells| ==> cells[i].x == items[i])
    && (forall i, j :: 0 <= i < j < |cells| ==> cells[i] != cells[j])
  }

  /** A caller's `List *` variable, which `ltov` and `list_delete` reset. */
  class ListVar<T> {
    var list: Cell?<T>

    constructor (list: Cell?<T>)
      ensures this.list == list
    {
      this.list := list;
    }
  }

  /** The elements as `ltov` stores them: each one in a slot, then the
      terminating `NULL`. */
  function Slots<T>(items: seq<T>): (r: seq<Option<T>>)
    ensures |r| == |items| + 1 && r[|items|] == None
    ensures forall i :: 0 <= i < |items| ==> r[i] == Some(items[i])
  {
    if |items| == 0 then [None] else [Some(items[0])] + Slots(items[1..])
  }

  /** list.c's static state: the head of the most recently started list. */
  class ListLib<T> {
    var listhead: Cell?<T>

    constructor ()
      ensures listhead == null
    {
      listhead := null;
    }

    /** `append`: a new cell holding `x` goes after the last cell and becomes
        the new last cell; on the empty list it is a one-cell cycle and is
        recorded as `listhead`. Order is kept and the length grows by one. */
    method Append(x: T, list: Cell?<T>, ghost cells: seq<Cell<T>>, ghost items: seq<T>)
      returns (r: Cell<T>, ghost cells': seq<Cell<T>>)
      requires Ring(list, cells, items)
      modifies this, list
      ensures fresh(r) && cells' == cells + [r]
      ensures Ring(r, cells', items + [x])
      ensures list == null ==> listhead == r
      ensures list != null ==> listhead == old(listhead)
    {
      r := new Cell(x);
      if list == null {
        r.next := r;
        listhead := r;
      } else {
        r.next := list.next;
        list.next := r;
      }
      cells' := cells + [r];
      forall i | 0 <= i < |cells'| - 1
        ensures cells'[i].next == cells'[i + 1]
      {
        if i < |cells| - 1 {
          assert cells[i] != list;
        }
      }
    }

    /** `list_length`: 0 for `NULL`, otherwise the number of cells met going
        once around the cycle. */
    method Length(list: Cell?<T>, ghost cells: seq<Cell<T>>, ghost items: seq<T>) returns (n: nat)
      requires Ring(list, cells, items)
      ensures n == |items|
    {
      n := 0;
      if list != null {
        var lp := list.next;
        n := 1;
        while lp != list
          invariant 1 <= n <= |cells|
          invariant lp == cells[n - 1]
          decreases |cells| - n
        {
          n := n + 1;
          lp := lp.next;
        }
      }
    }

    /** `ltov`: an array of `length + 1` slots holding the elements in
        insertion order and then `NULL`; the caller's list variable is set to
        `NULL`. The cells are not touched. */
    method Ltov(v: ListVar<T>, ghost cells: seq<Cell<T>>, ghost items: seq<T>) returns (a: array<Option<T>>)
      requires Ring(v.list, cells, items)
      modifies v
      ensures fresh(a) && a[..] == Slots(items)
      ensures v.list == null
    {
      var list := v.list;
      var len := Length(list, cells, items);
      a := new Option<T>[len + 1](_ => None);
      var i := 0;
      if list != null {
        var lp := list;
        while true
          invariant 0 <= i < |cells|
          invariant lp == if i == 0 then list else cells[i - 1]
          invariant a.Length == |items| + 1
          invariant forall k :: 0 <= k < i ==> a[k] == Some(items[k])
          invariant forall k :: i <= k < a.Length ==> a[k] == None
          decreases |cells| - i
        {
          assert lp.next == cells[i];
          lp := lp.next;
          a[i] := Some(lp.x);
          i := i + 1;
          if lp == list {
            break;
          }
        }
      }
      v.list := null;
      a[i] := None;
      assert a[..] == Slots(items);
    }

    /** `get_head`. */
    method GetHead() returns (h: Cell?<T>)
      ensures h == listhead
    {
      return listhead;
    }

    /** `list_delete`: forgets the list; no cell is freed or changed. */
    method Delete(v: ListVar<T>)
      modifies v
      ensures v.list == null
    {
      v.list := null;
    }
  }
}
