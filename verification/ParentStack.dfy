/** dfh_parent_stack: the hand-grown stack of list markers. */
module ParentStack {

  const INCR_SIZE := 8

  // Live markers the allocation holds: slot 0 is never used.
  const CAPACITY := INCR_SIZE - 1

  class DfhParentStack {
    var head: seq<int>   // the allocation; [] stands for NULL
    var top: int
    var size: int

    ghost predicate Valid()
      reads this
    {
      && |head| == size
      && (size == 0 || size == INCR_SIZE)
      && (if size == 0 then top == 0 else 0 <= top < size)
    }

    // The markers pushed and not popped, oldest first.
    ghost function Live(): (s: seq<int>)
      requires Valid()
      reads this
    {
      if size == 0 then [] else head[1..top + 1]
    }

    // Zero-initialised as a C global; the { NULL, -1, 0 } default is not assigned to it.
    constructor ()
      ensures Valid() && Live() == []
    {
      head, top, size := [], 0, 0;
    }

    method Resize(n: nat) returns (halted: bool)
      requires |head| == size
      modifies this
      ensures halted <==> 0 < n < old(size)
      ensures top == old(top) && |head| == size
      ensures halted ==> head == old(head)
      ensures !halted ==> size == n
      ensures n >= old(size) ==> head == old(head) + seq(n - old(size), _ => 0)
    {
      halted := false;
      if n > size {
        head := head + seq(n - size, _ => 0);
        size := n;
      } else if n == 0 {
        head := [];
        size := 0;
      } else if n < size {
        halted := true;
      }
    }

    predicate IsEmpty()
      reads this
    {
      top == -1
    }

    function Peek(): int
      requires 0 <= top < |head|
      reads this
    {
      head[top]
    }

    // Finding the stack empty is a run-time exception.
    method Pop() returns (halted: bool)
      requires Valid()
      modifies this
      ensures halted <==> old(top) == -1
      ensures old(Live()) != [] ==> Valid() && Live() == old(Live())[..|old(Live())| - 1]
    {
      halted := IsEmpty();
      if !halted {
        top := top - 1;
      }
    }

    // Grows only when top has reached size, and then stores one slot further: with
    // CAPACITY live markers the store falls just outside the allocation. That store
    // is not performed here; inBounds reports it.
    method Push(data: int) returns (inBounds: bool)
      requires Valid()
      modifies this
      ensures inBounds <==> |old(Live())| < CAPACITY
      ensures inBounds ==> Valid() && Live() == old(Live()) + [data] && Peek() == data
    {
      if top == size {
        var halted := Resize(size + INCR_SIZE);
      }
      inBounds := top + 1 < |head|;
      if inBounds {
        top := top + 1;
        head := head[top := data];
      }
    }
  }
}
