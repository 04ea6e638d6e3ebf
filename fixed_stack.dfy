/**
 * A LIFO stack of bounded size (util/FixedStack.kt).  The elements are kept
 * oldest first, as in the Kotlin `ArrayDeque`: the top of the stack is the
 * last element.  When a push arrives at capacity the OLDEST element is
 * evicted.
 */
module FixedStacks {
  import opened Wrappers

  /** The contents after pushing `x` onto a stack holding `s` with capacity `maxSize`. */
  function Pushed<T>(s: seq<T>, maxSize: nat, x: T): (r: seq<T>)
    requires maxSize >= 1
    ensures |s| <= maxSize ==> |r| <= maxSize
    ensures |r| > 0 && r[|r| - 1] == x
    ensures |s| < maxSize ==> r == s + [x]
    ensures |s| >= maxSize ==> |r| == |s| && r[..|r| - 1] == s[1..]
  {
    if |s| >= maxSize then s[1..] + [x] else s + [x]
  }

  /** The top of a stack holding `s`, or `None` when it is empty. */
  function Top<T>(s: seq<T>): (r: Option<T>)
    ensures r.None? <==> s == []
    ensures r.Some? ==> r.value == s[|s| - 1]
  {
    if s == [] then None else Some(s[|s| - 1])
  }

  /** The contents after popping a stack holding `s`; an empty stack is left as it is. */
  function Popped<T>(s: seq<T>): (r: seq<T>)
    ensures s == [] ==> r == []
    ensures s != [] ==> r + [s[|s| - 1]] == s
  {
    if s == [] then [] else s[..|s| - 1]
  }

  /** Pushing `x` and then popping gives back `x` (LIFO), and evicts at most the oldest element. */
  lemma PushThenPop<T>(s: seq<T>, maxSize: nat, x: T)
    requires 1 <= maxSize && |s| <= maxSize
    ensures Top(Pushed(s, maxSize, x)) == Some(x)
    ensures Popped(Pushed(s, maxSize, x)) == if |s| == maxSize then s[1..] else s
  {
  }

  class FixedStack<T> {
    const maxSize: nat
    /** The Kotlin `ArrayDeque`, oldest element first. */
    var deque: seq<T>

    ghost predicate Valid()
      reads this
    {
      |deque| <= maxSize
    }

    constructor (maxSize: nat)
      ensures Valid()
      ensures this.maxSize == maxSize && deque == []
    {
      this.maxSize := maxSize;
      deque := [];
    }

    /** With `maxSize == 0` the source calls `removeFirst` on an empty deque, which throws. */
    method Push(item: T)
      requires Valid() && maxSize >= 1
      modifies this
      ensures Valid()
      ensures deque == Pushed(old(deque), maxSize, item)
    {
      if |deque| >= maxSize {
        deque := deque[1..];
      }
      deque := deque + [item];
    }

    method Pop() returns (r: Option<T>)
      requires Valid()
      modifies this
      ensures Valid()
      ensures r == Top(old(deque))
      ensures deque == Popped(old(deque))
    {
      if deque != [] {
        r := Some(deque[|deque| - 1]);
        deque := deque[..|deque| - 1];
      } else {
        r := None;
      }
    }

    function Peek(): (r: Option<T>)
      reads this
      ensures r == Top(deque)
    {
      if |deque| == 0 then None else Some(deque[|deque| - 1])
    }

    method Clear()
      modifies this
      ensures Valid() && IsEmpty() && Size() == 0
      ensures deque == []
    {
      deque := [];
    }

    function IsNotEmpty(): (r: bool)
      reads this
      ensures r <==> Peek().Some?
    {
      |deque| != 0
    }

    function IsEmpty(): (r: bool)
      reads this
      ensures r <==> !IsNotEmpty()
      ensures r <==> Peek().None?
    {
      |deque| == 0
    }

    function Size(): (r: nat)
      reads this
      ensures Valid() ==> r <= maxSize
      ensures r == 0 <==> IsEmpty()
    {
      |deque|
    }
  }
}
