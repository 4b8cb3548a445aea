/** The lock-free single-reader single-writer queue of `ypipe.hpp`.

    `Queue` is the contract that `pipe.cpp` and `mailbox.cpp` rely on.  `YPipe` is the pointer
    algorithm; every method is proved against the corresponding `Queue` function. */
module Ypipe {
  import opened Options

  /** What the two users of a ypipe can tell about it.
      - `ready`: published items that were not read yet,
      - `done`: complete items that were not flushed yet,
      - `part`: trailing items of an unfinished message,
      - `asleep`: the reader found nothing and has to be woken up by the writer. */
  datatype Queue<T> = Queue(ready: seq<T>, done: seq<T>, part: seq<T>, asleep: bool) {

    function Write(x: T, incomplete: bool): Queue<T> {
      if incomplete then this.(part := part + [x]) else this.(done := done + part + [x], part := [])
    }

    function Unwrite(): Queue<T>
      requires part != []
    {
      this.(part := part[..|part| - 1])
    }

    function Rollback(): Queue<T> {
      this.(part := [])
    }

    /** True if no wake-up is owed to the reader. */
    function FlushOk(): bool {
      done == [] || !asleep
    }

    function Flush(): Queue<T> {
      if done == [] then this else this.(ready := ready + done, done := [], asleep := false)
    }

    /** The effect of looking for an item: the reader falls asleep if there is none. */
    function Look(): Queue<T> {
      if ready == [] then this.(asleep := true) else this
    }

    function Pop(): Queue<T>
      requires ready != []
    {
      this.(ready := ready[1..])
    }
  }

  function Fresh<T>(): Queue<T> {
    Queue([], [], [], false)
  }

  /** The queue as implemented.  Pointers into the yqueue are positions in `items`, the sequence
      of everything that was ever pushed; the terminator element is position `|items|`. */
  class YPipe<T(==)> {
    const addr: nat
    var items: seq<T>
    var front: nat
    var w: nat
    var f: nat
    var r: Option<nat>
    var c: Option<nat>

    ghost predicate Valid()
      reads this
    {
      && front <= w <= f <= |items|
      && (c == None || c == Some(w))
      && (c == None ==> front == w)
      && (r == None || front <= r.value <= w)
    }

    ghost function Abs(): Queue<T>
      reads this
      requires Valid()
    {
      Queue(items[front..w], items[w..f], items[f..], c == None)
    }

    constructor (address: nat)
      ensures Valid() && addr == address
      ensures Abs() == Fresh()
    {
      addr := address;
      items, front, w, f := [], 0, 0, 0;
      r, c := Some(0), Some(0);
    }

    method Write(value: T, incomplete: bool)
      requires Valid()
      modifies this
      ensures Valid()
      ensures Abs() == old(Abs()).Write(value, incomplete)
    {
      items := items + [value];
      if !incomplete {
        f := |items|;
      }
    }

    method Unwrite() returns (item: Option<T>)
      requires Valid()
      modifies this
      ensures Valid()
      ensures item.Some? <==> old(Abs()).part != []
      ensures item == None ==> Abs() == old(Abs())
      ensures item.Some? ==> item.value == old(Abs()).part[|old(Abs()).part| - 1] && Abs() == old(Abs()).Unwrite()
    {
      if f == |items| {
        return None;
      }
      item := Some(items[|items| - 1]);
      items := items[..|items| - 1];
    }

    /** atomic_ptr_t::cas on the shared pointer `c`. */
    method Cas(expected: Option<nat>, replacement: Option<nat>) returns (seen: Option<nat>)
      modifies this`c
      ensures seen == old(c)
      ensures c == if old(c) == expected then replacement else old(c)
    {
      seen := c;
      if c == expected {
        c := replacement;
      }
    }

    method Flush() returns (awake: bool)
      requires Valid()
      modifies this
      ensures Valid()
      ensures awake == old(Abs()).FlushOk()
      ensures Abs() == old(Abs()).Flush()
    {
      if w == f {
        return true;
      }
      var seen := Cas(Some(w), Some(f));
      if seen != Some(w) {
        c := Some(f);
        w := f;
        return false;
      }
      w := f;
      awake := true;
    }

    method CheckRead() returns (found: bool)
      requires Valid()
      modifies this
      ensures Valid()
      ensures found <==> old(Abs()).ready != []
      ensures Abs() == old(Abs()).Look()
      ensures found ==> r.Some? && r != Some(front)
    {
      if r.Some? && r != Some(front) {
        return true;
      }
      r := Cas(Some(front), None);
      found := r.Some? && r != Some(front);
    }

    method Read() returns (item: Option<T>)
      requires Valid()
      modifies this
      ensures Valid()
      ensures item.Some? <==> old(Abs()).ready != []
      ensures item == None ==> Abs() == old(Abs()).Look()
      ensures item.Some? ==> item.value == old(Abs()).ready[0] && Abs() == old(Abs()).Pop()
    {
      var found := CheckRead();
      if !found {
        return None;
      }
      item := Some(items[front]);
      front := front + 1;
    }

    method Front() returns (item: T)
      requires Valid() && Abs().ready != []
      modifies this
      ensures Valid() && Abs() == old(Abs()) && item == Abs().ready[0]
    {
      var found := CheckRead();
      assert found;
      item := items[front];
    }
  }
}
