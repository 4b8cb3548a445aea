/** The subscription multi-trie of `mtrie.cpp` as a value.

    `slots` is the child table; the node class of `Mtrie` keeps it as nothing, a single pointer or a
    table.  The functions say what each operation leaves behind. */
module MtrieStep {
  import opened Bytes
  import opened Options

  type Prefix = seq<Byte>
  type Pipe = nat

  /** `pipes` is None for a null set; slot `i` is the child of character `min + i`. */
  datatype Trie = Trie(pipes: Option<set<Pipe>>, min: Byte, live: int, slots: seq<Option<Trie>>)

  function Empty(): Trie {
    Trie(None, 0, 0, [])
  }

  function Child(t: Trie, c: Byte): Option<Trie> {
    if t.min <= c < t.min + |t.slots| then t.slots[c - t.min] else None
  }

  /** The relation that a trie stands for: `x` is subscribed to `p`. */
  predicate Has(t: Trie, p: Prefix, x: Pipe)
    decreases |p|
  {
    if p == [] then t.pipes.Some? && x in t.pipes.value
    else Child(t, p[0]).Some? && Has(Child(t, p[0]).value, p[1..], x)
  }

  function Live(slots: seq<Option<Trie>>): nat {
    if slots == [] then 0 else Live(slots[..|slots| - 1]) + if slots[|slots| - 1].Some? then 1 else 0
  }

  predicate Redundant(t: Trie) {
    t.pipes == None && t.live == 0
  }

  ghost predicate WellFormed(t: Trie) {
    && (t.pipes.Some? ==> t.pipes.value != {})
    && t.min + |t.slots| <= 256
    && t.live == Live(t.slots)
    && (t.slots != [] ==> t.slots[0].Some? && t.slots[|t.slots| - 1].Some?)
    && forall i {:trigger t.slots[i]} | 0 <= i < |t.slots| && t.slots[i].Some? ::
         WellFormed(t.slots[i].value) && !Redundant(t.slots[i].value)
  }

  function Nulls(n: nat): (s: seq<Option<Trie>>)
    ensures |s| == n && forall i | 0 <= i < n :: s[i] == None
  {
    seq(n, i => None)
  }

  /** The table after it was grown to cover character `c`. */
  function Grow(t: Trie, c: Byte): Trie {
    if t.min <= c < t.min + |t.slots| then t
    else if t.slots == [] then t.(min := c, slots := [None])
    else if t.min < c then t.(slots := t.slots + Nulls(c - t.min + 1 - |t.slots|))
    else t.(min := c, slots := Nulls(t.min - c) + t.slots)
  }

  /** The table cut down to its first and last live child. */
  function Lead(slots: seq<Option<Trie>>): nat {
    if slots == [] || slots[0].Some? then 0 else 1 + Lead(slots[1..])
  }

  function DropTail(slots: seq<Option<Trie>>): seq<Option<Trie>> {
    if slots == [] || slots[|slots| - 1].Some? then slots else DropTail(slots[..|slots| - 1])
  }

  function Trim(t: Trie): Trie
    requires t.min + |t.slots| <= 256
  {
    var k := Lead(t.slots);
    if k >= |t.slots| then t.(slots := []) else t.(min := t.min + k, slots := DropTail(t.slots[k..]))
  }

  function Add(t: Trie, p: Prefix, x: Pipe): Trie
    decreases |p|
  {
    if p == [] then
      t.(pipes := Some((if t.pipes.Some? then t.pipes.value else {}) + {x}))
    else
      var grown := Grow(t, p[0]);
      var was := grown.slots[p[0] - grown.min];
      var child := Add(if was.Some? then was.value else Empty(), p[1..], x);
      grown.(slots := grown.slots[p[0] - grown.min := Some(child)], live := if was.Some? then t.live else t.live + 1)
  }

  /** The node that `p` leads to. */
  function Find(t: Trie, p: Prefix): Option<Trie>
    decreases |p|
  {
    if p == [] then Some(t) else if Child(t, p[0]) == None then None else Find(Child(t, p[0]).value, p[1..])
  }

  function Without(pipes: Option<set<Pipe>>, x: Pipe): Option<set<Pipe>> {
    if pipes.Some? && pipes.value != {x} && pipes.value != {} then Some(pipes.value - {x}) else None
  }

  /** A child after a removal below it: deleted if that made it redundant. */
  function Prune(child: Trie): Option<Trie> {
    if Redundant(child) then None else Some(child)
  }

  function Rm(t: Trie, p: Prefix, x: Pipe): Trie
    requires WellFormed(t)
    decreases |p|
  {
    if p == [] then t.(pipes := Without(t.pipes, x))
    else if Child(t, p[0]) == None then t
    else
      var child := Rm(Child(t, p[0]).value, p[1..], x);
      var slots := t.slots[p[0] - t.min := Prune(child)];
      if Redundant(child) then Trim(t.(slots := slots, live := t.live - 1)) else t.(slots := slots)
  }

  function RmPipe(t: Trie, x: Pipe): Trie
    requires WellFormed(t)
    decreases t, |t.slots| + 1
  {
    var slots := RmSlots(t, x, |t.slots|);
    Trim(Trie(Without(t.pipes, x), t.min, Live(slots), slots))
  }

  /** The first `n` slots after the removal of pipe `x` below them. */
  function RmSlots(t: Trie, x: Pipe, n: nat): (s: seq<Option<Trie>>)
    requires WellFormed(t) && n <= |t.slots|
    ensures |s| == n
    decreases t, n
  {
    if n == 0 then []
    else RmSlots(t, x, n - 1) + [if t.slots[n - 1].Some? then Prune(RmPipe(t.slots[n - 1].value, x)) else None]
  }

  predicate Reports(t: Trie, x: Pipe, uniq: bool) {
    t.pipes.Some? && x in t.pipes.value && (!uniq || t.pipes.value == {x})
  }

  /** The prefixes that rm(pipe) reports, in order; `path` leads to the node `t`. */
  function Calls(t: Trie, x: Pipe, uniq: bool, path: Prefix): seq<Prefix>
    requires WellFormed(t)
    decreases t, |t.slots| + 1
  {
    (if Reports(t, x, uniq) then [path] else []) + SlotCalls(t, x, uniq, path, |t.slots|)
  }

  function SlotCalls(t: Trie, x: Pipe, uniq: bool, path: Prefix, n: nat): seq<Prefix>
    requires WellFormed(t) && n <= |t.slots|
    decreases t, n
  {
    if n == 0 then []
    else
      SlotCalls(t, x, uniq, path, n - 1)
      + if t.slots[n - 1].Some? then Calls(t.slots[n - 1].value, x, uniq, path + [t.min + n - 1]) else []
  }
}
