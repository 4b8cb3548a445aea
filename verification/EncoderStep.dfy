/** The batching of `encoder.hpp` on values, over any step machine.

    A derived encoder is a machine: every step yields the next chunk of the message in progress, and says
    whether it was the last one. */
module EncoderStep {
  import opened Bytes

  datatype Emit<S> = Emit(chunk: seq<Byte>, next: S, last: bool)

  /** `rank` bounds the number of steps that a message still takes. */
  datatype Machine<!S> = Machine(step: S -> Emit<S>, rank: S -> nat)

  ghost predicate Sound<S(!new)>(m: Machine<S>) {
    forall s :: !m.step(s).last ==> m.rank(m.step(s).next) < m.rank(s)
  }

  /** `rest` is what is left of the current chunk, `busy` whether a message is in progress. */
  datatype Enc<S> = Enc(rest: seq<Byte>, next: S, last: bool, busy: bool)

  /** All bytes of a message: the chunks one after the other. */
  ghost function Stream<S(!new)>(m: Machine<S>, s: S): seq<Byte>
    requires Sound(m)
    decreases m.rank(s)
  {
    var e := m.step(s);
    e.chunk + if e.last then [] else Stream(m, e.next)
  }

  /** The bytes of the message in progress that were not returned yet. */
  ghost function Pending<S(!new)>(m: Machine<S>, e: Enc<S>): seq<Byte>
    requires Sound(m)
  {
    if !e.busy then [] else e.rest + if e.last then [] else Stream(m, e.next)
  }

  function Advance<S>(m: Machine<S>, s: S): Enc<S> {
    var e := m.step(s); Enc(e.chunk, e.next, e.last, true)
  }

  function Min(a: nat, b: nat): nat {
    if a < b then a else b
  }

  /** The rounds of encode after `out` was put into a buffer of `size` bytes, which is the caller's if `given`. */
  ghost function Fill<S(!new)>(m: Machine<S>, e: Enc<S>, out: seq<Byte>, size: nat, given: bool): (Enc<S>, seq<Byte>)
    requires Sound(m) && e.busy && |out| <= size
    decreases size - |out|, if e.last then 0 else m.rank(e.next) + 1
  {
    if |out| == size then (e, out)
    else if e.rest == [] && e.last then (e.(busy := false), out)
    else
      var x := if e.rest == [] then Advance(m, e.next) else e;
      if out == [] && !given && |x.rest| >= size then (x.(rest := []), x.rest)
      else
        var n := Min(|x.rest|, size - |out|);
        Fill(m, x.(rest := x.rest[n..]), out + x.rest[..n], size, given)
  }

  ghost function Encode<S(!new)>(m: Machine<S>, e: Enc<S>, size: nat, given: bool): (Enc<S>, seq<Byte>)
    requires Sound(m)
  {
    if !e.busy then (e, []) else Fill(m, e, [], size, given)
  }

  /** One round: the chunk that is copied from, and what the round leaves behind. */
  lemma FillUnfolded<S(!new)>(m: Machine<S>, e: Enc<S>, out: seq<Byte>, size: nat, given: bool)
    requires Sound(m) && e.busy && |out| < size
    ensures e.rest == [] && e.last ==> Fill(m, e, out, size, given) == (e.(busy := false), out)
    ensures !(e.rest == [] && e.last) ==>
              var x := if e.rest == [] then Advance(m, e.next) else e;
              var n := Min(|x.rest|, size - |out|);
              if out == [] && !given && |x.rest| >= size then Fill(m, e, out, size, given) == (x.(rest := []), x.rest)
              else Fill(m, e, out, size, given) == Fill(m, x.(rest := x.rest[n..]), out + x.rest[..n], size, given)
    ensures e.rest == [] && !e.last ==> Advance(m, e.next).last || m.rank(Advance(m, e.next).next) < m.rank(e.next)
  {
  }
}
