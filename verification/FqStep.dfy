/** The fair queue of `fq.cpp` on values. */
module FqStep {
  import opened Options
  import opened MsgStep
  import opened Arrays
  import opened RingStep

  datatype Fq<T, C> = Fq(ring: Ring<T>, more: bool, conts: map<T, Content<C>>)

  /** `Fault` is the failed assertion that the rest of a message is there. */
  datatype Outcome<T, C> = Got(pipe: T, frame: Handle<C>) | Nothing | Fault

  /** Published frames form complete messages, and the rest of the current message is there and not refused. */
  ghost predicate Valid<T, C>(f: Fq<T, C>) {
    && Ok(f.ring)
    && (forall p | p in f.ring.pipes :: p in f.conts && Whole(f.conts[p].inbox))
    && (f.more ==> f.ring.active > 0 && f.conts[f.ring.pipes[f.ring.current]].HasFrame())
  }

  predicate Usable<T, C>(f: Fq<T, C>) {
    && f.ring.active <= |f.ring.pipes| && (f.ring.active > 0 ==> f.ring.current < f.ring.active)
    && forall i | 0 <= i < f.ring.active :: f.ring.pipes[i] in f.conts
  }

  function Current<T, C>(f: Fq<T, C>): T
    requires Usable(f) && f.ring.active > 0
  {
    f.ring.pipes[f.ring.current]
  }

  /** The current pipe has a frame: take it, and pass the turn on after the last frame of a message. */
  function Fetch<T, C>(f: Fq<T, C>): Fq<T, C>
    requires Usable(f) && f.ring.active > 0 && f.conts[Current(f)].HasFrame()
  {
    var p := Current(f);
    var frame := f.conts[p].inbox[0];
    Fq(if frame.more then f.ring else Advance(f.ring), frame.more, f.conts[p := f.conts[p].Pop()])
  }

  function Recv<T, C>(f: Fq<T, C>): (Fq<T, C>, Outcome<T, C>)
    requires Usable(f)
    decreases f.ring.active
  {
    if f.ring.active == 0 then (f, Nothing)
    else if f.conts[Current(f)].HasFrame() then (Fetch(f), Got(Current(f), f.conts[Current(f)].inbox[0]))
    else if f.more then (f, Fault)
    else Recv(f.(ring := Deactivate(f.ring)))
  }

  /** has_in: skips the pipes with nothing to read. */
  function HasIn<T, C>(f: Fq<T, C>): (Fq<T, C>, bool)
    requires Usable(f)
    decreases f.ring.active
  {
    if f.more then (f, true)
    else if f.ring.active == 0 then (f, false)
    else if f.conts[Current(f)].HasFrame() then (f, true)
    else HasIn(f.(ring := Deactivate(f.ring)))
  }

  lemma {:induction false} RecvKeepsValid<T, C>(f: Fq<T, C>)
    requires Valid(f)
    ensures Recv(f).1 != Fault && Valid(Recv(f).0)
    ensures Recv(f).1.Got? ==> Recv(f).1.frame.more == Recv(f).0.more && Recv(f).1.pipe in f.ring.pipes
    ensures Recv(f).1.Got? && Recv(f).0.more ==> Recv(f).1.pipe == Current(Recv(f).0)
    ensures f.more ==> Recv(f).1.Got? && Recv(f).1.pipe == Current(f)
    decreases f.ring.active
  {
    if f.ring.active > 0 {
      DeactivateOk(f.ring);
    }
    if f.ring.active > 0 && !f.conts[Current(f)].HasFrame() {
      RecvKeepsValid(f.(ring := Deactivate(f.ring)));
    }
  }

  lemma AttachIsValid<T, C>(f: Fq<T, C>, p: T, c: Content<C>)
    requires Valid(f) && p !in f.ring.pipes && Whole(c.inbox)
    ensures Valid(f.(ring := Attach(f.ring, p), conts := f.conts[p := c]))
  {
    AttachOk(f.ring, p);
  }

  lemma ActivateIsValid<T, C>(f: Fq<T, C>, i: nat)
    requires Valid(f) && f.ring.active <= i < |f.ring.pipes|
    ensures Valid(f.(ring := Activate(f.ring, i)))
  {
    ActivateOk(f.ring, i);
    MembersStay(f.ring, i);
  }

  lemma SkipIsValid<T, C>(f: Fq<T, C>)
    requires Valid(f) && !f.more && f.ring.active > 0
    ensures Valid(f.(ring := Deactivate(f.ring)))
  {
    DeactivateOk(f.ring);
  }

  lemma TerminateIsValid<T, C>(f: Fq<T, C>, i: nat, conts: map<T, Content<C>>)
    requires Valid(f) && i < |f.ring.pipes| && (f.more ==> KeepsTurn(f.ring, i))
    requires forall p | p in Terminate(f.ring, i).pipes && p in f.conts :: p in conts && conts[p] == f.conts[p]
    ensures Valid(f.(ring := Terminate(f.ring, i), conts := conts))
  {
    TerminateOk(f.ring, i);
    MembersStay(f.ring, i);
    if f.more {
      TurnStays(f.ring, i);
    }
  }

  /** The pipe that terminates is not among the rest. */
  lemma TerminatedIsLeft<T, C>(f: Fq<T, C>, i: nat)
    requires Valid(f) && i < |f.ring.pipes|
    ensures f.ring.pipes[i] !in Terminate(f.ring, i).pipes
  {
  }

  lemma FetchIsValid<T, C>(f: Fq<T, C>)
    requires Valid(f) && f.ring.active > 0 && f.conts[Current(f)].HasFrame()
    ensures Valid(Fetch(f))
  {
    RecvKeepsValid(f);
  }

  lemma ValidFacts<T, C>(f: Fq<T, C>)
    requires Valid(f)
    ensures Ok(f.ring) && Usable(f) && forall p | p in f.ring.pipes :: p in f.conts
    ensures f.more ==> f.ring.active > 0 && f.conts[Current(f)].HasFrame()
  {
  }

  /** The next frame of the current pipe, and the queue after reading it. */
  function Front<T, C>(f: Fq<T, C>): Option<Handle<C>>
    requires Usable(f) && f.ring.active > 0
  {
    var c := f.conts[Current(f)]; if c.HasFrame() then Some(c.inbox[0]) else None
  }

  function Tried<T, C>(f: Fq<T, C>): Fq<T, C>
    requires Usable(f) && f.ring.active > 0
  {
    if Front(f) == None then f else Fetch(f)
  }

  /** The effect of fetching, spelled out. */
  lemma FetchIs<T, C>(f: Fq<T, C>)
    requires Valid(f) && f.ring.active > 0
    ensures f.ring.current < f.ring.active <= |f.ring.pipes| && Current(f) in f.conts && Current(f) == f.ring.pipes[f.ring.current]
    ensures Front(f) == if !f.conts[Current(f)].HasFrame() then None else Some(f.conts[Current(f)].inbox[0])
    ensures Front(f) == None ==> Tried(f) == f
    ensures Front(f).Some? ==>
              Tried(f) == Fq(if Front(f).value.more then f.ring else Advance(f.ring), Front(f).value.more, f.conts[Current(f) := f.conts[Current(f)].Pop()])
    ensures Valid(Tried(f))
  {
    if Front(f).Some? {
      FetchIsValid(f);
    }
  }

  lemma RecvUnfolded<T, C>(f: Fq<T, C>)
    requires Valid(f)
    ensures f.ring.active == 0 ==> Recv(f) == (f, Nothing)
    ensures f.ring.active > 0 && Front(f).Some? ==> Recv(f) == (Tried(f), Got(Current(f), Front(f).value))
    ensures f.ring.active > 0 && Front(f) == None ==>
              !f.more && Tried(f) == f && Valid(f.(ring := Deactivate(f.ring))) && Recv(f) == Recv(f.(ring := Deactivate(f.ring)))
  {
    if f.ring.active > 0 && !f.more {
      SkipIsValid(f);
    }
  }

  lemma HasInUnfolded<T, C>(f: Fq<T, C>)
    requires Valid(f)
    ensures f.more || (f.ring.active > 0 && f.conts[Current(f)].HasFrame()) ==> HasIn(f) == (f, true)
    ensures !f.more && f.ring.active == 0 ==> HasIn(f) == (f, false)
    ensures !f.more && f.ring.active > 0 && !f.conts[Current(f)].HasFrame() ==>
              Valid(f.(ring := Deactivate(f.ring))) && HasIn(f) == HasIn(f.(ring := Deactivate(f.ring)))
  {
    if f.ring.active > 0 && !f.more {
      SkipIsValid(f);
    }
  }
}
