/** The load balancer of `lb.cpp` on values. */
module LbStep {
  import opened Options
  import opened MsgStep
  import opened Arrays
  import opened RingStep

  datatype Lb<T, C> = Lb(ring: Ring<T>, more: bool, dropping: bool, conts: map<T, Content<C>>)

  predicate Usable<T, C>(f: Lb<T, C>) {
    && f.ring.active <= |f.ring.pipes| && (f.ring.active > 0 ==> f.ring.current < f.ring.active)
    && forall i | 0 <= i < |f.ring.pipes| :: f.ring.pipes[i] in f.conts
  }

  function Current<T, C>(f: Lb<T, C>): T
    requires Usable(f) && f.ring.active > 0
  {
    f.ring.pipes[f.ring.current]
  }

  /** The current pipe takes the frame; the last frame of a message is published and passes the turn on. */
  function Take<T, C>(f: Lb<T, C>, frame: Handle<C>): Lb<T, C>
    requires Usable(f) && f.ring.active > 0
  {
    var p := Current(f);
    var c := f.conts[p].Offer(frame);
    if frame.more then f.(more := true, conts := f.conts[p := c])
    else f.(ring := Advance(f.ring), more := false, conts := f.conts[p := c.Flushed()])
  }

  /** The current pipe has no room: in the middle of a message what it got of it is taken back. */
  function GiveUp<T, C>(f: Lb<T, C>, frame: Handle<C>): Lb<T, C>
    requires Usable(f) && f.ring.active > 0
  {
    var p := Current(f);
    f.(more := false, conts := f.conts[p := f.conts[p].Offer(frame).Rollback()])
  }

  function Skip<T, C>(f: Lb<T, C>, c: Content<C>): Lb<T, C>
    requires Usable(f) && f.ring.active > 0
  {
    f.(ring := Deactivate(f.ring), conts := f.conts[Current(f) := c])
  }

  /** sendpipe; false is EAGAIN. */
  function Send<T, C>(f: Lb<T, C>, frame: Handle<C>): (Lb<T, C>, bool)
    requires Usable(f)
    decreases f.ring.active
  {
    if f.dropping then (f.(more := frame.more, dropping := frame.more), true)
    else if f.ring.active == 0 then (f, false)
    else if f.conts[Current(f)].HasRoom() then (Take(f, frame), true)
    else if f.more then (GiveUp(f, frame), false)
    else Send(Skip(f, f.conts[Current(f)].Offer(frame)), frame)
  }

  function HasOut<T, C>(f: Lb<T, C>): (Lb<T, C>, bool)
    requires Usable(f)
    decreases f.ring.active
  {
    if f.more then (f, true)
    else if f.ring.active == 0 then (f, false)
    else
      var p := Current(f);
      if f.conts[p].HasRoom() then (f.(conts := f.conts[p := f.conts[p].Ask()]), true)
      else HasOut(Skip(f, f.conts[p].Ask()))
  }

  /** If the pipe with the unfinished message leaves, the rest of the message is dropped. */
  function PipeTerminated<T, C>(f: Lb<T, C>, i: nat): Lb<T, C>
    requires Usable(f) && i < |f.ring.pipes|
  {
    f.(ring := Terminate(f.ring, i), dropping := f.dropping || (i == f.ring.current && f.more))
  }

  /** The current pipe was offered the frame. */
  function Offered<T, C>(f: Lb<T, C>, frame: Handle<C>): Lb<T, C>
    requires Usable(f) && f.ring.active > 0
  {
    f.(conts := f.conts[Current(f) := f.conts[Current(f)].Offer(frame)])
  }

  lemma TakeIs<T, C>(f: Lb<T, C>, frame: Handle<C>)
    requires Usable(f) && f.ring.active > 0
    ensures var g := Offered(f, frame); var p := Current(f);
            && Usable(g) && Current(g) == p
            && (frame.more ==> Take(f, frame) == g.(more := true))
            && (!frame.more ==> Take(f, frame) == g.(ring := Advance(f.ring), more := false, conts := g.conts[p := g.conts[p].Flushed()]))
            && GiveUp(f, frame) == g.(more := false, conts := g.conts[p := g.conts[p].Rollback()])
            && Skip(f, f.conts[p].Offer(frame)) == g.(ring := Deactivate(f.ring))
  {
    var p := Current(f);
    var c := f.conts[p].Offer(frame);
    assert f.conts[p := c][p := c.Flushed()] == f.conts[p := c.Flushed()];
    assert f.conts[p := c][p := c.Rollback()] == f.conts[p := c.Rollback()];
  }

  lemma SkipIsUsable<T, C>(f: Lb<T, C>, c: Content<C>)
    requires Usable(f) && f.ring.active > 0
    ensures Usable(Skip(f, c))
  {
  }

  lemma SendUnfolded<T, C>(f: Lb<T, C>, frame: Handle<C>)
    requires Usable(f) && !f.dropping
    ensures f.ring.active == 0 ==> Send(f, frame) == (f, false)
    ensures f.ring.active > 0 && f.conts[Current(f)].HasRoom() ==> Send(f, frame) == (Take(f, frame), true)
    ensures f.ring.active > 0 && !f.conts[Current(f)].HasRoom() && f.more ==> Send(f, frame) == (GiveUp(f, frame), false)
    ensures f.ring.active > 0 && !f.conts[Current(f)].HasRoom() && !f.more ==>
              var g := Skip(f, f.conts[Current(f)].Offer(frame)); Usable(g) && Send(f, frame) == Send(g, frame)
  {
    if f.ring.active > 0 {
      SkipIsUsable(f, f.conts[Current(f)].Offer(frame));
    }
  }

  lemma HasOutUnfolded<T, C>(f: Lb<T, C>)
    requires Usable(f) && !f.more
    ensures f.ring.active == 0 ==> HasOut(f) == (f, false)
    ensures f.ring.active > 0 ==>
              var p := Current(f); var g := f.(conts := f.conts[p := f.conts[p].Ask()]);
              if f.conts[p].HasRoom() then HasOut(f) == (g, true)
              else Usable(g.(ring := Deactivate(f.ring))) && HasOut(f) == HasOut(g.(ring := Deactivate(f.ring)))
  {
    if f.ring.active > 0 {
      SkipIsUsable(f, f.conts[Current(f)].Ask());
    }
  }
}
