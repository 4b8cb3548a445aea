/** What the fair queue hands out: a frame whenever an active pipe has one, and soon one of a pipe that was just
    attached or activated. */
module FqServed {
  import opened Options
  import opened MsgStep
  import opened Arrays
  import opened RingStep
  import opened FqStep
  import opened FqRun

  /** recv answers with a frame exactly if an active pipe has one; it is the first frame of that pipe, which is
      taken out of it, and nothing else is taken. */
  lemma {:induction false} RecvFinds(f: Queue)
    requires Valid(f)
    ensures Recv(f).1.Got? <==> exists i :: 0 <= i < f.ring.active && f.conts[f.ring.pipes[i]].HasFrame()
    ensures Recv(f).1.Got? ==>
              var p := Recv(f).1.pipe;
              && p in ActiveSet(f.ring) && p in f.conts && f.conts[p].HasFrame() && Recv(f).1.frame == f.conts[p].inbox[0]
              && Recv(f).0.conts == f.conts[p := f.conts[p].Pop()]
    ensures !Recv(f).1.Got? ==> Recv(f).0.conts == f.conts
    ensures AllSet(Recv(f).0.ring) == AllSet(f.ring)
    decreases f.ring.active
  {
    RecvUnfolded(f);
    if f.ring.active > 0 {
      FirstIs(f.ring.pipes, f.ring.active);
      if !f.conts[Current(f)].HasFrame() {
        var g := f.(ring := Deactivate(f.ring));
        RecvFinds(g);
        DeactivateIs(f.ring);
        SameFrames(f);
      }
    }
  }

  /** Skipping a pipe without a frame loses no pipe that has one. */
  lemma SameFrames(f: Queue)
    requires Valid(f) && f.ring.active > 0 && !f.conts[Current(f)].HasFrame()
    ensures var g := f.(ring := Deactivate(f.ring));
            (exists i :: 0 <= i < f.ring.active && f.conts[f.ring.pipes[i]].HasFrame())
            <==> (exists i :: 0 <= i < g.ring.active && f.conts[g.ring.pipes[i]].HasFrame())
  {
    var g := f.(ring := Deactivate(f.ring));
    if i :| 0 <= i < f.ring.active && f.conts[f.ring.pipes[i]].HasFrame() {
      var j := SkippingIsFair(f.ring, i);
      assert f.conts[g.ring.pipes[j]].HasFrame();
    }
    if i :| 0 <= i < g.ring.active && f.conts[g.ring.pipes[i]].HasFrame() {
      var j := if i == f.ring.current then f.ring.active - 1 else i;
      assert f.conts[f.ring.pipes[j]].HasFrame();
    }
  }

  /** From its activation on a pipe with something to read waits for at most as many messages of others as there are
      active pipes from the current one to the end. */
  lemma ActivatedIsServed(f: Queue, i: nat, ops: seq<Op>)
    requires Valid(f) && f.ring.active <= i < |f.ring.pipes| && f.conts[f.ring.pipes[i]].HasFrame()
    requires Valid(Step(f, ActivatedOp(i)).0) && Runs(Step(f, ActivatedOp(i)).0, ops)
    requires forall op | op in ops :: op.RecvOp? || op.HasInOp? || op.ArriveOp?
    requires forall out | out in Received(Step(f, ActivatedOp(i)).0, ops) :: out.0 != f.ring.pipes[i]
    ensures Messages(Received(Step(f, ActivatedOp(i)).0, ops)) <= f.ring.active - f.ring.current
    ensures Recv(Step(f, ActivatedOp(i)).0).1.Got?
  {
    var g, p := Step(f, ActivatedOp(i)).0, f.ring.pipes[i];
    ActivateIs(f.ring, i);
    hide Valid, Runs, Received, Messages;
    assert Waiting(g, f.ring.active, p);
    var _ := RecvIsFair(g, f.ring.active, p);
    NobodyWaitsForLong(g, ops, f.ring.active, p);
  }

  /** The same from its attachment on. */
  lemma AttachedIsServed(f: Queue, p: Pipe, c: Content<nat>, ops: seq<Op>)
    requires Valid(f) && Enabled(f, AttachOp(p, c)) && c.HasFrame()
    requires Valid(Step(f, AttachOp(p, c)).0) && Runs(Step(f, AttachOp(p, c)).0, ops)
    requires forall op | op in ops :: op.RecvOp? || op.HasInOp? || op.ArriveOp?
    requires forall out | out in Received(Step(f, AttachOp(p, c)).0, ops) :: out.0 != p
    ensures Messages(Received(Step(f, AttachOp(p, c)).0, ops)) <= f.ring.active - f.ring.current
    ensures Recv(Step(f, AttachOp(p, c)).0).1.Got?
  {
    var g := Step(f, AttachOp(p, c)).0;
    AttachIs(f.ring, p);
    hide Valid, Runs, Received, Messages;
    assert Waiting(g, f.ring.active, p);
    var _ := RecvIsFair(g, f.ring.active, p);
    NobodyWaitsForLong(g, ops, f.ring.active, p);
  }

  /** If only one active pipe has something to read, recv reads from it. */
  lemma OnlyOneIsServed(f: Queue, p: Pipe)
    requires Valid(f) && p in ActiveSet(f.ring) && f.conts[p].HasFrame()
    requires forall q | q in ActiveSet(f.ring) && q in f.conts && q != p :: !f.conts[q].HasFrame()
    ensures Recv(f).1 == Got(p, f.conts[p].inbox[0])
  {
    FirstIs(f.ring.pipes, f.ring.active);
    var i :| 0 <= i < f.ring.active && f.ring.pipes[i] == p;
    RecvFinds(f);
  }

  /** In the middle of a message has_in answers yes without looking, and the skipping of pipes is off: recv hands out
      the next frame of the current pipe, or fails its assertion. */
  lemma MidMessage(f: Queue)
    requires Usable(f) && f.more
    ensures HasIn(f) == (f, true)
    ensures f.ring.active > 0 ==> (Recv(f).1 == Fault <==> !f.conts[Current(f)].HasFrame()) && Recv(f).1 != Nothing
    ensures f.ring.active > 0 && f.conts[Current(f)].HasFrame() ==> Recv(f).1 == Got(Current(f), f.conts[Current(f)].inbox[0])
  {
  }
}
