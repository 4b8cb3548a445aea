/** What the load balancer does when a termination disturbs the turn in the middle of a message. */
module LbTorn {
  import opened Options
  import opened MsgStep
  import opened Arrays
  import opened RingStep
  import opened LbStep
  import opened LbRun

  function FrameOf(more: bool): Handle<nat> {
    Handle(Vsm, false, more, None)
  }

  /** A pipe with room for two frames, after it was offered the frames in `log`. */
  function Box(log: seq<Handle<nat>>): Content<nat> {
    Content(if log == [] then [true, true] else [true], |log|, log, if Whole(log) then |log| else 0, [], false)
  }

  function Slot(k: nat, i: nat): Content<nat> {
    Box(if k > i then [FrameOf(i == 2)] else [])
  }

  /** Three pipes; `k` frames were sent, of which the third begins a message. */
  function Sent(k: nat): Balancer {
    Lb(Ring([1, 2, 3], 3, if k < 2 then k else 2), k >= 3, false, map[1 := Slot(k, 0), 2 := Slot(k, 1), 3 := Slot(k, 2)])
  }

  lemma SlotTakes(k: nat)
    requires k < 3
    ensures Slot(k, k).HasRoom() && Slot(k, k).Offer(FrameOf(k == 2)) == Slot(k + 1, k).(flushed := 0)
    ensures k < 2 ==> Slot(k, k).Offer(FrameOf(false)).Flushed() == Slot(k + 1, k)
    ensures k == 2 ==> Slot(k + 1, k).flushed == 0
  {
    assert [] + [FrameOf(k == 2)] == [FrameOf(k == 2)] && [true, true][1..] == [true];
  }

  lemma SentFacts(k: nat)
    ensures var f := Sent(k); Usable(f) && f.ring.active > 0 && !f.dropping && (k < 3 ==> Current(f) == k + 1 && f.conts[k + 1] == Slot(k, k))
  {
    hide Slot;
  }

  lemma SentUpdate(k: nat)
    requires k < 3
    ensures Sent(k).conts[k + 1 := Slot(k + 1, k)] == Sent(k + 1).conts
    ensures (if k == 2 then Sent(k).ring else Advance(Sent(k).ring)) == Sent(k + 1).ring
  {
    assert forall i | 0 <= i < 3 && i != k :: Slot(k + 1, i) == Slot(k, i);
    hide Slot;
  }

  lemma SendTakes(f: Balancer, frame: Handle<nat>)
    requires Usable(f) && f.ring.active > 0 && !f.dropping && f.conts[Current(f)].HasRoom()
    ensures var p, c := Current(f), f.conts[Current(f)].Offer(frame);
            Send(f, frame) ==
              (if frame.more then f.(more := true, conts := f.conts[p := c])
               else f.(ring := Advance(f.ring), more := false, conts := f.conts[p := c.Flushed()]), true)
  {
  }

  lemma SentNext(k: nat)
    requires k < 3
    ensures Usable(Sent(k)) && Send(Sent(k), FrameOf(k == 2)) == (Sent(k + 1), true)
  {
    SlotTakes(k);
    SentFacts(k);
    SentUpdate(k);
    hide Slot, Send, Usable, Current;
    SendTakes(Sent(k), FrameOf(k == 2));
  }

  lemma RunsOn(f: Balancer, op: Op, ops: seq<Op>)
    requires Usable(f) && Enabled(f, op) && Usable(Step(f, op)) && Runs(Step(f, op), ops)
    ensures Runs(f, [op] + ops) && After(f, [op] + ops) == After(Step(f, op), ops)
  {
    assert ([op] + ops)[0] == op && ([op] + ops)[1..] == ops;
  }

  lemma RunsNone(f: Balancer)
    requires Usable(f)
    ensures Runs(f, []) && After(f, []) == f
  {
  }

  function Sends(k: nat): seq<Op>
    requires k <= 3
    decreases 3 - k
  {
    if k == 3 then [] else [SendOp(FrameOf(k == 2))] + Sends(k + 1)
  }

  lemma {:induction false} SendAllThree(k: nat)
    requires k <= 3
    ensures Usable(Sent(k)) && Runs(Sent(k), Sends(k)) && After(Sent(k), Sends(k)) == Sent(3)
    decreases 3 - k
  {
    hide Sent, Usable, Send, Runs;
    SentFacts(k);
    if k < 3 {
      SentNext(k);
      SendAllThree(k + 1);
      RunsOn(Sent(k), SendOp(FrameOf(k == 2)), Sends(k + 1));
    } else {
      RunsNone(Sent(k));
    }
  }

  /** The first `k` pipes are attached. */
  function Attached(k: nat): Balancer
    requires k <= 3
  {
    if k == 0 then Lb(Ring([], 0, 0), false, false, map[])
    else Lb(Ring([1, 2, 3][..k], k, 0), false, false, Attached(k - 1).conts[k := Slot(0, k - 1)])
  }

  lemma AttachedNext(k: nat)
    requires k < 3
    ensures Usable(Attached(k)) && Usable(Attached(k + 1)) && Enabled(Attached(k), AttachOp(k + 1, Slot(0, k)))
    ensures Step(Attached(k), AttachOp(k + 1, Slot(0, k))) == Attached(k + 1)
  {
    var f := Attached(k);
    assert [1, 2, 3][..k] + [k + 1] == [1, 2, 3][..k + 1];
    assert Swapped([1, 2, 3][..k + 1], k, k) == [1, 2, 3][..k + 1];
    assert Slot(0, k).log == [] && Slot(0, k).flushed == 0;
    hide Slot;
  }

  lemma AllAttached()
    ensures Attached(0) == Lb(Ring([], 0, 0), false, false, map[]) && Attached(3) == Sent(0)
  {
    hide Slot;
    assert [1, 2, 3][..3] == [1, 2, 3];
    assert Attached(3).conts == Attached(2).conts[3 := Slot(0, 2)];
    assert Attached(2).conts == Attached(1).conts[2 := Slot(0, 1)];
    assert Attached(1).conts == map[1 := Slot(0, 0)];
  }

  /** A reached state in which the last active pipe has the beginning of a message. */
  lemma MidMessageIsReached() returns (ops: seq<Op>)
    ensures Runs(Lb(Ring([], 0, 0), false, false, map[]), ops) && After(Lb(Ring([], 0, 0), false, false, map[]), ops) == Sent(3)
  {
    AllAttached();
    SendAllThree(0);
    hide Attached, Sent, Step, Enabled, Usable, Runs, Slot;
    AttachedNext(0);
    AttachedNext(1);
    AttachedNext(2);
    ops := Sends(0);
    RunsOn(Attached(2), AttachOp(3, Slot(0, 2)), ops);
    ops := [AttachOp(3, Slot(0, 2))] + ops;
    RunsOn(Attached(1), AttachOp(2, Slot(0, 1)), ops);
    ops := [AttachOp(2, Slot(0, 1))] + ops;
    RunsOn(Attached(0), AttachOp(1, Slot(0, 0)), ops);
    ops := [AttachOp(1, Slot(0, 0))] + ops;
  }

  /** A termination that disturbs the turn tears a message apart: pipe 3 has the beginning of a message, pipe 2
      terminates, and the rest of the message is written to pipe 1, while pipe 3 keeps the beginning. */
  lemma TornMessage() returns (ops: seq<Op>, f: Balancer)
    ensures Runs(Lb(Ring([], 0, 0), false, false, map[]), ops) && f == After(Lb(Ring([], 0, 0), false, false, map[]), ops)
    ensures Usable(f) && Midway(f) && f.ring.pipes == [1, 2, 3] && f.ring.active > 0 && Current(f) == 3
    ensures var g := PipeTerminated(f, 1); var h := Send(g, FrameOf(false)).0;
            && Usable(g) && !g.dropping && Send(g, FrameOf(false)).1 && !h.more
            && h.conts[1].log == f.conts[1].log + [FrameOf(false)] && h.conts[1].flushed == |h.conts[1].log|
            && h.conts[3] == f.conts[3] && !Whole(f.conts[3].log)
  {
    ops := MidMessageIsReached();
    f := Sent(3);
    SentFacts(3);
    assert Swapped([1, 2, 3], 1, 2) == [1, 3, 2];
    assert Swapped([1, 3, 2], 2, 2)[..2] == [1, 3];
    var g := PipeTerminated(f, 1);
    assert g.ring == Ring([1, 3], 2, 0);
    assert Slot(3, 0).HasRoom() && !Whole(Slot(3, 2).log);
    hide Slot, Send;
    SendTakes(g, FrameOf(false));
  }
}
