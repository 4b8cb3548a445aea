/** The load balancer of `lb.cpp`, updated in place and proved against `LbStep`. */
module Lb {
  import opened Options
  import opened MsgStep
  import opened Msg
  import opened Arrays
  import opened RingStep
  import opened Rings
  import S = LbStep

  class LbT {
    const ring: RingT
    var more: bool
    var dropping: bool

    ghost function Abs(): S.Lb<Item, ContentT>
      reads this, ring, ring.pipes, ring.pipes.items
    {
      S.Lb(ring.Abs(), more, dropping, ring.Contents())
    }

    ghost predicate Valid()
      reads this, ring, ring.pipes, ring.pipes.items
    {
      ring.Valid()
    }

    lemma Usable()
      requires Valid()
      ensures S.Usable(Abs()) && ring.active <= |ring.pipes.items| && (ring.active > 0 ==> ring.current < ring.active)
    {
    }

    constructor ()
      ensures Valid() && fresh(ring) && fresh(ring.pipes) && Abs() == S.Lb(Ring([], 0, 0), false, false, map[])
    {
      ring := new RingT();
      more, dropping := false, false;
    }

    method Attach(pipe: Item)
      requires Valid() && pipe !in ring.pipes.items
      modifies ring, ring.pipes`items, ring.Members()`index, pipe`index
      ensures Valid()
      ensures Abs() == old(Abs()).(ring := RingStep.Attach(old(Abs()).ring, pipe), conts := old(Abs()).conts[pipe := pipe.Abs()])
    {
      ring.Attach(pipe);
    }

    method PipeTerminated(pipe: Item)
      requires Valid() && pipe in ring.pipes.items
      modifies this, ring, ring.pipes`items, ring.Members()`index
      ensures Valid() && more == old(more)
      ensures S.Usable(old(Abs()))
      ensures var g := S.PipeTerminated(old(Abs()), old(ring.pipes.Index(pipe))); Abs().ring == g.ring && dropping == g.dropping
      ensures Abs().conts == old(Abs()).conts - {pipe}
    {
      Usable();
      var index := ring.pipes.Index(pipe);
      if index == ring.current && more {
        dropping := true;
      }
      ring.Terminate(pipe);
    }

    method Activated(pipe: Item)
      requires Valid() && pipe in ring.pipes.items && ring.pipes.Index(pipe) >= ring.active
      modifies ring, ring.pipes`items, ring.Members()`index
      ensures Valid() && Abs() == old(Abs()).(ring := Activate(old(Abs()).ring, old(ring.pipes.Index(pipe))))
    {
      ring.Activate(pipe);
    }

    /** The last frame of a message is published and passes the turn on. */
    method Finish(frameMore: bool)
      requires Valid() && ring.current < ring.active
      modifies this, ring`current, ring.Members()`flushed
      ensures Valid() && ring.pipes.items[old(ring.current)] in old(ring.Contents()) && ring.pipes.items == old(ring.pipes.items)
      ensures var f := old(Abs()); var p := ring.pipes.items[old(ring.current)];
              Abs() == if frameMore then f.(more := true) else f.(ring := Advance(f.ring), more := false, conts := f.conts[p := f.conts[p].Flushed()])
    {
      more := frameMore;
      if !more {
        ring.FlushAndAdvance();
      }
    }

    /** The pipe has no room for a later frame of its message. */
    method GiveUp()
      requires Valid() && ring.current < ring.active
      modifies this, ring.Members()`log
      ensures Valid() && ring.pipes.items[ring.current] in old(ring.Contents())
      ensures var f := old(Abs()); var p := ring.pipes.items[ring.current];
              Abs() == f.(more := false, conts := f.conts[p := f.conts[p].Rollback()])
    {
      hide Ok, Distinct, RingT.Contents, ArrayT.Valid;
      ring.RollbackCurrent();
      more := false;
    }

    method Skip()
      requires Valid() && ring.active > 0
      modifies ring, ring.pipes`items, ring.Members()`index
      ensures Valid() && Abs() == old(Abs()).(ring := Deactivate(old(Abs()).ring)) && ring.active == old(ring.active) - 1
      ensures ring.Members() == old(ring.Members())
    {
      ring.Deactivate();
    }

    method Offer(frame: Frame) returns (ok: bool)
      requires Valid() && ring.active > 0
      modifies ring.Members()`answers, ring.Members()`attempts, ring.Members()`log
      ensures Valid() && S.Usable(old(Abs())) && Abs() == S.Offered(old(Abs()), frame)
      ensures ok == old(Abs()).conts[S.Current(old(Abs()))].HasRoom()
    {
      Usable();
      ok := ring.WriteCurrent(frame);
    }

    /** One round of the loop of sendpipe: `done` unless the next active pipe has to be tried. */
    method Try(frame: Frame) returns (done: bool, ok: bool)
      requires Valid() && S.Usable(Abs()) && !dropping && ring.active > 0
      modifies this, ring, ring.pipes`items, ring.Members()
      ensures Valid() && S.Usable(old(Abs())) && S.Usable(Abs())
      ensures done ==> (Abs(), ok) == S.Send(old(Abs()), frame)
      ensures !done ==> !dropping && ring.active < old(ring.active) && S.Send(Abs(), frame) == S.Send(old(Abs()), frame)
      ensures ring.Members() == old(ring.Members())
    {
      hide S.Send, S.Usable, Ok, Deactivate, Advance, S.Take, S.GiveUp, S.Skip, S.Offered, RingT.Contents, ArrayT.Valid;
      ghost var f := Abs();
      S.SendUnfolded(f, frame);
      S.TakeIs(f, frame);
      ok := Offer(frame);
      Usable();
      done := true;
      if ok {
        Finish(frame.more);
      } else if more {
        GiveUp();
      } else {
        Skip();
        done := false;
      }
      Usable();
    }

    /** False stands for EAGAIN. */
    method SendPipe(frame: Frame) returns (ok: bool)
      requires Valid()
      modifies this, ring, ring.pipes`items, ring.Members()
      ensures Valid() && S.Usable(old(Abs())) && (Abs(), ok) == S.Send(old(Abs()), frame)
    {
      Usable();
      if dropping {
        more := frame.more;
        dropping := more;
        return true;
      }
      ghost var all := ring.Members();
      ghost var goal := S.Send(Abs(), frame);
      hide S.Send, S.Usable, Ok;
      while ring.active > 0
        invariant Valid() && S.Usable(Abs()) && !dropping && S.Send(Abs(), frame) == goal
        invariant ring.Members() == all
        decreases ring.active
      {
        var done;
        done, ok := Try(frame);
        if done {
          return;
        }
      }
      S.SendUnfolded(Abs(), frame);
      ok := false;
    }

    /** One round of the loop of has_out. */
    method Poll() returns (some: bool)
      requires Valid() && S.Usable(Abs()) && !more && ring.active > 0
      modifies ring, ring.pipes`items, ring.Members()
      ensures Valid() && S.Usable(old(Abs())) && S.Usable(Abs()) && !more
      ensures some ==> (Abs(), true) == S.HasOut(old(Abs()))
      ensures !some ==> ring.active < old(ring.active) && S.HasOut(Abs()) == S.HasOut(old(Abs()))
      ensures ring.Members() == old(ring.Members())
    {
      ghost var f := Abs();
      S.HasOutUnfolded(f);
      hide S.HasOut, Ok, Deactivate;
      some := ring.AskCurrent();
      if !some {
        Skip();
      }
      Usable();
    }

    method HasOut() returns (some: bool)
      requires Valid()
      modifies this, ring, ring.pipes`items, ring.Members()
      ensures Valid() && S.Usable(old(Abs())) && (Abs(), some) == S.HasOut(old(Abs()))
    {
      Usable();
      if more {
        return true;
      }
      ghost var all := ring.Members();
      ghost var goal := S.HasOut(Abs());
      hide S.HasOut, S.Usable, Ok;
      while ring.active > 0
        invariant Valid() && S.Usable(Abs()) && !more && S.HasOut(Abs()) == goal
        invariant ring.Members() == all
        decreases ring.active
      {
        some := Poll();
        if some {
          return;
        }
      }
      S.HasOutUnfolded(Abs());
      some := false;
    }
  }
}
