/** The fair queue of `fq.cpp`, updated in place and proved against `FqStep`. */
module Fq {
  import opened Options
  import opened MsgStep
  import opened Msg
  import opened Arrays
  import opened RingStep
  import opened Rings
  import S = FqStep

  class FqT {
    const ring: RingT
    var more: bool
    var lastIn: Item?

    ghost function Abs(): S.Fq<Item, ContentT>
      reads this, ring, ring.pipes, ring.pipes.items
    {
      S.Fq(ring.Abs(), more, ring.Contents())
    }

    ghost predicate Valid()
      reads this, ring, ring.pipes, ring.pipes.items
    {
      ring.Valid() && S.Valid(Abs())
    }

    constructor ()
      ensures Valid() && fresh(ring) && fresh(ring.pipes) && Abs() == S.Fq(Ring([], 0, 0), false, map[])
    {
      ring := new RingT();
      more, lastIn := false, null;
    }

    method Attach(pipe: Item)
      requires Valid() && pipe !in ring.pipes.items && Whole(pipe.inbox)
      modifies ring, ring.pipes`items, ring.Members()`index, pipe`index
      ensures Valid()
      ensures Abs() == old(Abs()).(ring := RingStep.Attach(old(Abs()).ring, pipe), conts := old(Abs()).conts[pipe := pipe.Abs()])
    {
      S.AttachIsValid(Abs(), pipe, pipe.Abs());
      hide S.Valid, RingStep.Attach;
      ring.Attach(pipe);
    }

    /** In the middle of a message only pipes leave that do not disturb the turn. */
    method PipeTerminated(pipe: Item)
      requires Valid() && pipe in ring.pipes.items && (more ==> KeepsTurn(ring.Abs(), ring.pipes.Index(pipe)))
      modifies this, ring, ring.pipes`items, ring.Members()`index
      ensures Valid() && Abs().ring == Terminate(old(Abs()).ring, old(ring.pipes.Index(pipe))) && more == old(more)
      ensures Abs().conts == old(Abs()).conts - {pipe}
      ensures lastIn == if old(lastIn) == pipe then null else old(lastIn)
    {
      hide S.Valid, Ok, Terminate, KeepsTurn;
      Detach(pipe);
      if lastIn == pipe {
        lastIn := null;
      }
    }

    method Detach(pipe: Item)
      requires Valid() && pipe in ring.pipes.items && (more ==> KeepsTurn(ring.Abs(), ring.pipes.Index(pipe)))
      modifies ring, ring.pipes`items, ring.Members()`index
      ensures Valid() && Abs().ring == Terminate(old(Abs()).ring, old(ring.pipes.Index(pipe)))
      ensures Abs().conts == old(Abs()).conts - {pipe}
    {
      ghost var f, i := Abs(), ring.pipes.Index(pipe);
      S.TerminatedIsLeft(f, i);
      hide Ok, Terminate, S.Valid, KeepsTurn, RingT.Contents;
      ring.Terminate(pipe);
      S.TerminateIsValid(f, i, ring.Contents());
    }

    method Activated(pipe: Item)
      requires Valid() && pipe in ring.pipes.items && ring.pipes.Index(pipe) >= ring.active
      modifies ring, ring.pipes`items, ring.Members()`index
      ensures Valid() && Abs() == old(Abs()).(ring := Activate(old(Abs()).ring, old(ring.pipes.Index(pipe))))
    {
      S.ActivateIsValid(Abs(), ring.pipes.Index(pipe));
      hide S.Valid, Activate;
      ring.Activate(pipe);
    }

    /** After the last frame of a message the turn passes on. */
    method PassOn(from: Item, frameMore: bool)
      requires ring.Valid() && ring.active > 0
      modifies this, ring`current
      ensures ring.Valid() && ring.Abs() == (if frameMore then old(ring.Abs()) else Advance(old(ring.Abs())))
      ensures more == frameMore && ring.Contents() == old(ring.Contents())
      ensures lastIn == if frameMore then old(lastIn) else from
    {
      more := frameMore;
      if !more {
        lastIn := from;
        ring.Advance();
      }
    }

    /** Reads from the current pipe. */
    method Fetch() returns (from: Item, frame: Option<Frame>)
      requires Valid() && ring.active > 0
      modifies this, ring`current, ring.Members()`inbox
      ensures Valid() && ring.pipes.items == old(ring.pipes.items)
      ensures from == S.Current(old(Abs())) && frame == S.Front(old(Abs())) && Abs() == S.Tried(old(Abs()))
    {
      ghost var f := Abs();
      S.FetchIs(f);
      hide S.Valid, Ok, S.Fetch, S.Tried, S.Front, Advance, S.Usable;
      from, frame := ring.ReadCurrent();
      assert ring.Abs() == f.ring;
      if frame.Some? {
        PassOn(from, frame.value.more);
      }
      assert Abs() == S.Tried(f);
    }

    /** The current pipe has nothing to read. */
    method Skip()
      requires Valid() && !more && ring.active > 0
      modifies ring, ring.pipes`items, ring.Members()`index
      ensures Valid() && Abs() == old(Abs()).(ring := Deactivate(old(Abs()).ring)) && !more
      ensures ring.active == old(ring.active) - 1
      ensures ring.Members() == old(ring.Members())
    {
      S.SkipIsValid(Abs());
      hide S.Valid, Ok;
      ring.Deactivate();
    }

    /** Round-robin over the pipes; null and None stand for EAGAIN. */
    method RecvPipe() returns (from: Item?, frame: Option<Frame>)
      requires Valid()
      modifies this, ring, ring.pipes`items, ring.Members()`index, ring.Members()`inbox
      ensures Valid() && Abs() == S.Recv(old(Abs())).0
      ensures match S.Recv(old(Abs())).1
              case Got(p, fr) => from == p && frame == Some(fr)
              case Nothing => from == null && frame == None
              case Fault => false
    {
      ghost var all := ring.Members();
      ghost var goal := S.Recv(Abs());
      hide S.Valid, Ok, Deactivate, Advance, S.Recv, S.Fetch, S.Tried, S.Front;
      while ring.active > 0
        invariant Valid() && S.Recv(Abs()) == goal
        invariant ring.Members() == all
        decreases ring.active
      {
        S.RecvUnfolded(Abs());
        from, frame := Fetch();
        if frame.Some? {
          return;
        }
        assert !more;
        Skip();
      }
      S.RecvUnfolded(Abs());
      from, frame := null, None;
    }

    method HasIn() returns (some: bool)
      requires Valid()
      modifies ring, ring.pipes`items, ring.Members()`index
      ensures Valid() && (Abs(), some) == S.HasIn(old(Abs()))
    {
      ghost var all := ring.Members();
      ghost var goal := S.HasIn(Abs());
      hide Ok, Deactivate, S.HasIn;
      S.HasInUnfolded(Abs());
      if more {
        return true;
      }
      while ring.active > 0
        invariant Valid() && S.HasIn(Abs()) == goal && !more
        invariant ring.Members() == all
        decreases ring.active
      {
        S.HasInUnfolded(Abs());
        S.ValidFacts(Abs());
        OkFacts(Abs().ring);
        assert Abs().conts[S.Current(Abs())] == ring.pipes.items[ring.current].Abs();
        if ring.pipes.items[ring.current].inbox != [] && !ring.pipes.items[ring.current].refuses {
          return true;
        }
        Skip();
      }
      S.HasInUnfolded(Abs());
      some := false;
    }
  }
}
