/** The round-robin array, updated in place.  `fq.cpp` and `lb.cpp` contain the same statements. */
module Rings {
  import opened Options
  import opened MsgStep
  import opened Msg
  import opened Arrays
  import opened RingStep
  import S = RingStep

  class RingT {
    const pipes: ArrayT
    var active: nat
    var current: nat

    ghost function Abs(): Ring<Item>
      reads this, pipes`items
    {
      Ring(pipes.items, active, current)
    }

    ghost predicate Valid()
      reads this, pipes, pipes.items`index
    {
      pipes.Valid() && Ok(Abs())
    }

    ghost function Contents(): map<Item, Content<ContentT>>
      reads pipes`items, pipes.items`answers, pipes.items`attempts, pipes.items`log, pipes.items`flushed, pipes.items`inbox, pipes.items`refuses
    {
      pipes.Contents()
    }

    ghost function Members(): set<Item>
      reads pipes`items
    {
      pipes.Members()
    }

    constructor ()
      ensures Valid() && fresh(pipes) && Abs() == Ring([], 0, 0)
    {
      pipes := new ArrayT();
      active, current := 0, 0;
    }

    method Attach(pipe: Item)
      requires Valid() && pipe !in pipes.items
      modifies this, pipes`items, Members()`index, pipe`index
      ensures Valid() && Abs() == S.Attach(old(Abs()), pipe)
      ensures Contents() == old(Contents())[pipe := pipe.Abs()] && Members() == old(Members()) + {pipe}
    {
      hide Ok, Distinct, ArrayT.Contents, ArrayT.Members;
      OkFacts(Abs());
      AttachOk(Abs(), pipe);
      pipes.PushBack(pipe);
      pipes.Swap(active, |pipes.items| - 1);
      active := active + 1;
      assert Abs() == S.Attach(old(Abs()), pipe);
    }

    method Activate(pipe: Item)
      requires Valid() && pipe in pipes.items && pipes.Index(pipe) >= active
      modifies this, pipes`items, Members()`index
      ensures Valid() && Abs() == S.Activate(old(Abs()), old(pipes.Index(pipe)))
      ensures Contents() == old(Contents()) && Members() == old(Members())
    {
      hide Ok, Distinct, ArrayT.Contents, ArrayT.Members;
      OkFacts(Abs());
      ActivateOk(Abs(), pipes.Index(pipe));
      pipes.Swap(pipes.Index(pipe), active);
      active := active + 1;
    }

    method Deactivate()
      requires Valid() && active > 0
      modifies this, pipes`items, Members()`index
      ensures Valid() && Abs() == S.Deactivate(old(Abs()))
      ensures Contents() == old(Contents()) && Members() == old(Members())
    {
      hide Ok, Distinct, ArrayT.Contents, ArrayT.Members;
      OkFacts(Abs());
      DeactivateOk(Abs());
      active := active - 1;
      pipes.Swap(current, active);
      if current == active {
        current := 0;
      }
      assert Abs() == S.Deactivate(old(Abs()));
    }

    method Terminate(pipe: Item)
      requires Valid() && pipe in pipes.items
      modifies this, pipes`items, Members()`index
      ensures Valid() && Abs() == S.Terminate(old(Abs()), old(pipes.Index(pipe)))
      ensures Members() == old(Members()) - {pipe} && Contents() == old(Contents()) - {pipe}
    {
      hide Ok, Distinct, ArrayT.Contents, ArrayT.Members;
      OkFacts(Abs());
      TerminateOk(Abs(), pipes.Index(pipe));
      var index := pipes.Index(pipe);
      if index < active {
          active := active - 1;
        pipes.Swap(index, active);
        if current == active {
          current := 0;
        }
      }
      pipes.Erase(pipe);
      assert Abs() == S.Terminate(old(Abs()), old(pipes.Index(pipe)));
    }

    method Advance()
      requires Valid() && active > 0
      modifies `current
      ensures Valid() && Abs() == S.Advance(old(Abs()))
    {
      current := (current + 1) % active;
    }

    /** Takes the next frame of the current pipe, if there is one. */
    method ReadCurrent() returns (from: Item, frame: Option<Frame>)
      requires Valid() && current < active
      modifies Members()`inbox
      ensures from == pipes.items[current] && from in old(Contents())
      ensures frame == if !old(Contents())[from].HasFrame() then None else Some(old(Contents())[from].inbox[0])
      ensures Contents() == if frame == None then old(Contents()) else old(Contents())[from := old(Contents())[from].Pop()]
    {
      from := pipes.items[current];
      frame := from.Read();
    }

    /** Offers a frame to the current pipe. */
    method WriteCurrent(frame: Frame) returns (ok: bool)
      requires Valid() && current < active
      modifies Members()`answers, Members()`attempts, Members()`log
      ensures pipes.items[current] in old(Contents())
      ensures var p := pipes.items[current];
              ok == old(Contents())[p].HasRoom() && Contents() == old(Contents())[p := old(Contents())[p].Offer(frame)]
    {
      ok := pipes.items[current].Write(frame);
    }

    method AskCurrent() returns (ok: bool)
      requires Valid() && current < active
      modifies Members()`answers
      ensures pipes.items[current] in old(Contents())
      ensures var p := pipes.items[current];
              ok == old(Contents())[p].HasRoom() && Contents() == old(Contents())[p := old(Contents())[p].Ask()]
    {
      ok := pipes.items[current].CheckWrite();
    }

    method FlushCurrent()
      requires Valid() && current < active
      modifies Members()`flushed
      ensures pipes.items[current] in old(Contents())
      ensures var p := pipes.items[current]; Contents() == old(Contents())[p := old(Contents())[p].Flushed()]
    {
      pipes.items[current].Flush();
    }

    method RollbackCurrent()
      requires Valid() && current < active
      modifies Members()`log
      ensures pipes.items[current] in old(Contents())
      ensures var p := pipes.items[current]; Contents() == old(Contents())[p := old(Contents())[p].Rollback()]
    {
      pipes.items[current].Rollback();
    }

    /** Publishes what the current pipe has, and passes the turn on. */
    method FlushAndAdvance()
      requires Valid() && current < active
      modifies `current, Members()`flushed
      ensures Valid() && Abs() == S.Advance(old(Abs())) && pipes.items[old(current)] in old(Contents())
      ensures var p := pipes.items[old(current)]; Contents() == old(Contents())[p := old(Contents())[p].Flushed()]
    {
      hide Ok, Distinct, ArrayT.Contents, ArrayT.Members;
      FlushCurrent();
      ghost var conts := Contents();
      Advance();
      assert Contents() == conts;
    }
  }
}
