/** The mailbox of `mailbox.cpp`: one reader, any number of senders.

    `Box` is the state that both sides share; the functions on it are the indivisible steps of send
    and recv.  `MailboxT` runs a whole call at once and is proved against their composition. */
module Mailbox {
  import opened Options
  import opened Ypipe

  datatype Box<T> = Box(q: Queue<T>, signals: nat, active: bool) {

    /** cpipe.write under the lock. */
    function Post(x: T): Box<T> {
      this.(q := q.Write(x, false))
    }

    /** cpipe.flush under the lock. */
    function Publish(): Box<T> {
      this.(q := q.Flush())
    }

    /** signaler.send, after the lock was released. */
    function Ring(): Box<T> {
      this.(signals := signals + 1)
    }

    /** cpipe.read in the active state: without a command the reader turns passive. */
    function TryRead(): Box<T> {
      if q.ready != [] then this.(q := q.Pop()) else this.(q := q.Look(), active := false)
    }

    /** signaler.recv_failable, and the switch into the active state. */
    function TakeSignal(): Box<T>
      requires signals > 0
    {
      this.(signals := signals - 1, active := true)
    }

    /** A passive reader whose writer knows that it has to ring, and has not rung yet. */
    predicate Calm() {
      && q.done == [] && q.part == []
      && signals == (if active || q.asleep then 0 else 1)
      && (active ==> !q.asleep)
      && (q.asleep ==> q.ready == [])
      && (!active && !q.asleep ==> q.ready != [])
    }

    /** A whole send, without interference. */
    function Send(x: T): Box<T> {
      var posted := Post(x);
      if posted.q.FlushOk() then posted.Publish() else posted.Publish().Ring()
    }

    /** A whole recv, without interference; `waited` says whether signaler.wait gave the signal if there was one. */
    function Recv(waited: bool): Box<T>
      requires Calm()
    {
      var first := if active then TryRead() else this;
      if (active && q.ready != []) || !waited || first.signals == 0 then first else first.TakeSignal().TryRead()
    }

    /** What a whole recv returns. */
    function RecvResult(waited: bool): Option<T> {
      if q.ready != [] && (active || (waited && signals > 0)) then Some(q.ready[0]) else None
    }
  }

  /** The state after the constructor: the first read puts the pipe to sleep. */
  function Initial<T>(): Box<T> {
    Box(Fresh<T>().Look(), 0, false)
  }

  class MailboxT<T(==)> {
    const cpipe: YPipe<T>
    var signals: nat
    var active: bool

    ghost predicate Valid()
      reads this, cpipe
    {
      cpipe.Valid()
    }

    ghost function Abs(): Box<T>
      reads this, cpipe
      requires Valid()
    {
      Box(cpipe.Abs(), signals, active)
    }

    constructor (address: nat)
      ensures Valid() && fresh(cpipe) && Abs() == Initial() && Abs().Calm()
    {
      cpipe := new YPipe<T>(address);
      signals, active := 0, false;
      new;
      var item := cpipe.Read();
      assert item == None;
    }

    method Send(cmd: T)
      requires Valid()
      modifies this, cpipe
      ensures Valid() && Abs() == old(Abs()).Send(cmd)
      ensures old(Abs()).Calm() ==> Abs().Calm() && Abs().q.ready == old(Abs()).q.ready + [cmd]
    {
      cpipe.Write(cmd, false);
      var ok := cpipe.Flush();
      if !ok {
        signals := signals + 1;
      }
    }

    /** The read after waking up always finds a command. */
    method Recv(waited: bool) returns (cmd: Option<T>)
      requires Valid() && Abs().Calm()
      modifies this, cpipe
      ensures Valid() && Abs().Calm()
      ensures cmd == old(Abs()).RecvResult(waited)
      ensures Abs().q.ready == if cmd.Some? then old(Abs()).q.ready[1..] else old(Abs()).q.ready
      ensures Abs() == old(Abs()).Recv(waited)
      ensures active == (cmd.Some?)
    {
      if active {
        cmd := cpipe.Read();
        if cmd.Some? { return; }
        active := false;
      }
      if !waited || signals == 0 {
        return None;
      }
      signals := signals - 1;
      active := true;
      cmd := cpipe.Read();
      assert cmd.Some?;
    }
  }
}
