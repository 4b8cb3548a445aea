/** Any number of sender threads and the reader thread of one mailbox, interleaved step by step.

    A sender locks, writes, flushes, unlocks, and rings outside the lock if flush said so. */
module MailboxRun {
  import opened Options
  import opened Ypipe
  import opened Mailbox

  type Thread = nat

  datatype SenderPc<T> =
    | Idle
    | Locked(cmd: T)
    | Wrote
    | Flushed(ok: bool)
    | MustRing

  datatype ReaderPc = Outside | Reading | Waiting | Woken | MustRead

  /** `posted` is everything written into the mailbox so far, `received` everything recv returned. */
  datatype System<T> = System(
    box: Box<T>, lock: Option<Thread>, senders: map<Thread, SenderPc<T>>, reader: ReaderPc,
    posted: seq<T>, received: seq<T>)

  /** `Fault` is the failed zmq_assert after waking up. */
  datatype Outcome<T> = Next(s: System<T>) | Fault

  datatype Op<T> =
    | Lock(i: Thread, cmd: T)
    | Write(i: Thread)
    | Flush(i: Thread)
    | Unlock(i: Thread)
    | Ring(i: Thread)
    | CallRecv
    | Read
    | WaitSucceeds
    | WaitFails
    | RecvSignal
    | RecvSignalFails
    | ReadWoken

  function Pc<T>(s: System<T>, i: Thread): SenderPc<T> {
    if i in s.senders then s.senders[i] else Idle
  }

  predicate Enabled<T>(s: System<T>, op: Op<T>) {
    match op
    case Lock(i, cmd) => s.lock == None && Pc(s, i).Idle?
    case Write(i) => Pc(s, i).Locked?
    case Flush(i) => Pc(s, i).Wrote?
    case Unlock(i) => Pc(s, i).Flushed?
    case Ring(i) => Pc(s, i).MustRing?
    case CallRecv => s.reader.Outside?
    case Read => s.reader.Reading?
    case WaitSucceeds => s.reader.Waiting? && s.box.signals > 0
    case WaitFails => s.reader.Waiting?
    case RecvSignal => s.reader.Woken? && s.box.signals > 0
    case RecvSignalFails => s.reader.Woken?
    case ReadWoken => s.reader.MustRead?
  }

  function Step<T>(s: System<T>, op: Op<T>): Outcome<T>
    requires Enabled(s, op)
  {
    match op
    case Lock(i, cmd) => Next(s.(lock := Some(i), senders := s.senders[i := Locked(cmd)]))
    case Write(i) =>
      var cmd := Pc(s, i).cmd;
      Next(s.(box := s.box.Post(cmd), senders := s.senders[i := Wrote], posted := s.posted + [cmd]))
    case Flush(i) => Next(s.(box := s.box.Publish(), senders := s.senders[i := Flushed(s.box.q.FlushOk())]))
    case Unlock(i) => Next(s.(lock := None, senders := s.senders[i := if Pc(s, i).ok then Idle else MustRing]))
    case Ring(i) => Next(s.(box := s.box.Ring(), senders := s.senders[i := Idle]))
    case CallRecv => Next(s.(reader := if s.box.active then Reading else Waiting))
    case Read =>
      if s.box.q.ready == [] then Next(s.(box := s.box.TryRead(), reader := Waiting))
      else Next(s.(box := s.box.TryRead(), reader := Outside, received := s.received + [s.box.q.ready[0]]))
    case WaitSucceeds => Next(s.(reader := Woken))
    case WaitFails => Next(s.(reader := Outside))
    case RecvSignal => Next(s.(box := s.box.TakeSignal(), reader := MustRead))
    case RecvSignalFails => Next(s.(reader := Outside))
    case ReadWoken =>
      if s.box.q.ready == [] then Fault
      else Next(s.(box := s.box.TryRead(), reader := Outside, received := s.received + [s.box.q.ready[0]]))
  }

  ghost predicate Run<T>(ss: seq<System<T>>, ops: seq<Op<T>>) {
    && |ss| == |ops| + 1
    && ss[0] == System(Initial(), None, map[], Outside, [], [])
    && forall i | 0 <= i < |ops| :: Enabled(ss[i], ops[i]) && Step(ss[i], ops[i]) == Next(ss[i + 1])
  }

  // ------------------------------------------------------------------------------------------
  // The invariant
  // ------------------------------------------------------------------------------------------

  predicate OwesRing<T>(pc: SenderPc<T>) {
    pc.MustRing? || (pc.Flushed? && !pc.ok)
  }

  /** The senders that are about to ring. */
  ghost function Owed<T>(s: System<T>): set<Thread> {
    set i | i in s.senders && OwesRing(s.senders[i])
  }

  predicate HoldsLock<T>(pc: SenderPc<T>) {
    pc.Locked? || pc.Wrote? || pc.Flushed?
  }

  /** A passive reader has exactly one signal under way or waiting for it, unless it sleeps. */
  ghost predicate Safe<T>(s: System<T>) {
    && (forall i | i in s.senders :: HoldsLock(s.senders[i]) ==> s.lock == Some(i))
    && (s.lock.Some? ==> HoldsLock(Pc(s, s.lock.value)))
    && s.box.q.part == []
    && (s.box.q.done == [] <==> !(s.lock.Some? && Pc(s, s.lock.value).Wrote?))
    && s.box.signals + |Owed(s)| == (if s.box.active || s.box.q.asleep then 0 else 1)
    && (s.box.active ==> !s.box.q.asleep)
    && (s.box.q.asleep ==> s.box.q.ready == [])
    && (!s.box.active && !s.box.q.asleep ==> s.box.q.ready != [])
    && (s.reader.Reading? || s.reader.MustRead? ==> s.box.active)
    && (s.reader.MustRead? ==> s.box.q.ready != [])
    && (s.reader.Waiting? || s.reader.Woken? ==> !s.box.active)
    && (s.reader.Woken? ==> s.box.signals > 0)
    && s.posted == s.received + s.box.q.ready + s.box.q.done
  }

  /** How a sender moving from one place to the next changes the set of those about to ring. */
  lemma OwedAfter<T>(s: System<T>, t: System<T>, i: Thread, pc: SenderPc<T>)
    requires t.senders == s.senders[i := pc]
    ensures OwesRing(pc) == OwesRing(Pc(s, i)) ==> Owed(t) == Owed(s)
    ensures OwesRing(pc) && !OwesRing(Pc(s, i)) ==> |Owed(t)| == |Owed(s)| + 1
    ensures !OwesRing(pc) && OwesRing(Pc(s, i)) ==> |Owed(t)| == |Owed(s)| - 1
  {
    if OwesRing(pc) {
      assert Owed(t) == Owed(s) + {i};
    } else {
      assert Owed(t) == Owed(s) - {i};
    }
  }

  lemma SenderStepIsSafe<T>(s: System<T>, op: Op<T>)
    requires Safe(s) && Enabled(s, op) && (op.Lock? || op.Write? || op.Flush? || op.Unlock? || op.Ring?)
    ensures Step(s, op).Next? && Safe(Step(s, op).s)
  {
    var t := Step(s, op).s;
    OwedAfter(s, t, op.i, t.senders[op.i]);
  }

  lemma ReaderStepIsSafe<T>(s: System<T>, op: Op<T>)
    requires Safe(s) && Enabled(s, op) && !(op.Lock? || op.Write? || op.Flush? || op.Unlock? || op.Ring?)
    ensures Step(s, op).Next? && Safe(Step(s, op).s)
  {
    var t := Step(s, op).s;
    assert Owed(t) == Owed(s);
  }

  lemma {:induction false} RunIsSafe<T>(ss: seq<System<T>>, ops: seq<Op<T>>, i: nat)
    requires Run(ss, ops) && i < |ss|
    ensures Safe(ss[i])
  {
    hide Safe;
    if i == 0 {
      StartIsSafe(ss[0]);
    } else {
      RunIsSafe(ss, ops, i - 1);
      if ops[i - 1].Lock? || ops[i - 1].Write? || ops[i - 1].Flush? || ops[i - 1].Unlock? || ops[i - 1].Ring? {
        SenderStepIsSafe(ss[i - 1], ops[i - 1]);
      } else {
        ReaderStepIsSafe(ss[i - 1], ops[i - 1]);
      }
    }
  }

  lemma StartIsSafe<T>(s: System<T>)
    requires s == System(Initial(), None, map[], Outside, [], [])
    ensures Safe(s)
  {
    assert Owed(s) == {};
  }

  /** In every run: the assertion after waking up holds, waking up always finds the signal, at most one
      signal is waiting or about to be sent, and commands come out in the order they were written. */
  lemma MailboxIsSafe<T>(ss: seq<System<T>>, ops: seq<Op<T>>, i: nat, op: Op<T>)
    requires Run(ss, ops) && i < |ss|
    ensures Enabled(ss[i], op) ==> Step(ss[i], op).Next?
    ensures ss[i].reader.Woken? ==> Enabled(ss[i], RecvSignal)
    ensures ss[i].box.signals + |Owed(ss[i])| <= 1
    ensures ss[i].posted == ss[i].received + ss[i].box.q.ready + ss[i].box.q.done
    ensures ss[i].lock == None ==> ss[i].box.q.done == []
  {
    RunIsSafe(ss, ops, i);
  }

  /** While commands are published and the reader is passive, exactly one signal is waiting or some sender
      is just about to send it: a reader that waits will wake up. */
  lemma WaitingReaderWillWake<T>(ss: seq<System<T>>, ops: seq<Op<T>>, i: nat)
    requires Run(ss, ops) && i < |ss| && ss[i].box.q.ready != [] && !ss[i].box.active
    ensures ss[i].box.signals + |Owed(ss[i])| == 1
    ensures ss[i].reader.Waiting? ==> Enabled(ss[i], WaitSucceeds) || exists j :: Enabled(ss[i], Unlock(j)) || Enabled(ss[i], Ring(j))
  {
    RunIsSafe(ss, ops, i);
    var s := ss[i];
    if s.box.signals == 0 {
      assert Owed(s) != {};
      var j :| j in Owed(s);
      assert Enabled(s, Unlock(j)) || Enabled(s, Ring(j));
    }
  }

  // ------------------------------------------------------------------------------------------
  // Whole calls
  // ------------------------------------------------------------------------------------------

  predicate AtRest<T>(s: System<T>) {
    s.lock == None && s.reader.Outside? && forall i | i in s.senders :: s.senders[i].Idle?
  }

  lemma RestIsCalm<T>(s: System<T>)
    requires Safe(s) && AtRest(s)
    ensures s.box.Calm()
  {
    assert Owed(s) == {};
  }

  ghost predicate Path<T>(s: System<T>, ops: seq<Op<T>>, t: System<T>)
    decreases |ops|
  {
    if ops == [] then s == t
    else Enabled(s, ops[0]) && Step(s, ops[0]).Next? && Path(Step(s, ops[0]).s, ops[1..], t)
  }

  function SendSteps<T>(i: Thread, cmd: T, rings: bool): seq<Op<T>> {
    [Lock(i, cmd), Write(i), Flush(i), Unlock(i)] + if rings then [Ring(i)] else []
  }

  /** One thread's send, with nobody in between, is `Box.Send`. */
  lemma SendIsItsSteps<T>(s: System<T>, i: Thread, cmd: T)
    requires s.lock == None && Pc(s, i).Idle?
    ensures Path(s, SendSteps(i, cmd, !s.box.Post(cmd).q.FlushOk()),
                 s.(box := s.box.Send(cmd), senders := s.senders[i := Idle], posted := s.posted + [cmd]))
  {
    var rings := !s.box.Post(cmd).q.FlushOk();
    var ops := SendSteps(i, cmd, rings);
    assert ops[1..] == [Write(i), Flush(i), Unlock(i)] + if rings then [Ring(i)] else [];
    assert ops[1..][1..] == [Flush(i), Unlock(i)] + if rings then [Ring(i)] else [];
    assert ops[1..][1..][1..] == [Unlock(i)] + if rings then [Ring(i)] else [];
    assert ops[1..][1..][1..][1..] == if rings then [Ring(i)] else [];
    var s1 := Step(s, Lock(i, cmd)).s;
    var s2 := Step(s1, Write(i)).s;
    var s3 := Step(s2, Flush(i)).s;
    var s4 := Step(s3, Unlock(i)).s;
    assert s4.senders == s.senders[i := if rings then MustRing else Idle];
    var t := s.(box := s.box.Send(cmd), senders := s.senders[i := Idle], posted := s.posted + [cmd]);
    if rings {
      var s5 := Step(s4, Ring(i)).s;
      assert s5.senders == t.senders;
      assert s5 == t && Path(s5, [], t);
      assert Path(s4, [Ring(i)], t);
    } else {
      assert s4 == t;
    }
    assert Path(s3, ops[1..][1..][1..], t);
    assert Path(s2, ops[1..][1..], t);
    assert Path(s1, ops[1..], t);
  }

  function RecvSteps<T>(b: Box<T>, waited: bool): seq<Op<T>> {
    if b.active then
      if b.q.ready != [] then [CallRecv, Read] else [CallRecv, Read, WaitFails]
    else
      if waited && b.signals > 0 then [CallRecv, WaitSucceeds, RecvSignal, ReadWoken] else [CallRecv, WaitFails]
  }

  /** One recv, with nobody in between, is `Box.Recv`, whether or not it waits for the signal. */
  lemma RecvIsItsSteps<T>(s: System<T>, waited: bool)
    requires s.reader.Outside? && s.box.Calm()
    ensures Path(s, RecvSteps(s.box, waited), s.(
              box := s.box.Recv(waited),
              received := s.received + match s.box.RecvResult(waited) case Some(cmd) => [cmd] case None => []))
  {
    var t := s.(box := s.box.Recv(waited),
                received := s.received + match s.box.RecvResult(waited) case Some(cmd) => [cmd] case None => []);
    var ops := RecvSteps(s.box, waited);
    var s1 := Step(s, CallRecv).s;
    if s.box.active {
      var s2 := Step(s1, Read).s;
      if s.box.q.ready != [] {
        assert ops[1..] == [Read];
        assert s2 == t && Path(s2, [], t) && Path(s1, [Read], t);
      } else {
        assert ops[1..] == [Read, WaitFails] && ops[1..][1..] == [WaitFails];
        assert Path(t, [], t) && Path(s2, [WaitFails], t) && Path(s1, ops[1..], t);
      }
    } else if waited && s.box.signals > 0 {
      assert ops[1..] == [WaitSucceeds, RecvSignal, ReadWoken] && ops[1..][1..] == [RecvSignal, ReadWoken];
      assert ops[1..][1..][1..] == [ReadWoken];
      var s2 := Step(s1, WaitSucceeds).s;
      var s3 := Step(s2, RecvSignal).s;
      assert Path(t, [], t) && Path(s3, [ReadWoken], t) && Path(s2, ops[1..][1..], t) && Path(s1, ops[1..], t);
    } else {
      assert ops[1..] == [WaitFails];
      assert Path(t, [], t) && Path(s1, ops[1..], t);
    }
  }

  /** The commands that `n` calls of recv return. */
  function Drain<T>(b: Box<T>, n: nat): seq<T>
    requires b.Calm()
    decreases n
  {
    if n == 0 then []
    else (match b.RecvResult(true) case Some(cmd) => [cmd] case None => []) + Drain(b.Recv(true), n - 1)
  }

  /** Nothing is lost: when the senders are done, recv hands out exactly what was written and not read yet. */
  lemma {:induction false} DrainGetsEverything<T>(b: Box<T>, n: nat)
    requires b.Calm()
    ensures Drain(b, n) == if n < |b.q.ready| then b.q.ready[..n] else b.q.ready
    decreases n
  {
    if n > 0 {
      DrainGetsEverything(b.Recv(true), n - 1);
      if b.q.ready != [] {
        assert b.Recv(true).q.ready == b.q.ready[1..];
        assert b.q.ready == [b.q.ready[0]] + b.q.ready[1..];
      }
    }
  }

  lemma NoCommandIsLost<T>(ss: seq<System<T>>, ops: seq<Op<T>>, i: nat)
    requires Run(ss, ops) && i < |ss| && AtRest(ss[i])
    ensures ss[i].box.Calm()
    ensures ss[i].received + Drain(ss[i].box, |ss[i].box.q.ready|) == ss[i].posted
  {
    RunIsSafe(ss, ops, i);
    RestIsCalm(ss[i]);
    DrainGetsEverything(ss[i].box, |ss[i].box.q.ready|);
  }
}
