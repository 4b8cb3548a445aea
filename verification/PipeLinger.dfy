/** What a whole run of a pipe pair guarantees to its two users: messages arrive in order and
    complete, termination does not get stuck, and a lingering reader loses nothing. */
module PipeLinger {
  import opened Options
  import opened Ypipe
  import opened PipeStep
  import opened PipePair
  import opened PipeStream

  /** One side never calls hiccup. */
  predicate NoHiccup(ls: seq<Label>, mine: bool) {
    forall i | 0 <= i < |ls| && ls[i].mine == mine :: !ls[i].op.DoHiccup?
  }

  lemma FreshInStream(p: Pair, up1: nat, up2: nat, hwms0: int, hwms1: int)
    requires up1 != up2 && p == FreshPair(up1, up2, hwms0, hwms1)
    ensures InStream(p)
  {
    assert Delimiters(0) == [];
  }

  lemma {:induction false} RunInStream(ps: seq<Pair>, ls: seq<Label>, n: nat)
    requires Run(ps, ls) && n < |ps| && NoHiccup(ls, true)
    ensures Safe(ps[n]) && InStream(ps[n])
  {
    RunIsSafe(ps, ls, n);
    if n == 0 {
      var up1, up2, hwms0, hwms1 :| up1 != up2 && ps[0] == FreshPair(up1, up2, hwms0, hwms1);
      FreshInStream(ps[0], up1, up2, hwms0, hwms1);
    } else {
      RunInStream(ps, ls, n - 1);
      var p, a := ps[n - 1], ls[n - 1];
      assert EnabledAt(p, a) && StepAt(p, a) == Next(ps[n]);
      hide Safe, InStream, Step;
      if a.mine {
        ReaderStep(p, a.op);
      } else {
        assert Flip(Flip(p)) == p;
        FlipSafe(p);
        WriterStep(Flip(p), a.op);
      }
    }
  }

  lemma RunOutStream(ps: seq<Pair>, ls: seq<Label>, n: nat)
    requires Run(ps, ls) && n < |ps| && NoHiccup(ls, false)
    ensures InStream(Flip(ps[n]))
  {
    FlipRun(ps, ls);
    RunInStream(FlipAll(ps), Mirror(ls), n);
  }

  /** What `me` got is, in order, what the peer completed: a prefix of it, and nothing unfinished. */
  lemma MessagesArriveInOrder(ps: seq<Pair>, ls: seq<Label>, n: nat)
    requires Run(ps, ls) && n < |ps| && NoHiccup(ls, true) && !ps[n].me.freed
    ensures ps[n].me.got <= ps[n].peer.written + Delimiters(ps[n].peer.closed)
  {
    RunInStream(ps, ls, n);
    GotIsPrefix(ps[n].me, ps[n].peer, ps[n].heap[ps[n].me.inpipe], ps[n].toMe);
  }

  lemma GotIsPrefix(rd: Endpoint, wr: Endpoint, q: Queue<Frame>, cs: seq<Command>)
    requires Stream(rd, wr, q, cs)
    ensures rd.got <= wr.written + Delimiters(wr.closed)
  {
    assert rd.got + q.ready + q.done == rd.got + (q.ready + q.done);
  }

  // ------------------------------------------------------------------------------------------
  // Lingering delivery
  // ------------------------------------------------------------------------------------------

  /** `me` never hurries: it calls neither terminate, set_nodelay nor hiccup. */
  predicate Patient(ls: seq<Label>) {
    forall i | 0 <= i < |ls| && ls[i].mine :: !ls[i].op.DoTerminate? && !ls[i].op.DoSetNodelay? && !ls[i].op.DoHiccup?
  }

  /** `rd` has consumed everything `wr` ever completed. */
  predicate AllDelivered(rd: Endpoint, wr: Endpoint) {
    SentTerm(wr) && rd.got == wr.written + [Delimiter] && wr.open == []
  }

  predicate Lingers(rd: Endpoint, wr: Endpoint) {
    rd.delay && !SentTerm(rd) && (SentAck(rd) ==> AllDelivered(rd, wr))
  }

  lemma {:induction false} ReadLingers(l: Local, wr: Endpoint, cs: seq<Command>)
    requires Stream(l.e, wr, l.inq, cs) && Agree(l.e, wr) && Reading(l.e) && Lingers(l.e, wr) && !l.e.freed
    ensures Lingers(ReadFrames(l).0.e, wr)
    decreases |l.inq.ready|
  {
    if l.inq.ready != [] {
      if l.inq.ready[0] == Delimiter {
        DelimiterIsLast(l.e, wr, l.inq, cs);
      } else if l.inq.ready[0].credential {
        TakeKeepsStream(l, wr, cs);
        ReadLingers(Take(l), wr, cs);
      }
    }
  }

  lemma CallLingers(l: Local, op: Op, wr: Endpoint, cs: seq<Command>)
    requires Plain(op) && !op.DoTerminate? && !op.DoSetNodelay?
    requires Stream(l.e, wr, l.inq, cs) && Agree(l.e, wr) && Lingers(l.e, wr) && !l.e.freed
    ensures Lingers(Call(l, op).e, wr)
  {
    if op.DoRead? && CanRead(l.e) {
      ReadLingers(l, wr, cs);
    } else if op.DoCheckRead? && CanRead(l.e) && l.inq.ready != [] && l.inq.ready[0] == Delimiter {
      DelimiterIsLast(l.e, wr, l.inq, cs);
    } else {
      hide Stream, ReadFrames;
    }
  }

  lemma ReactLingers(l: Local, c: Command, wr: Endpoint)
    requires Reacts(l.e, c) && Lingers(l.e, wr) && (l.e.state == DelimiterReceived ==> AllDelivered(l.e, wr))
    ensures Lingers(React(l, c).e, wr)
  {
  }

  lemma StoreMe(p: Pair, l: Local)
    ensures Store(p, l).me == l.e && Store(p, l).peer == p.peer
  {
  }

  lemma ProcessPeer(p: Pair)
    requires p.toMe != [] && Process(p).Next?
    ensures Process(p).p.peer == p.peer
  {
    hide React;
  }

  /** The receiver after a delivery. */
  lemma ProcessMe(p: Pair)
    requires p.toMe != [] && Process(p).Next?
    ensures !p.me.freed && !Dangling(p)
    ensures Reacts(p.me, p.toMe[0]) ==> Process(p).p.me == React(Load(p), p.toMe[0]).e
    ensures !Reacts(p.me, p.toMe[0]) ==>
            var f := Process(p).p.me;
            f.state == p.me.state && f.got == p.me.got && f.delay == p.me.delay && (f.freed ==> AckExpected(f))
  {
    hide React;
    if Reacts(p.me, p.toMe[0]) {
      StoreMe(p.(toMe := p.toMe[1..]), React(Load(p), p.toMe[0]));
    }
    hide Store;
  }

  lemma DeliveryLingers(p: Pair)
    requires Safe(p) && InStream(p) && p.toMe != [] && Lingers(p.me, p.peer)
    ensures Process(p).Next? && Lingers(Process(p).p.me, p.peer)
  {
    DeliveryKeepsSafe(p);
    SafeParts(p);
    assert !p.me.freed;
    assert p.me.state == DelimiterReceived ==> AllDelivered(p.me, p.peer);
    hide Stream, Safe, InStream, Half, LastWord, AllDelivered, React, Process;
    ProcessMe(p);
    if Reacts(p.me, p.toMe[0]) {
      ReactLingers(Load(p), p.toMe[0], p.peer);
    } else {
      hide Load, Dangling;
      SameDelivered(p.me, Process(p).p.me, p.peer);
    }
  }

  lemma SameDelivered(rd: Endpoint, rd': Endpoint, wr: Endpoint)
    requires rd'.got == rd.got
    ensures AllDelivered(rd, wr) == AllDelivered(rd', wr)
  {
  }

  lemma MyStepLingers(p: Pair, op: Op)
    requires Safe(p) && InStream(p) && Enabled(p, op) && Lingers(p.me, p.peer)
    requires !op.DoTerminate? && !op.DoSetNodelay? && !op.DoHiccup?
    ensures Step(p, op).Next? && Lingers(Step(p, op).p.me, p.peer) && Step(p, op).p.peer == p.peer
  {
    hide Safe, Call, Process, Lingers, Store, Stream;
    SideKeepsSafe(p, op);
    if op.Deliver? {
      DeliveryLingers(p);
      ProcessPeer(p);
    } else {
      CallStep(p, op);
      StoreMe(p, Call(Load(p), op));
      CallLingers(Load(p), op, p.peer, p.toMe);
    }
  }

  /** After terminate nothing is written any more, whatever the user calls. */
  lemma CallIsFinal(l: Local, op: Op)
    requires Plain(op) && SentTerm(l.e)
    ensures var f := Call(l, op).e; SentTerm(f) && f.written == l.e.written && (l.e.open == [] ==> f.open == [])
  {
  }

  /** A step of the writer `p.me`, whose reader `p.peer` lingers. */
  lemma PeerStepLingers(p: Pair, op: Op)
    requires Safe(p) && InStream(Flip(p)) && Enabled(p, op) && Lingers(p.peer, p.me)
    ensures Step(p, op).Next? && Lingers(p.peer, Step(p, op).p.me) && Step(p, op).p.peer == p.peer
  {
    SideKeepsSafe(p, op);
    if op.Deliver? {
      PopHead(p.toMe);
      if p.toMe[0] == PipeTermAck { AckStep(p); } else { DeliveryStep(p); }
    } else if op.DoHiccup? {
    } else {
      CallStep(p, op);
      if SentTerm(p.me) {
        CallIsFinal(Load(p), op);
      }
    }
  }

  lemma StepLingers(p: Pair, a: Label)
    requires Safe(p) && InStream(p) && EnabledAt(p, a) && Lingers(p.me, p.peer)
    requires a.mine ==> !a.op.DoTerminate? && !a.op.DoSetNodelay? && !a.op.DoHiccup?
    ensures StepAt(p, a).Next? && Lingers(StepAt(p, a).p.me, StepAt(p, a).p.peer)
  {
    hide Safe, InStream, Step, Lingers, Enabled;
    if a.mine {
      MyStepLingers(p, a.op);
    } else {
      assert Flip(Flip(p)) == p;
      FlipSafe(p);
      PeerStepLingers(Flip(p), a.op);
    }
  }

  lemma StartLingers(ps: seq<Pair>, ls: seq<Label>)
    requires Run(ps, ls)
    ensures Lingers(ps[0].me, ps[0].peer)
  {
  }

  lemma {:induction false} RunLingers(ps: seq<Pair>, ls: seq<Label>, n: nat)
    requires Run(ps, ls) && n < |ps| && Patient(ls)
    ensures Lingers(ps[n].me, ps[n].peer)
  {
    hide Safe, InStream, StepAt, EnabledAt, Lingers, Run;
    RunLength(ps, ls);
    if n > 0 {
      RunNext(ps, ls, n - 1);
      RunLingers(ps, ls, n - 1);
      RunInStream(ps, ls, n - 1);
      StepLingers(ps[n - 1], ls[n - 1]);
    } else {
      StartLingers(ps, ls);
    }
  }

  /** When a patient reader acknowledges, it has consumed, in order, exactly the complete messages
      its peer wrote, and its peer called terminate. */
  lemma LingeringDelivery(ps: seq<Pair>, ls: seq<Label>, n: nat)
    requires Run(ps, ls) && n < |ps| && Patient(ls)
    requires PipeTermAck in ps[n].me.sent
    ensures ps[n].me.got == ps[n].peer.written + [Delimiter] && ps[n].peer.open == [] && SentTerm(ps[n].peer)
  {
    RunLingers(ps, ls, n);
    PipesAreSafe(ps, ls, n);
    RunIsSafe(ps, ls, n);
  }
}
