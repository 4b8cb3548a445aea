/** One direction of a pipe pair when the reader may call hiccup.

    A hiccup cuts the stream: until the writer takes it, the reader holds an empty ypipe that nobody
    writes to.  If the writer takes it before it calls terminate, a new stream begins; if it takes it
    afterwards, the stream stays cut, because the delimiter went into the old ypipe. */
module PipeHiccup {
  import opened Options
  import opened Ypipe
  import opened PipeStep
  import opened PipePair
  import opened PipeStream

  /** The writer terminated, and no delimiter is in its outpipe. */
  predicate Lost(wr: Endpoint) {
    SentTerm(wr) && wr.closed == 0
  }

  predicate Cut(p: Pair) {
    HiccupPipes(p.toPeer) != [] || Lost(p.peer)
  }

  /** The reader holds an empty ypipe, from which it has read nothing. */
  predicate Bare(rd: Endpoint, q: Queue<Frame>, cs: seq<Command>) {
    && rd.got == [] && q.ready == [] && q.done == [] && q.part == []
    && rd.state != DelimiterReceived
    && (!rd.inActive && Reading(rd) ==> q.asleep || ActivateRead in cs)
  }

  /** The direction towards `me`. */
  ghost predicate Flows(p: Pair) {
    !p.me.freed ==>
      && p.me.inpipe in p.heap
      && if Cut(p) then Bare(p.me, p.heap[p.me.inpipe], p.toMe) else Stream(p.me, p.peer, p.heap[p.me.inpipe], p.toMe)
  }

  lemma InStreamFlows(p: Pair)
    requires InStream(p)
    ensures Flows(p)
  {
  }

  lemma FlowsInStream(p: Pair)
    requires Flows(p) && !Cut(p)
    ensures InStream(p)
  {
  }

  // ------------------------------------------------------------------------------------------
  // Steps of the reader
  // ------------------------------------------------------------------------------------------

  lemma MoverIsAlive(p: Pair, op: Op)
    requires Safe(p) && Enabled(p, op)
    ensures !p.me.freed
  {
    SafeParts(p);
  }

  /** Nothing can be taken out of an empty ypipe. */
  lemma BareCall(l: Local, op: Op, cs: seq<Command>)
    requires Plain(op) && Bare(l.e, l.inq, cs)
    ensures Bare(Call(l, op).e, Call(l, op).inq, cs)
  {
    if CanRead(l.e) && (op.DoRead? || op.DoCheckRead?) {
    } else {
      hide ReadFrames, Terminate;
      CallLeavesReader(l, op);
    }
  }

  lemma BareIdle(e: Endpoint, f: Endpoint, q: Queue<Frame>, cs: seq<Command>, cs': seq<Command>)
    requires Bare(e, q, cs) && ReaderIdle(e, f)
    requires ActivateRead in cs ==> ActivateRead in cs' || f.inActive || !Reading(f)
    ensures Bare(f, q, cs')
  {
  }

  lemma CutReaderCall(p: Pair, op: Op)
    requires Safe(p) && Flows(p) && Cut(p) && Enabled(p, op) && Plain(op)
    ensures Step(p, op).Next? && Flows(Step(p, op).p)
  {
    CallStep(p, op);
    Apart(p);
    var l := Call(Load(p), op);
    MovesPointers(p.me, l.e);
    HiccupPipesAppend(p.toPeer, News(p.me, l.e));
    hide Safe, Moves, HiccupPipes, Call, Step, Bare, Stream;
    BareCall(Load(p), op, p.toMe);
    StoreHeap(p, l);
    hide Store;
  }

  lemma StillCut(p: Pair, q: Pair)
    requires Cut(p) && q.peer == p.peer && (q.toPeer == p.toPeer || q.toPeer == p.toPeer + [PipeTermAck])
    ensures Cut(q)
  {
    HiccupPipesAppend(p.toPeer, [PipeTermAck]);
  }

  lemma CutReaderDelivery(p: Pair)
    requires Safe(p) && Flows(p) && Cut(p) && p.toMe != []
    ensures Process(p).Next? && Flows(Process(p).p)
  {
    hide Safe, Process, Bare, Stream, Cut;
    if p.toMe[0] == PipeTermAck {
      AckStep(p);
    } else {
      DeliveryStep(p);
      var q := Process(p).p;
      StillCut(p, q);
      assert p.toMe == [p.toMe[0]] + p.toMe[1..];
      BareIdle(p.me, q.me, p.heap[p.me.inpipe], p.toMe, q.toMe);
    }
  }

  /** What pipe_t::hiccup does to the pair. */
  lemma HiccupEffect(p: Pair, address: nat)
    requires Safe(p) && Enabled(p, DoHiccup(address))
    ensures Step(p, DoHiccup(address)).Next?
    ensures var q := Step(p, DoHiccup(address)).p;
            if p.me.state != Active then q == p
            else q == p.(me := p.me.(inpipe := address, inActive := true, got := [], sent := p.me.sent + [Command.Hiccup(address)]),
                         toPeer := p.toPeer + [Command.Hiccup(address)], heap := p.heap[address := Fresh()])
  {
    SideKeepsSafe(p, DoHiccup(address));
    NoDangling(p);
    hide Safe;
    assert News(p.me, p.me.(sent := p.me.sent + [Command.Hiccup(address)])) == [Command.Hiccup(address)];
  }

  /** A hiccup of the reader cuts the stream. */
  lemma HiccupCuts(p: Pair, address: nat)
    requires Safe(p) && Flows(p) && Enabled(p, DoHiccup(address))
    ensures Step(p, DoHiccup(address)).Next? && Flows(Step(p, DoHiccup(address)).p)
  {
    HiccupEffect(p, address);
    HiccupPipesAppend(p.toPeer, [Command.Hiccup(address)]);
    assert HiccupPipes([Command.Hiccup(address)]) == [address];
    hide Safe, Stream, Step;
  }

  lemma ProcessIsStep(p: Pair)
    requires p.toMe != []
    ensures Step(p, Deliver) == Process(p)
  {
    hide Process;
  }

  /** Every step of the reader. */
  lemma ReaderFlows(p: Pair, op: Op)
    requires Safe(p) && Flows(p) && Enabled(p, op)
    ensures Step(p, op).Next? && Flows(Step(p, op).p)
  {
    MoverIsAlive(p, op);
    hide Safe, Stream, Bare, Process, Call, Flows, Step;
    if op.DoHiccup? {
      HiccupCuts(p, op.address);
    } else if !Cut(p) {
      FlowsInStream(p);
      ReaderStep(p, op);
      InStreamFlows(Step(p, op).p);
    } else if op.Deliver? {
      ProcessIsStep(p);
      CutReaderDelivery(p);
    } else {
      CutReaderCall(p, op);
    }
  }

  // ------------------------------------------------------------------------------------------
  // Steps of the writer
  // ------------------------------------------------------------------------------------------

  /** While a hiccup is under way, the reader's ypipe is none of those the writer holds. */
  lemma PendingIsElsewhere(p: Pair)
    requires Safe(p) && !p.peer.freed && !p.me.freed && HiccupPipes(p.toMe) != []
    ensures p.me.outpipe.Some? && p.me.outpipe.value != p.peer.inpipe && p.me.inpipe != p.peer.inpipe
  {
    SafeParts(p);
    Apart(p);
    var c := Chain(Flip(p));
    assert c[0] == p.me.outpipe.value && c[|c| - 1] == p.peer.inpipe && |c| >= 2;
    OncePerChain(p, 0, |c| - 1);
  }

  lemma CountTwice(c: seq<nat>, i: nat, j: nat)
    requires i < j < |c|
    ensures c[i] == c[j] ==> multiset(c)[c[i]] >= 2
  {
    assert c == c[..j] + [c[j]] + c[j + 1..];
    assert c[..j][i] == c[i];
  }

  /** No ypipe is in a chain twice. */
  lemma OncePerChain(p: Pair, i: nat, j: nat)
    requires Safe(p) && i < j < |Chain(Flip(p))|
    ensures Chain(Flip(p))[i] != Chain(Flip(p))[j]
  {
    var c := Chain(Flip(p));
    CountTwice(c, i, j);
    assert (multiset(Chain(p)) + multiset(c))[c[i]] == multiset(p.heap.Keys)[c[i]];
  }

  /** After a lost delimiter the writer's queue stays as it is, whatever the user calls. */
  lemma LostCall(l: Local, op: Op)
    requires Plain(op) && Lost(l.e) && l.outq.done == l.outq.part == []
    ensures var r := Call(l, op); Lost(r.e) && OutAfter(l, r) == l.outq
  {
    if !op.DoFlush? && !op.DoWrite? && !op.DoTerminate? && !op.DoRollback? {
      CallLeavesWriter(l, op);
    }
  }

  lemma BareMore(rd: Endpoint, q: Queue<Frame>, cs: seq<Command>, news: seq<Command>)
    requires Bare(rd, q, cs)
    ensures Bare(rd, q, cs + news)
  {
  }

  lemma CutWriterCall(p: Pair, op: Op)
    requires Safe(p) && Flows(Flip(p)) && Cut(Flip(p)) && !p.peer.freed && Enabled(p, op) && Plain(op)
    ensures Step(p, op).Next? && Flows(Flip(Step(p, op).p))
  {
    CallStep(p, op);
    Apart(p);
    var l, r := Load(p), Call(Load(p), op);
    MovesPointers(p.me, r.e);
    if HiccupPipes(p.toMe) != [] {
      PendingIsElsewhere(p);
    } else if p.me.outpipe.Some? {
      OnePipe(p);
    }
    hide Safe, Moves, HiccupPipes, Call, Step, Stream, LastWord;
    StoreHeap(p, r);
    BareMore(p.peer, p.heap[p.peer.inpipe], p.toPeer, News(p.me, r.e));
    if HiccupPipes(p.toMe) == [] {
      assert Bare(p.peer, p.heap[p.peer.inpipe], p.toPeer);
      if p.me.outpipe == None {
        MutedLost(l, op);
      } else {
        LostCall(l, op);
      }
    }
    hide Store, Bare;
  }

  lemma MutedLost(l: Local, op: Op)
    requires Plain(op) && !l.e.freed && (l.e.outpipe == None <==> SentAck(l.e)) && l.e.outpipe == None && Lost(l.e)
    ensures var r := Call(l, op); r.e.outpipe == None && Lost(r.e)
  {
  }

  /** process_hiccup as a step of the pair. */
  lemma HiccupTaken(p: Pair)
    requires Safe(p) && p.toMe != [] && p.toMe[0].Hiccup?
    ensures !p.me.freed && !GotTerm(p.me) && p.me.outpipe.Some? && Process(p).Next?
    ensures var q := Process(p).p;
            && q.peer == p.peer && q.toMe == p.toMe[1..] && q.toPeer == p.toPeer && q.heap == p.heap - {p.me.outpipe.value}
            && q.me.state == p.me.state && q.me.outpipe == Some(p.toMe[0].pipe) && q.me.inpipe == p.me.inpipe && !q.me.freed
            && q.me.written == [] && q.me.open == [] && q.me.closed == 0
    ensures HiccupPipes(p.toMe) == [p.toMe[0].pipe] + HiccupPipes(p.toMe[1..])
  {
    SafeParts(p);
    PopHead(p.toMe);
    NoDangling(p);
    HiccupIsExpected(p);
    assert !p.me.freed && !GotTerm(p.me);
    hide *;
    PlugsOut(p);
  }

  /** The writer takes a hiccup: if it was the last one, a new stream begins, unless the writer terminated already. */
  lemma TakenFlows(p: Pair)
    requires Safe(p) && Flows(Flip(p)) && !p.peer.freed && p.toMe != [] && p.toMe[0].Hiccup?
    ensures Process(p).Next? && Flows(Flip(Process(p).p))
  {
    HiccupTaken(p);
    PendingIsElsewhere(p);
    var q := Process(p).p;
    hide Safe, Process;
    assert q.heap[p.peer.inpipe] == p.heap[p.peer.inpipe];
    assert Delimiters(0) == [];
  }

  lemma CutWriterDelivery(p: Pair)
    requires Safe(p) && Flows(Flip(p)) && Cut(Flip(p)) && !p.peer.freed && p.toMe != []
    ensures Process(p).Next? && Flows(Flip(Process(p).p))
  {
    if p.toMe[0].Hiccup? {
      TakenFlows(p);
    } else {
      assert Shape(p.toMe) by { SafeParts(p); }
      PopHead(p.toMe);
      Apart(p);
      if p.toMe[0] == PipeTermAck {
        AckStep(p);
      } else {
        DeliveryStep(p);
      }
      BareMore(p.peer, p.heap[p.peer.inpipe], p.toPeer, [PipeTermAck]);
      hide Safe, HiccupPipes, Process, Shape, Stream, Bare;
    }
  }

  lemma CutWriterHiccup(p: Pair, address: nat)
    requires Safe(p) && Flows(Flip(p)) && Cut(Flip(p)) && !p.peer.freed && Enabled(p, DoHiccup(address))
    ensures Step(p, DoHiccup(address)).Next? && Flows(Flip(Step(p, DoHiccup(address)).p))
  {
    HiccupEffect(p, address);
    BareMore(p.peer, p.heap[p.peer.inpipe], p.toPeer, [Command.Hiccup(address)]);
    hide Safe, Step, Stream, Bare, HiccupPipes;
  }

  lemma FreedReader(p: Pair, op: Op)
    requires Safe(p) && Enabled(p, op) && p.peer.freed
    ensures Step(p, op).Next? && Step(p, op).p.peer.freed
  {
    if op.Deliver? {
      ProcessIsStep(p);
      if p.toMe[0] == PipeTermAck { AckStep(p); } else { DeliveryStep(p); }
    } else if op.DoHiccup? {
      HiccupEffect(p, op.address);
    } else {
      CallStep(p, op);
    }
    hide Safe, Process, Call;
  }

  /** Every step of the writer. */
  lemma WriterFlows(p: Pair, op: Op)
    requires Safe(p) && Flows(Flip(p)) && Enabled(p, op)
    ensures Step(p, op).Next? && Flows(Flip(Step(p, op).p))
  {
    if p.peer.freed {
      hide Safe, Step, Process, Call;
      FreedReader(p, op);
    } else if !Cut(Flip(p)) {
      hide Safe, Step, Flows, Cut;
      FlowsInStream(Flip(p));
      WriterStep(p, op);
      InStreamFlows(Flip(Step(p, op).p));
    } else if op.Deliver? {
      hide Safe, Step, Flows, Cut;
      ProcessIsStep(p);
      CutWriterDelivery(p);
    } else {
      hide Safe, Step, Flows, Cut;
      if op.DoHiccup? {
        CutWriterHiccup(p, op.address);
      } else {
        CutWriterCall(p, op);
      }
    }
  }
}
