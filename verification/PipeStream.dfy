/** One direction of a pipe pair: what the reader gets is what the writer wrote.

    `rd` reads the ypipe `q` that `wr` writes, and `cs` are the commands under way to `rd`.  The
    invariant holds as long as the reader never calls hiccup, which replaces `q`. */
module PipeStream {
  import opened Options
  import opened Ypipe
  import opened PipeStep
  import opened PipePair

  predicate Reading(e: Endpoint) {
    e.state == Active || e.state == WaitingForDelimiter
  }

  function Delimiters(n: nat): (r: seq<Frame>)
    ensures |r| == n && forall i | 0 <= i < n :: r[i] == Delimiter
  {
    seq(n, _ => Delimiter)
  }

  ghost predicate Stream(rd: Endpoint, wr: Endpoint, q: Queue<Frame>, cs: seq<Command>) {
    && rd.got + q.ready + q.done == wr.written + Delimiters(wr.closed)
    && q.part == wr.open
    && (q.asleep ==> q.ready == [])
    && (!rd.inActive && Reading(rd) ==> q.asleep || ActivateRead in cs)
    && (wr.closed > 0 ==> wr.state != Active && wr.state != DelimiterReceived && q.done == [] && q.part == [])
    && (SentTerm(wr) ==> wr.closed == 1)
    && Delimiter !in wr.written && Delimiter !in wr.open
    && (Reading(rd) ==> Delimiter !in rd.got)
    && (rd.state == DelimiterReceived ==> SentTerm(wr) && rd.got == wr.written + [Delimiter])
  }

  /** The part of the handshake invariant that the stream needs. */
  predicate Agree(rd: Endpoint, wr: Endpoint) {
    (GotTerm(rd) ==> SentTerm(wr)) && (GotTerm(wr) ==> SentTerm(rd))
  }

  /** Reading the delimiter means having read everything, from a peer that called terminate. */
  lemma DelimiterIsLast(rd: Endpoint, wr: Endpoint, q: Queue<Frame>, cs: seq<Command>)
    requires Stream(rd, wr, q, cs) && Agree(rd, wr) && Reading(rd) && q.ready != [] && q.ready[0] == Delimiter
    ensures SentTerm(wr) && rd.got == wr.written && q.ready == [Delimiter] && q.done == []
  {
    var all := wr.written + Delimiters(wr.closed);
    var k := |rd.got|;
    assert all[k] == Delimiter by {
      assert (rd.got + q.ready + q.done)[k] == q.ready[0];
    }
    assert forall i | 0 <= i < |wr.written| :: all[i] == wr.written[i] && all[i] in wr.written;
    assert forall i | 0 <= i < k :: all[i] == rd.got[i] && all[i] in rd.got;
    assert k >= |wr.written|;
    assert wr.closed > 0 && SentTerm(wr);
    assert k <= |wr.written|;
    assert all[..k] == rd.got && all[..k] == wr.written;
    assert |q.ready| == 1;
  }

  lemma {:induction false} ReadKeepsStream(l: Local, wr: Endpoint, cs: seq<Command>)
    requires Stream(l.e, wr, l.inq, cs) && Agree(l.e, wr) && Reading(l.e)
    ensures var r := ReadFrames(l).0; Stream(r.e, wr, r.inq, cs)
    decreases |l.inq.ready|
  {
    if l.inq.ready != [] {
      var f := l.inq.ready[0];
      TakeKeepsStream(l, wr, cs);
      if f == Delimiter {
        DelimiterIsLast(l.e, wr, l.inq, cs);
      } else if f.credential {
        ReadKeepsStream(Take(l), wr, cs);
      }
    }
  }

  /** Taking a frame that is not the delimiter. */
  lemma TakeKeepsStream(l: Local, wr: Endpoint, cs: seq<Command>)
    requires Stream(l.e, wr, l.inq, cs) && l.inq.ready != []
    ensures var r := Take(l); r.e.got + r.inq.ready + r.inq.done == wr.written + Delimiters(wr.closed)
    ensures l.inq.ready[0] != Delimiter && Reading(l.e) ==> Stream(Take(l).e, wr, Take(l).inq, cs)
  {
    assert l.inq.ready == [l.inq.ready[0]] + l.inq.ready[1..];
    assert Take(l).e.got + Take(l).inq.ready == l.e.got + l.inq.ready;
  }

  /** The reader did nothing that matters to this direction. */
  predicate ReaderIdle(e: Endpoint, f: Endpoint) {
    && f.got == e.got && f.msgsRead == e.msgsRead && f.lwm == e.lwm
    && (f.inActive == e.inActive || f.inActive)
    && (Reading(f) ==> Reading(e))
    && (f.state == DelimiterReceived ==> e.state == DelimiterReceived)
  }

  predicate WriterIdle(e: Endpoint, f: Endpoint) {
    && f.written == e.written && f.open == e.open && f.closed == e.closed
    && f.msgsWritten == e.msgsWritten && f.hwm == e.hwm
    && SentTerm(f) == SentTerm(e)
    && (f.state == Active || f.state == DelimiterReceived ==> e.state == Active || e.state == DelimiterReceived)
  }

  lemma IdleKeepsStream(rd: Endpoint, wr: Endpoint, q: Queue<Frame>, cs: seq<Command>, rd': Endpoint, wr': Endpoint, cs': seq<Command>)
    requires Stream(rd, wr, q, cs) && ReaderIdle(rd, rd') && WriterIdle(wr, wr')
    requires ActivateRead in cs ==> ActivateRead in cs' || rd'.inActive || !Reading(rd')
    ensures Stream(rd', wr', q, cs')
  {
  }

  lemma TerminateLeavesReader(l: Local, delay: bool)
    ensures Terminate(l, delay).inq == l.inq && ReaderIdle(l.e, Terminate(l, delay).e)
    ensures forall c | c in News(l.e, Terminate(l, delay).e) :: !c.ActivateWrite?
  {
    var s := StartTerminate(l, delay);
    var r := CloseOut(s);
    assert r.inq == s.inq && ReaderIdle(s.e, r.e);
    assert r.e.sent == s.e.sent || r.e.sent == s.e.sent + [ActivateRead];
    assert s.e.sent == l.e.sent || s.e.sent == l.e.sent + [PipeTerm] || s.e.sent == l.e.sent + [PipeTermAck];
    hide CloseOut, StartTerminate;
  }

  lemma CallLeavesReader(l: Local, op: Op)
    requires Plain(op) && !(CanRead(l.e) && (op.DoRead? || op.DoCheckRead?))
    ensures Call(l, op).inq == l.inq && ReaderIdle(l.e, Call(l, op).e)
    ensures forall c | c in News(l.e, Call(l, op).e) :: !c.ActivateWrite?
  {
    hide ReadFrames, Terminate;
    if op.DoTerminate? {
      TerminateLeavesReader(l, op.delay);
    }
  }

  lemma ReaderCallKeepsStream(l: Local, op: Op, wr: Endpoint, cs: seq<Command>)
    requires Plain(op) && Stream(l.e, wr, l.inq, cs) && Agree(l.e, wr)
    ensures Stream(Call(l, op).e, wr, Call(l, op).inq, cs)
  {
    hide Stream, Flush, CloseOut, ReadFrames;
    if op.DoRead? && CanRead(l.e) {
      ReadKeepsStream(l, wr, cs);
    } else if op.DoCheckRead? && CanRead(l.e) {
      CheckReadKeepsStream(l, wr, cs);
    } else {
      CallLeavesReader(l, op);
      IdleKeepsStream(l.e, wr, l.inq, cs, Call(l, op).e, wr, cs);
    }
  }

  lemma CheckReadKeepsStream(l: Local, wr: Endpoint, cs: seq<Command>)
    requires Stream(l.e, wr, l.inq, cs) && Agree(l.e, wr) && CanRead(l.e)
    ensures var r := CheckRead(l).0; Stream(r.e, wr, r.inq, cs)
  {
    if l.inq.ready != [] && l.inq.ready[0] == Delimiter {
      TakeKeepsStream(l, wr, cs);
      DelimiterIsLast(l.e, wr, l.inq, cs);
    }
  }

  // The writer.

  lemma Regroup(a: seq<Frame>, b: seq<Frame>, c: seq<Frame>, d: seq<Frame>)
    ensures a + (b + c) == a + b + c
    ensures a + (b + (c + d)) == a + b + c + d
    ensures a + b + (c + d) == a + b + c + d
  {
  }

  /** Flush publishes what is complete, and a wake-up follows if the reader was asleep. */
  lemma FlushKeepsStream(rd: Endpoint, l: Local, cs: seq<Command>)
    requires Stream(rd, l.e, l.outq, cs)
    ensures var r := Flush(l); Stream(rd, r.e, r.outq, cs + News(l.e, r.e))
  {
    Regroup(rd.got, l.outq.ready, l.outq.done, []);
  }

  lemma WriteKeepsStream(rd: Endpoint, l: Local, f: Frame, cs: seq<Command>)
    requires Stream(rd, l.e, l.outq, cs) && f.Frame?
    ensures var r := Write(l, f).0; Stream(rd, r.e, r.outq, cs)
  {
    if CheckWrite(l).1 {
      assert wr0: l.e.closed == 0;
      Regroup(rd.got + l.outq.ready, l.outq.done, l.outq.part, [f]);
      Regroup(l.e.written, l.e.open, [f], []);
      assert l.e.written + Delimiters(0) == l.e.written by { assert Delimiters(0) == []; }
      assert (l.e.written + l.e.open + [f]) + Delimiters(0) == l.e.written + l.e.open + [f];
    }
  }

  lemma AppendDelimiter(got: seq<Frame>, ready: seq<Frame>, done: seq<Frame>, written: seq<Frame>, n: nat)
    requires got + ready + done == written + Delimiters(n)
    ensures got + (ready + (done + [] + [Delimiter])) + [] == written + Delimiters(n + 1)
  {
    assert Delimiters(n + 1) == Delimiters(n) + [Delimiter];
    assert got + (ready + (done + [] + [Delimiter])) + [] == (got + ready + done) + [Delimiter];
  }

  /** The tail of terminate appends exactly one delimiter behind the last complete message. */
  lemma CloseKeepsStream(rd: Endpoint, wr: Endpoint, l: Local, cs: seq<Command>)
    requires Stream(rd, wr, l.outq, cs) && l.e.outpipe.Some?
    requires l.e.written == wr.written && l.e.open == wr.open && l.e.closed == wr.closed
    requires (l.e.state == TermReqSent1 && wr.closed == 0) || (l.e.state == WaitingForDelimiter && !SentTerm(wr))
    requires rd.state == DelimiterReceived ==> SentTerm(wr)
    ensures var r := CloseOut(l); Stream(rd, r.e, r.outq, cs + News(l.e, r.e))
  {
    AppendDelimiter(rd.got, l.outq.ready, l.outq.done, wr.written, wr.closed);
    var r := CloseOut(l);
    assert r.outq == Queue(l.outq.ready + (l.outq.done + [] + [Delimiter]), [], [], false);
    assert News(l.e, r.e) == if l.outq.asleep then [ActivateRead] else [];
    assert r.e.open == [] && r.e.closed == wr.closed + 1 && r.e.written == wr.written && r.e.state == l.e.state;
    hide CloseOut;
  }

  function OutAfter(l: Local, r: Local): Queue<Frame> {
    if r.e.outpipe.Some? then r.outq else l.outq
  }

  lemma TerminateKeepsStream(rd: Endpoint, l: Local, delay: bool, cs: seq<Command>)
    requires Stream(rd, l.e, l.outq, cs) && Agree(rd, l.e) && LastWord(l.e) && !l.e.freed
    ensures var r := Terminate(l, delay); Stream(rd, r.e, OutAfter(l, r), cs + News(l.e, r.e))
  {
    var r := Terminate(l, delay);
    if l.e.state == TermReqSent1 || l.e.state == TermReqSent2 || l.e.state == TermAckSent || (l.e.state == WaitingForDelimiter && !delay) {
      hide Stream;
      IdleKeepsStream(rd, l.e, l.outq, cs, rd, r.e, cs + News(l.e, r.e));
    } else {
      var s := StartTerminate(l, delay);
      CloseKeepsStream(rd, l.e, s, cs);
      hide Stream;
      IdleKeepsStream(rd, r.e, r.outq, cs + News(s.e, r.e), rd, r.e, cs + News(l.e, r.e));
    }
  }

  lemma WriterCallKeepsStream(rd: Endpoint, l: Local, op: Op, cs: seq<Command>)
    requires Plain(op) && Stream(rd, l.e, l.outq, cs) && Agree(rd, l.e) && LastWord(l.e) && !l.e.freed
    ensures var r := Call(l, op); Stream(rd, r.e, OutAfter(l, r), cs + News(l.e, r.e))
  {
    var r := Call(l, op);
    if op.DoFlush? {
      FlushKeepsStream(rd, l, cs);
    } else if op.DoWrite? {
      WriteKeepsStream(rd, l, op.frame, cs);
      assert cs + News(l.e, r.e) == cs;
    } else if op.DoTerminate? {
      TerminateKeepsStream(rd, l, op.delay, cs);
    } else if op.DoRollback? {
      assert cs + News(l.e, r.e) == cs;
    } else {
      CallLeavesWriter(l, op);
      IdleKeepsStream(rd, l.e, l.outq, cs, rd, r.e, cs + News(l.e, r.e));
    }
  }

  lemma {:induction false} ReadLeavesWriter(l: Local)
    requires Reading(l.e)
    ensures var r := ReadFrames(l).0;
            WriterIdle(l.e, r.e) && OutAfter(l, r) == l.outq && r.e.outpipe in {None, l.e.outpipe}
    decreases |l.inq.ready|
  {
    if l.inq.ready != [] && l.inq.ready[0].Frame? && l.inq.ready[0].credential {
      ReadLeavesWriter(Take(l));
    }
  }

  lemma CallLeavesWriter(l: Local, op: Op)
    requires Plain(op) && !op.DoFlush? && !op.DoWrite? && !op.DoTerminate? && !op.DoRollback?
    ensures WriterIdle(l.e, Call(l, op).e) && OutAfter(l, Call(l, op)) == l.outq
  {
    if op.DoRead? && CanRead(l.e) {
      ReadLeavesWriter(l);
    }
  }

  // ------------------------------------------------------------------------------------------
  // The stream in the pair
  // ------------------------------------------------------------------------------------------

  /** The direction towards `me`, while no hiccup of `me` is under way. */
  ghost predicate InStream(p: Pair) {
    && HiccupPipes(p.toPeer) == []
    && (!p.me.freed ==> p.me.inpipe in p.heap && Stream(p.me, p.peer, p.heap[p.me.inpipe], p.toMe))
  }

  lemma Apart(p: Pair)
    requires Safe(p) && !p.me.freed
    ensures !p.peer.freed ==> p.me.inpipe != p.peer.inpipe
    ensures p.me.outpipe.Some? ==> p.me.outpipe.value != p.me.inpipe
    ensures p.me.inpipe in p.heap
  {
    var a, b := multiset(Chain(p)), multiset(Chain(Flip(p)));
    assert p.me.inpipe in Chain(p);
    assert a[p.me.inpipe] >= 1;
    assert p.me.inpipe !in Chain(Flip(p)) by {
      assert (a + b)[p.me.inpipe] <= 1;
    }
    if !p.peer.freed {
      assert p.peer.inpipe in Chain(Flip(p));
    }
    if p.me.outpipe.Some? {
      assert p.me.outpipe.value in Chain(Flip(p));
    }
  }

  /** Without hiccups in flight, the writer's outpipe is the reader's inpipe. */
  lemma OnePipe(p: Pair)
    requires Safe(p) && HiccupPipes(p.toMe) == [] && p.me.outpipe.Some?
    ensures !p.peer.freed && p.me.outpipe.value == p.peer.inpipe
  {
  }

  lemma NoHiccupSent(p: Pair, f: Endpoint)
    requires HiccupPipes(p.toPeer) == [] && Moves(p.me, f)
    ensures HiccupPipes(p.toPeer + News(p.me, f)) == []
  {
    HiccupPipesAppend(p.toPeer, News(p.me, f));
    NoPipes(News(p.me, f));
  }

  /** Store touches the two ypipes of `me` and nothing else. */
  lemma StoreHeap(p: Pair, l: Local)
    requires !Dangling(p) && (p.me.outpipe.Some? ==> p.me.outpipe.value != p.me.inpipe)
    requires l.e.outpipe in {None, p.me.outpipe}
    ensures var q := Store(p, l);
            && q.me == l.e && q.peer == p.peer && q.toMe == p.toMe && q.toPeer == p.toPeer + News(p.me, l.e)
            && p.me.inpipe in q.heap && q.heap[p.me.inpipe] == l.inq
            && (forall a | a in p.heap && a != p.me.inpipe && Some(a) != p.me.outpipe :: a in q.heap && q.heap[a] == p.heap[a])
    ensures p.me.outpipe.Some? ==>
            p.me.outpipe.value in Store(p, l).heap && Store(p, l).heap[p.me.outpipe.value] == OutAfter(Load(p), l)
  {
  }

  lemma MovesPointers(e: Endpoint, f: Endpoint)
    requires Moves(e, f)
    ensures f.outpipe in {None, e.outpipe} && f.inpipe == e.inpipe && f.freed == e.freed
  {
  }

  /** What a step of a safe pair amounts to. */
  lemma CallStep(p: Pair, op: Op)
    requires Safe(p) && Enabled(p, op) && Plain(op)
    ensures !Dangling(p) && Step(p, op) == Next(Store(p, Call(Load(p), op)))
    ensures LastWord(p.me) && Agree(p.me, p.peer) && Moves(p.me, Call(Load(p), op).e)
  {
    SideKeepsSafe(p, op);
    NoDangling(p);
    SafeParts(p);
    hide Safe, Call, LastWord;
    assert p.me.outpipe == None <==> SentAck(p.me) by { SafeParts(p); OutOrAck(p.me); }
    CallMoves(Load(p), op);
  }

  lemma OutOrAck(e: Endpoint)
    requires LastWord(e)
    ensures e.outpipe == None <==> SentAck(e)
  {
  }

  lemma ReaderCallInStream(p: Pair, op: Op)
    requires Safe(p) && InStream(p) && Enabled(p, op) && Plain(op)
    ensures Step(p, op).Next? && InStream(Step(p, op).p)
  {
    CallStep(p, op);
    Apart(p);
    hide Stream, Safe, HiccupPipes, Call, Step;
    var l := Call(Load(p), op);
    MovesPointers(p.me, l.e);
    NoHiccupSent(p, l.e);
    hide Moves;
    ReaderCallKeepsStream(Load(p), op, p.peer, p.toMe);
    StoreHeap(p, l);
    hide Store, Load;
  }

  lemma ReactIsQuiet(l: Local, c: Command)
    requires Reacts(l.e, c)
    ensures var r := React(l, c);
            && ReaderIdle(l.e, r.e) && WriterIdle(l.e, r.e) && r.inq == l.inq && OutAfter(l, r) == l.outq
            && r.e.outpipe in {None, l.e.outpipe} && r.e.inpipe == l.e.inpipe && r.e.freed == l.e.freed
            && (News(l.e, r.e) == [] || News(l.e, r.e) == [PipeTermAck])
            && (c == ActivateRead ==> r.e.inActive || !Reading(r.e))
  {
  }

  lemma AckOnly(cs: seq<Command>, news: seq<Command>)
    requires HiccupPipes(cs) == [] && (news == [] || news == [PipeTermAck])
    ensures HiccupPipes(cs + news) == []
  {
    HiccupPipesAppend(cs, news);
    NoPipes(news);
  }

  lemma ReactStep(p: Pair)
    requires Safe(p) && p.toMe != [] && Reacts(p.me, p.toMe[0]) && !p.me.freed && !Dangling(p)
    requires p.me.outpipe.Some? ==> p.me.outpipe.value != p.me.inpipe
    ensures Process(p).Next? ==> Delivered(p, Process(p).p)
  {
    var l := React(Load(p), p.toMe[0]);
    ReactIsQuiet(Load(p), p.toMe[0]);
    hide Safe, React;
    StoreHeap(p.(toMe := p.toMe[1..]), l);
    hide Store;
    assert p.toPeer + [] == p.toPeer;
  }

  lemma HiccupStep(p: Pair)
    requires Safe(p) && p.toMe != [] && p.toMe[0].Hiccup? && !p.me.freed && !Dangling(p)
    requires p.me.outpipe.Some? ==> p.me.outpipe.value != p.me.inpipe
    ensures Process(p).Next? ==> Delivered(p, Process(p).p)
  {
    hide Safe;
  }

  /** What a delivery that is not the last one changes. */
  ghost predicate Delivered(p: Pair, q: Pair)
    requires p.toMe != [] && p.me.inpipe in p.heap
  {
    && q.peer == p.peer && q.toMe == p.toMe[1..] && q.me.inpipe == p.me.inpipe && !q.me.freed
    && p.me.inpipe in q.heap && q.heap[p.me.inpipe] == p.heap[p.me.inpipe]
    && ReaderIdle(p.me, q.me) && (!p.toMe[0].Hiccup? ==> WriterIdle(p.me, q.me))
    && (q.toPeer == p.toPeer || q.toPeer == p.toPeer + [PipeTermAck])
    && (p.toMe[0] == ActivateRead ==> q.me.inActive || !Reading(q.me))
    && forall a | a in p.heap && (Some(a) != p.me.outpipe || !p.toMe[0].Hiccup?) :: a in q.heap && q.heap[a] == p.heap[a]
  }

  lemma DeliveryStep(p: Pair)
    requires Safe(p) && p.toMe != [] && p.toMe[0] != PipeTermAck
    ensures Process(p).Next? && !p.me.freed && p.me.inpipe in p.heap && Agree(p.me, p.peer)
    ensures Delivered(p, Process(p).p)
  {
    DeliveryKeepsSafe(p);
    SafeParts(p);
    assert !p.me.freed;
    Apart(p);
    NoDangling(p);
    hide Process, Delivered, LastWord;
    if p.toMe[0].Hiccup? {
      HiccupStep(p);
    } else {
      if p.toMe[0] == PipeTerm {
        TermIsExpected(p);
      }
      ReactStep(p);
    }
  }

  lemma AckLocal(l: Local)
    requires AckExpected(l.e)
    ensures var r := ProcessPipeTermAck(l);
            r.e.freed && WriterIdle(l.e, r.e) && r.e.outpipe in {None, l.e.outpipe}
            && OutAfter(l, r) == l.outq && (News(l.e, r.e) == [] || News(l.e, r.e) == [PipeTermAck])
  {
  }

  /** The last delivery. */
  ghost predicate LastDelivered(p: Pair, q: Pair)
    requires p.toMe != []
  {
    && q.me.freed && q.peer == p.peer && q.toMe == p.toMe[1..] && WriterIdle(p.me, q.me)
    && (q.toPeer == p.toPeer || q.toPeer == p.toPeer + [PipeTermAck])
    && forall a | a in p.heap && a != p.me.inpipe :: a in q.heap && q.heap[a] == p.heap[a]
  }

  lemma AckEffect(p: Pair)
    requires p.toMe != [] && p.toMe[0] == PipeTermAck && AckExpected(p.me) && !p.me.freed && !Dangling(p)
    requires p.me.outpipe.Some? ==> p.me.outpipe.value != p.me.inpipe
    ensures Process(p).Next? ==> LastDelivered(p, Process(p).p)
  {
    var rest := p.(toMe := p.toMe[1..]);
    var l := ProcessPipeTermAck(Load(p));
    AckLocal(Load(p));
    hide ProcessPipeTermAck, React;
    StoreHeap(rest, l);
    hide Store;
    assert p.toPeer + [] == p.toPeer;
  }

  lemma AckStep(p: Pair)
    requires Safe(p) && p.toMe != [] && p.toMe[0] == PipeTermAck
    ensures Process(p).Next? && !p.me.freed && Agree(p.me, p.peer) && LastDelivered(p, Process(p).p)
  {
    DeliveryKeepsSafe(p);
    SafeParts(p);
    assert !p.me.freed;
    Apart(p);
    NoDangling(p);
    AckIsExpected(p);
    hide Safe, LastWord, Process, LastDelivered;
    AckEffect(p);
  }

  lemma ReaderDeliveryInStream(p: Pair)
    requires Safe(p) && InStream(p) && p.toMe != []
    ensures Process(p).Next? && InStream(Process(p).p)
  {
    assert p.toMe == [p.toMe[0]] + p.toMe[1..];
    AckOnly(p.toPeer, [PipeTermAck]);
    if p.toMe[0] == PipeTermAck {
      AckStep(p);
    } else {
      DeliveryStep(p);
      var q := Process(p).p;
      hide Stream, Safe, HiccupPipes, Process;
      IdleKeepsStream(p.me, p.peer, p.heap[p.me.inpipe], p.toMe, q.me, q.peer, q.toMe);
    }
  }

  /** The reader's steps, except hiccup. */
  lemma ReaderStep(p: Pair, op: Op)
    requires Safe(p) && InStream(p) && Enabled(p, op) && !op.DoHiccup?
    ensures Step(p, op).Next? && InStream(Step(p, op).p)
  {
    hide Safe, InStream, Process, Call;
    if op.Deliver? {
      ReaderDeliveryInStream(p);
    } else {
      ReaderCallInStream(p, op);
    }
  }

  lemma MutedCall(l: Local, op: Op)
    requires Plain(op) && !l.e.freed && LastWord(l.e) && l.e.outpipe == None
    ensures var r := Call(l, op); r.e.outpipe == None && WriterIdle(l.e, r.e) && News(l.e, r.e) == []
  {
  }

  lemma WriterCallInStream(p: Pair, op: Op)
    requires Safe(p) && InStream(Flip(p)) && Enabled(p, op) && Plain(op)
    ensures Step(p, op).Next? && InStream(Flip(Step(p, op).p))
  {
    CallStep(p, op);
    Apart(p);
    if p.me.outpipe.Some? {
      OnePipe(p);
    }
    hide Stream, Safe, HiccupPipes, Call, Step;
    var l, r := Load(p), Call(Load(p), op);
    MovesPointers(l.e, r.e);
    hide Moves;
    StoreHeap(p, r);
    if !p.peer.freed {
      if p.me.outpipe == None {
        MutedCall(l, op);
        assert p.toPeer + [] == p.toPeer;
        hide Store, LastWord;
        IdleKeepsStream(p.peer, p.me, p.heap[p.peer.inpipe], p.toPeer, p.peer, r.e, p.toPeer);
      } else {
        WriterCallKeepsStream(p.peer, l, op, p.toPeer);
        hide Store, LastWord;
      }
    }
  }

  lemma WriterDeliveryInStream(p: Pair)
    requires Safe(p) && InStream(Flip(p)) && p.toMe != []
    ensures Process(p).Next? && InStream(Flip(Process(p).p))
  {
    assert Shape(p.toMe) by { SafeParts(p); }
    PopHead(p.toMe);
    if p.toMe[0] == PipeTermAck {
      AckStep(p);
    } else {
      DeliveryStep(p);
    }
    Apart(p);
    var q := Process(p).p;
    hide Stream, Safe, HiccupPipes, Process, Shape;
    if !p.peer.freed {
      assert q.heap[p.peer.inpipe] == p.heap[p.peer.inpipe] && WriterIdle(p.me, q.me);
      hide Delivered, LastDelivered;
      IdleKeepsStream(p.peer, p.me, p.heap[p.peer.inpipe], p.toPeer, q.peer, q.me, q.toPeer);
    }
  }

  lemma WriterHiccupInStream(p: Pair, address: nat)
    requires Safe(p) && InStream(Flip(p)) && Enabled(p, DoHiccup(address))
    ensures Step(p, DoHiccup(address)).Next? && InStream(Flip(Step(p, DoHiccup(address)).p))
  {
    SideKeepsSafe(p, DoHiccup(address));
    NoDangling(p);
    hide Stream, Safe, HiccupPipes;
    if p.me.state == Active {
      var q := Step(p, DoHiccup(address)).p;
      assert q.toPeer == p.toPeer + [Command.Hiccup(address)] && WriterIdle(p.me, q.me) && q.toMe == p.toMe;
      if !p.peer.freed {
        assert q.heap[p.peer.inpipe] == p.heap[p.peer.inpipe];
        hide Step;
        IdleKeepsStream(p.peer, p.me, p.heap[p.peer.inpipe], p.toPeer, q.peer, q.me, q.toPeer);
      }
    }
  }

  /** The writer's steps. */
  lemma WriterStep(p: Pair, op: Op)
    requires Safe(p) && InStream(Flip(p)) && Enabled(p, op)
    ensures Step(p, op).Next? && InStream(Flip(Step(p, op).p))
  {
    hide Safe, InStream, Process, Call;
    if op.Deliver? {
      WriterDeliveryInStream(p);
    } else if op.DoHiccup? {
      WriterHiccupInStream(p, op.address);
    } else {
      WriterCallInStream(p, op);
    }
  }
}
