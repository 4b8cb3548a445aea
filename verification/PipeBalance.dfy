/** The writer's message count in every run, hiccups included.

    process_hiccup takes the frames of the old outpipe off the count again.  It takes off more than write
    put on: identities and delimiters end a message, but write does not count them. */
module PipeBalance {
  import opened Options
  import opened Ypipe
  import opened PipeStep
  import opened PipePair
  import opened PipeStream
  import opened PipeHiccup
  import opened PipeLinger
  import opened PipeTermination
  import opened PipeFlow
  import opened PipeAnswers

  /** Frames that end a message and were not counted by write. */
  function Uncounted(fs: seq<Frame>): nat {
    if fs == [] then 0
    else Uncounted(fs[..|fs| - 1]) + if fs[|fs| - 1] == Delimiter || (!fs[|fs| - 1].more && fs[|fs| - 1].identity) then 1 else 0
  }

  /** What draining counts. */
  lemma {:induction false} EndsAreCountedOrNot(fs: seq<Frame>)
    ensures CountEnds(fs) == Count(fs) + Uncounted(fs)
  {
    if fs != [] {
      EndsAreCountedOrNot(fs[..|fs| - 1]);
    }
  }

  // ------------------------------------------------------------------------------------------
  // The ypipes between the writer `peer` and the reader `me`
  // ------------------------------------------------------------------------------------------

  predicate Untouched(q: Queue<Frame>) {
    q.ready == [] && q.done == [] && q.part == []
  }

  /** Whatever was announced by a hiccup is empty, and what can be taken back is unfinished. */
  ghost predicate Tidy(p: Pair) {
    && (forall a | a in HiccupPipes(p.toPeer) :: a in p.heap && Untouched(p.heap[a]))
    && (p.peer.outpipe.Some? && p.peer.outpipe.value in p.heap ==> forall f | f in p.heap[p.peer.outpipe.value].part :: Partial(f))
  }

  /** The counted messages in the outpipe of `peer`: written, and neither read nor dropped. */
  function Held(p: Pair): nat {
    if p.peer.outpipe.Some? && p.peer.outpipe.value in p.heap then
      Count(p.heap[p.peer.outpipe.value].ready + p.heap[p.peer.outpipe.value].done)
    else 0
  }

  /** What the writer counts too much. */
  function Surplus(p: Pair): int {
    p.peer.msgsWritten - p.me.msgsRead - Held(p)
  }

  /** The part of the pair that the balance depends on does not change. */
  ghost predicate SameDirection(p: Pair, q: Pair) {
    && q.peer.outpipe == p.peer.outpipe && HiccupPipes(q.toPeer) == HiccupPipes(p.toPeer)
    && (forall a | a in HiccupPipes(p.toPeer) && a in p.heap :: a in q.heap && q.heap[a] == p.heap[a])
    && (p.peer.outpipe.Some? && p.peer.outpipe.value in p.heap ==>
          p.peer.outpipe.value in q.heap && q.heap[p.peer.outpipe.value] == p.heap[p.peer.outpipe.value])
    && q.peer.msgsWritten == p.peer.msgsWritten && q.me.msgsRead == p.me.msgsRead
  }

  lemma SameBalance(p: Pair, q: Pair)
    requires SameDirection(p, q) && Tidy(p)
    requires p.peer.outpipe.Some? ==> p.peer.outpipe.value in p.heap
    ensures Tidy(q) && Surplus(q) == Surplus(p)
  {
  }

  lemma CountParts(q: Queue<Frame>)
    ensures Count(q.ready + q.done) == Count(q.ready) + Count(q.done)
  {
    CountAppend(q.ready, q.done);
  }

  /** The ypipes of one direction are not those of the other. */
  lemma Separate(p: Pair, a: nat, b: nat)
    requires Safe(p) && a in Chain(p) && b in Chain(Flip(p))
    ensures a != b && a in p.heap
  {
    assert multiset(Chain(p))[a] >= 1 && multiset(Chain(Flip(p)))[b] >= 1;
    assert (multiset(Chain(p)) + multiset(Chain(Flip(p))))[a] == multiset(p.heap.Keys)[a];
  }

  lemma ChainParts(p: Pair)
    requires p.peer.outpipe.Some?
    ensures p.peer.outpipe.value in Chain(p)
    ensures forall a | a in HiccupPipes(p.toPeer) :: a in Chain(p)
  {
  }

  /** The ypipes towards `me` are there, and none of them is a ypipe of the other direction. */
  lemma ChainIsApart(p: Pair, a: nat)
    requires Safe(p) && a in Chain(p)
    ensures a in p.heap && Some(a) != p.me.outpipe && (!p.peer.freed ==> a != p.peer.inpipe)
  {
    InHeap(p, a);
    if p.me.outpipe.Some? {
      assert p.me.outpipe.value in Chain(Flip(p));
      Separate(p, a, p.me.outpipe.value);
    }
    if !p.peer.freed {
      FlipSafe(p);
      LastOfChain(Flip(p));
      Separate(p, a, p.peer.inpipe);
    }
  }

  lemma ChainEnds(p: Pair)
    requires Safe(p) && p.peer.outpipe.Some?
    ensures !p.me.freed && Chain(p) == [p.peer.outpipe.value] + HiccupPipes(p.toPeer)
    ensures Chain(p)[|Chain(p)| - 1] == p.me.inpipe
    ensures forall i | 0 <= i < |HiccupPipes(p.toPeer)| :: HiccupPipes(p.toPeer)[i] != p.peer.outpipe.value
  {
    assert Linked(p);
    FlipSafe(p);
    assert Flip(Flip(p)) == p;
    hide Safe, Linked;
    forall i | 0 <= i < |HiccupPipes(p.toPeer)|
      ensures HiccupPipes(p.toPeer)[i] != p.peer.outpipe.value
    {
      OncePerChain(Flip(p), 0, i + 1);
      assert Chain(p)[i + 1] == HiccupPipes(p.toPeer)[i];
    }
  }

  /** While the writer has an outpipe, its ypipes are there, the last one is the reader's, and the reader's outpipe is
      none of them. */
  lemma Direction(p: Pair)
    requires Safe(p) && p.peer.outpipe.Some?
    ensures !p.me.freed && p.peer.outpipe.value in p.heap
    ensures forall a | a in HiccupPipes(p.toPeer) :: a in p.heap && Some(a) != p.me.outpipe && a != p.peer.outpipe.value
    ensures p.peer.outpipe != p.me.outpipe
    ensures !p.peer.freed ==> p.peer.inpipe != p.peer.outpipe.value && p.peer.inpipe !in HiccupPipes(p.toPeer)
    ensures if HiccupPipes(p.toPeer) == [] then p.peer.outpipe.value == p.me.inpipe
            else p.peer.outpipe.value != p.me.inpipe && p.me.inpipe == HiccupPipes(p.toPeer)[|HiccupPipes(p.toPeer)| - 1]
  {
    hide *;
    var hs := HiccupPipes(p.toPeer);
    ChainEnds(p);
    assert p.peer.outpipe.value in Chain(p);
    ChainIsApart(p, p.peer.outpipe.value);
    forall a | a in hs
      ensures a in p.heap && Some(a) != p.me.outpipe && a != p.peer.outpipe.value && (!p.peer.freed ==> a != p.peer.inpipe)
    {
      assert a in Chain(p);
      ChainIsApart(p, a);
    }
  }

  lemma InHeap(p: Pair, a: nat)
    requires Safe(p) && a in Chain(p)
    ensures a in p.heap
  {
    assert multiset(Chain(p))[a] >= 1;
    assert (multiset(Chain(p)) + multiset(Chain(Flip(p))))[a] == multiset(p.heap.Keys)[a];
  }

  lemma LastOfChain(p: Pair)
    requires Safe(p) && !p.me.freed
    ensures p.me.inpipe in Chain(p)
  {
  }

  // ------------------------------------------------------------------------------------------
  // Steps of the reader
  // ------------------------------------------------------------------------------------------

  lemma NothingPendingAcks(p: Pair)
    requires Safe(p) && p.toMe != [] && p.peer.outpipe.Some?
    ensures p.toMe[0] != PipeTermAck
  {
    SafeParts(p);
  }

  lemma ReaderDeliveryBalances(p: Pair)
    requires Safe(p) && Tidy(p) && p.toMe != [] && p.peer.outpipe.Some?
    ensures Process(p).Next? && Tidy(Process(p).p) && Surplus(Process(p).p) == Surplus(p)
    ensures Process(p).p.me.got == p.me.got
  {
    NothingPendingAcks(p);
    Direction(p);
    DeliveryStep(p);
    HiccupPipesAppend(p.toPeer, [PipeTermAck]);
    NoPipes([PipeTermAck]);
    var q := Process(p).p;
    hide Safe, Process, Tidy, Surplus, HiccupPipes;
    ProcessConsumesNothing(p);
    assert SameDirection(p, q) by { hide ReaderIdle, WriterIdle; }
    SameBalance(p, q);
  }

  /** One more hiccup, announcing an empty ypipe. */
  lemma OneMoreHiccup(p: Pair, q: Pair, address: nat)
    requires Tidy(p) && q.peer == p.peer && HiccupPipes(q.toPeer) == HiccupPipes(p.toPeer) + [address]
    requires address !in p.heap && q.heap == p.heap[address := Fresh()] && q.me.msgsRead == p.me.msgsRead
    requires p.peer.outpipe.Some? && p.peer.outpipe.value in p.heap
    ensures Tidy(q) && Surplus(q) == Surplus(p)
  {
    hide HiccupPipes, Count;
  }

  lemma ReaderHiccupBalances(p: Pair, address: nat)
    requires Safe(p) && Tidy(p) && Enabled(p, DoHiccup(address)) && p.peer.outpipe.Some?
    ensures Step(p, DoHiccup(address)).Next?
    ensures var q := Step(p, DoHiccup(address)).p;
            Tidy(q) && Surplus(q) == Surplus(p) && (p.me.state != Active ==> q.me.got == p.me.got)
  {
    assert address !in p.heap;
    HiccupPipesAppend(p.toPeer, [Command.Hiccup(address)]);
    assert HiccupPipes([Command.Hiccup(address)]) == [address];
    hide *;
    HiccupEffect(p, address);
    Direction(p);
    if p.me.state == Active {
      OneMoreHiccup(p, Step(p, DoHiccup(address)).p, address);
    }
  }

  /** A call of the reader while its ypipe is not the one the writer writes to. */
  lemma PendingCallBalances(p: Pair, op: Op)
    requires Safe(p) && Flows(p) && Tidy(p) && Enabled(p, op) && Plain(op) && p.peer.outpipe.Some? && HiccupPipes(p.toPeer) != []
    ensures Step(p, op).Next?
    ensures var q := Step(p, op).p; Tidy(q) && Surplus(q) == Surplus(p) && q.me.got == p.me.got
  {
    CallStep(p, op);
    Direction(p);
    Apart(p);
    var l := Call(Load(p), op);
    MovesPointers(p.me, l.e);
    HiccupPipesAppend(p.toPeer, News(p.me, l.e));
    NewsHaveNoPipes(p.me, l.e);
    NoPipes(News(p.me, l.e));
    BareCall(Load(p), op, p.toMe);
    CallConsumes(Load(p), op);
    LoadIs(p);
    StoreHeap(p, l);
    hide Safe, Moves, HiccupPipes, Call, Step, Stream, LastWord, Store, Load;
    assert l.e.msgsRead == p.me.msgsRead;
    hide Consumed;
    PendingStays(p, Step(p, op).p);
  }

  lemma NewsHaveNoPipes(e: Endpoint, f: Endpoint)
    requires Moves(e, f)
    ensures forall c | c in News(e, f) :: !c.Hiccup?
  {
  }

  /** All ypipes of the direction but the reader's stay as they are, and the reader's stays empty. */
  lemma PendingStays(p: Pair, q: Pair)
    requires Tidy(p) && q.peer == p.peer && HiccupPipes(q.toPeer) == HiccupPipes(p.toPeer)
    requires p.peer.outpipe.Some? && p.peer.outpipe.value in p.heap && p.peer.outpipe.value != p.me.inpipe && p.peer.outpipe != p.me.outpipe
    requires forall a | a in HiccupPipes(p.toPeer) :: a in p.heap && Some(a) != p.me.outpipe
    requires p.me.inpipe in q.heap && Untouched(q.heap[p.me.inpipe])
    requires forall a | a in p.heap && a != p.me.inpipe && Some(a) != p.me.outpipe :: a in q.heap && q.heap[a] == p.heap[a]
    requires q.me.msgsRead == p.me.msgsRead
    ensures Tidy(q) && Surplus(q) == Surplus(p)
  {
  }

  /** Counting on both sides of a reader that has its writer's ypipe. */
  lemma StreamBalances(p: Pair)
    requires Safe(p) && Flows(p) && p.peer.outpipe.Some? && HiccupPipes(p.toPeer) == []
    ensures if Lost(p.peer) then Held(p) == 0 && p.me.got == [] else Count(p.me.got) + Held(p) == Count(p.peer.written)
  {
    Direction(p);
    var q := p.heap[p.me.inpipe];
    CountParts(q);
    if !Lost(p.peer) {
      ReadAtMostWritten(p.me, p.peer, q, p.toMe);
    }
  }

  lemma PartsStay(p: Pair, q: Pair)
    requires Tidy(p) && q.peer == p.peer && HiccupPipes(q.toPeer) == HiccupPipes(p.toPeer) == []
    requires p.peer.outpipe.Some? && p.peer.outpipe.value == p.me.inpipe == q.me.inpipe && p.me.inpipe in p.heap && p.me.inpipe in q.heap
    requires q.heap[p.me.inpipe].part == p.heap[p.me.inpipe].part
    ensures Tidy(q)
  {
  }

  lemma {:induction false} ReadLeavesPart(l: Local)
    requires Reading(l.e)
    ensures ReadFrames(l).0.inq.part == l.inq.part
    decreases |l.inq.ready|
  {
    if l.inq.ready != [] && IsCredential(l.inq.ready[0]) {
      ReadLeavesPart(Take(l));
    }
  }

  lemma CallLeavesPart(l: Local, op: Op)
    requires Plain(op)
    ensures Call(l, op).inq.part == l.inq.part
  {
    if op.DoRead? && CanRead(l.e) {
      ReadLeavesPart(l);
    } else if op.DoCheckRead? && CanRead(l.e) {
    } else {
      CallLeavesReader(l, op);
    }
  }

  lemma OpenCallBalances(p: Pair, op: Op)
    requires Safe(p) && Flows(p) && Tidy(p) && Enabled(p, op) && Plain(op) && p.peer.outpipe.Some? && HiccupPipes(p.toPeer) == []
    ensures Step(p, op).Next?
    ensures var q := Step(p, op).p; Tidy(q) && Surplus(q) == Surplus(p) + Skipped(q.me.got) - Skipped(p.me.got)
  {
    CallStep(p, op);
    SideKeepsSafe(p, op);
    ReaderFlows(p, op);
    Direction(p);
    Apart(p);
    var l := Call(Load(p), op);
    var q := Step(p, op).p;
    MovesPointers(p.me, l.e);
    NoHiccupSent(p, l.e);
    CallConsumes(Load(p), op);
    CallLeavesPart(Load(p), op);
    LoadIs(p);
    StoreHeap(p, l);
    assert Load(p).inq == p.heap[p.me.inpipe];
    hide Safe, Moves, HiccupPipes, Call, Step, Stream, LastWord, Store, Load, Flows, Tidy;
    StreamBalances(p);
    StreamBalances(q);
    PartsStay(p, q);
  }

  /** A step of the reader changes the balance by the credentials that it skips. */
  lemma ReaderBalances(p: Pair, op: Op)
    requires Safe(p) && Flows(p) && Tidy(p) && Enabled(p, op) && p.peer.outpipe.Some?
    ensures Step(p, op).Next?
    ensures var q := Step(p, op).p;
            && Tidy(q)
            && Surplus(q) == Surplus(p) + if op.DoHiccup? && p.me.state == Active then 0 else Skipped(q.me.got) - Skipped(p.me.got)
  {
    hide Safe, Flows, Tidy, Surplus, Step, Process;
    if op.Deliver? {
      ProcessIsStep(p);
      ReaderDeliveryBalances(p);
    } else if op.DoHiccup? {
      ReaderHiccupBalances(p, op.address);
    } else if HiccupPipes(p.toPeer) != [] {
      PendingCallBalances(p, op);
    } else {
      OpenCallBalances(p, op);
    }
  }

  // ------------------------------------------------------------------------------------------
  // Steps of the writer
  // ------------------------------------------------------------------------------------------

  /** What a call does to the count and to the queue that is counted. */
  predicate CountsAlike(l: Local, r: Local) {
    && r.e.msgsWritten - Count(r.outq.ready + r.outq.done) == l.e.msgsWritten - Count(l.outq.ready + l.outq.done)
    && (forall f | f in r.outq.part :: Partial(f))
  }

  lemma MoreDone(q: Queue<Frame>, part: seq<Frame>, f: Frame)
    requires forall g | g in part :: Partial(g)
    ensures Count(q.ready + (q.done + part + [f])) == Count(q.ready + q.done) + if Counted(f) then 1 else 0
  {
    CountWritten(q.ready + q.done, part, f);
    assert q.ready + (q.done + part + [f]) == q.ready + q.done + part + [f];
  }

  lemma WriteCounts(l: Local, f: Frame)
    requires f.Frame? && forall g | g in l.outq.part :: Partial(g)
    ensures CountsAlike(l, Write(l, f).0)
  {
    MoreDone(l.outq, l.outq.part, f);
    hide Count, CheckHwm;
    var w := Write(l, f);
    if !w.1 {
      assert w.0.outq == l.outq && w.0.e.msgsWritten == l.e.msgsWritten;
    } else if f.more {
      assert w.0.outq == l.outq.(part := l.outq.part + [f]) && w.0.e.msgsWritten == l.e.msgsWritten;
    } else {
      assert w.0.outq == l.outq.(done := l.outq.done + l.outq.part + [f], part := []);
      assert w.0.e.msgsWritten == l.e.msgsWritten + if Counted(f) then 1 else 0;
    }
    hide Write;
  }

  lemma FlushCounts(l: Local)
    requires forall g | g in l.outq.part :: Partial(g)
    ensures CountsAlike(l, Flush(l))
  {
    assert l.outq.ready + l.outq.done + [] == l.outq.ready + l.outq.done;
    hide Count;
  }

  lemma CloseOutCounts(l: Local)
    requires forall g | g in l.outq.part :: Partial(g)
    ensures CountsAlike(l, CloseOut(l))
  {
    var q, r := l.outq, CloseOut(l);
    var done := q.done + [] + [Delimiter];
    assert r.e.msgsWritten == l.e.msgsWritten;
    assert r.outq == if l.e.outpipe == None then q
                     else if l.e.state == TermAckSent then Queue(q.ready, done, [], q.asleep)
                     else Queue(q.ready + done, [], [], false);
    hide CloseOut;
    MoreDone(q, [], Delimiter);
    assert q.ready + done + [] == q.ready + done;
    hide Count;
  }

  lemma TerminateCounts(l: Local, delay: bool)
    requires (forall g | g in l.outq.part :: Partial(g)) && Terminate(l, delay).e.outpipe.Some?
    ensures CountsAlike(l, Terminate(l, delay))
  {
    var s := StartTerminate(l, delay);
    if l.e.state == TermReqSent1 || l.e.state == TermReqSent2 || l.e.state == TermAckSent {
    } else {
      assert CloseOut(s).e.outpipe == s.e.outpipe;
      assert s.outq == l.outq && s.e.msgsWritten == l.e.msgsWritten;
      hide StartTerminate;
      CloseOutCounts(s);
      hide CloseOut;
    }
    hide Count;
  }

  lemma CallCounts(l: Local, op: Op)
    requires Plain(op) && (forall g | g in l.outq.part :: Partial(g)) && Call(l, op).e.outpipe.Some?
    ensures CountsAlike(l, Call(l, op))
  {
    hide ReadFrames, Terminate, Write, Flush, Count;
    if op.DoTerminate? {
      TerminateCounts(l, op.delay);
    } else if op.DoWrite? {
      WriteCounts(l, op.frame);
    } else if op.DoFlush? {
      FlushCounts(l);
    } else if op.DoRead? && CanRead(l.e) {
      ReadLeavesWriter(l);
      ReadLeavesOutq(l);
    }
  }

  lemma {:induction false} ReadLeavesOutq(l: Local)
    requires Reading(l.e)
    ensures ReadFrames(l).0.e.outpipe.Some? ==> ReadFrames(l).0.outq == l.outq
    decreases |l.inq.ready|
  {
    if l.inq.ready != [] && IsCredential(l.inq.ready[0]) {
      ReadLeavesOutq(Take(l));
    }
  }

  /** The writer's outpipe changed and nothing else did. */
  lemma WrittenBalances(p: Pair, q: Pair, l: Local, r: Local)
    requires Tidy(p) && q.me == p.me && q.toPeer == p.toPeer && q.peer.outpipe == p.peer.outpipe && p.peer.outpipe.Some?
    requires p.peer.outpipe.value in p.heap && p.peer.outpipe.value in q.heap
    requires l.outq == p.heap[p.peer.outpipe.value] && r.outq == q.heap[p.peer.outpipe.value] && l.e == p.peer && r.e == q.peer
    requires CountsAlike(l, r)
    requires forall a | a in HiccupPipes(p.toPeer) && a in p.heap :: a in q.heap && q.heap[a] == p.heap[a]
    ensures Tidy(q) && Surplus(q) == Surplus(p)
  {
  }

  lemma TidyPart(p: Pair)
    requires Tidy(p) && p.peer.outpipe.Some? && p.peer.outpipe.value in p.heap
    ensures forall f | f in p.heap[p.peer.outpipe.value].part :: Partial(f)
  {
  }

  lemma WriterCallBalances(p: Pair, op: Op)
    requires Safe(p) && Tidy(Flip(p)) && Enabled(p, op) && Plain(op)
    ensures Step(p, op).Next?
    ensures var q := Step(p, op).p; q.me.outpipe.Some? ==> Tidy(Flip(q)) && Surplus(Flip(q)) == Surplus(Flip(p))
  {
    CallStep(p, op);
    var l := Call(Load(p), op);
    var q := Step(p, op).p;
    MovesPointers(p.me, l.e);
    if l.e.outpipe.Some? {
      FlipSafe(p);
      Direction(Flip(p));
      Apart(p);
      LoadIs(p);
      StoreHeap(p, l);
      hide Safe, Moves, HiccupPipes, Step, Call, Stream, LastWord, Tidy;
      assert Load(p).outq == p.heap[p.me.outpipe.value];
      TidyPart(Flip(p));
      CallCounts(Load(p), op);
      assert q.toMe == p.toMe && q.peer == p.peer;
      hide Load, Store;
      WrittenBalances(Flip(p), Flip(q), Load(p), l);
    } else {
      LoadIs(p);
      StoreMe(p, l);
      hide *;
    }
  }

  lemma HiccupCount(p: Pair)
    requires p.toMe != [] && p.toMe[0].Hiccup? && !p.me.freed && !Dangling(p)
    requires p.me.outpipe.Some? && p.toMe[0].pipe in p.heap
    ensures Process(p).Next? && Process(p).p.me.outActive
    ensures Process(p).p.me.msgsWritten == p.me.msgsWritten - CountEnds(p.heap[p.me.outpipe.value].Flush().ready)
  {
    hide CountEnds;
  }

  /** The frames that a hiccup drops. */
  function Dropped(p: Pair): seq<Frame> {
    if HiccupNext(p) && p.me.outpipe.Some? && p.me.outpipe.value in p.heap then
      p.heap[p.me.outpipe.value].ready + p.heap[p.me.outpipe.value].done
    else []
  }

  lemma FlushedReady(q: Queue<Frame>)
    ensures q.Flush().ready == q.ready + q.done
  {
    assert q.ready + [] == q.ready;
  }

  lemma TakenBalances(p: Pair)
    requires Safe(p) && Tidy(Flip(p)) && HiccupNext(p)
    ensures Process(p).Next?
    ensures var q := Process(p).p;
            q.me.outpipe.Some? && Tidy(Flip(q)) && Surplus(Flip(q)) == Surplus(Flip(p)) - Uncounted(Dropped(p))
  {
    HiccupTaken(p);
    NoDangling(p);
    HiccupIsExpected(p);
    FlipSafe(p);
    Direction(Flip(p));
    HiccupCount(p);
    FlushedReady(p.heap[p.me.outpipe.value]);
    EndsAreCountedOrNot(Dropped(p));
    var q := Process(p).p;
    hide Safe, Process, CountEnds, Uncounted, HiccupPipes;
    assert p.toMe[0].pipe in HiccupPipes(p.toMe);
    assert forall a | a in HiccupPipes(q.toMe) :: a in HiccupPipes(p.toMe);
  }

  lemma AckDropsOut(p: Pair)
    requires Safe(p) && p.toMe != [] && p.toMe[0] == PipeTermAck
    ensures Process(p).Next? && Process(p).p.me.outpipe == None
  {
    DeliveryKeepsSafe(p);
    AckStep(p);
    SafeParts(Process(p).p);
    OutOrAck(Process(p).p.me);
    hide Safe, Process, LastWord;
  }

  lemma PopNoHiccup(cs: seq<Command>)
    requires cs != [] && !cs[0].Hiccup?
    ensures HiccupPipes(cs[1..]) == HiccupPipes(cs)
  {
  }

  lemma OtherDeliveryBalances(p: Pair)
    requires Safe(p) && Tidy(Flip(p)) && p.toMe != [] && !p.toMe[0].Hiccup? && p.toMe[0] != PipeTermAck && p.me.outpipe.Some?
    ensures Process(p).Next?
    ensures var q := Process(p).p; q.me.outpipe == p.me.outpipe ==> Tidy(Flip(q)) && Surplus(Flip(q)) == Surplus(Flip(p))
  {
    FlipSafe(p);
    Direction(Flip(p));
    DeliveryStep(p);
    hide Safe, Tidy, Surplus, HiccupPipes, ReaderIdle, Process;
    PopNoHiccup(p.toMe);
    ProcessConsumesNothing(p);
    var q := Process(p).p;
    if q.me.outpipe == p.me.outpipe {
      assert SameDirection(Flip(p), Flip(q));
      SameBalance(Flip(p), Flip(q));
    }
  }

  lemma WriterDeliveryBalances(p: Pair)
    requires Safe(p) && Tidy(Flip(p)) && p.toMe != [] && !HiccupNext(p)
    ensures Process(p).Next?
    ensures var q := Process(p).p; q.me.outpipe.Some? ==> Tidy(Flip(q)) && Surplus(Flip(q)) == Surplus(Flip(p))
  {
    DeliveryKeepsSafe(p);
    hide Safe, Tidy, Surplus, Process;
    if p.toMe[0] == PipeTermAck {
      AckDropsOut(p);
    } else if Process(p).p.me.outpipe.Some? {
      OutpipeWasThere(p);
      OtherDeliveryBalances(p);
    }
  }

  /** No delivery but a hiccup gives an endpoint an outpipe. */
  lemma OutpipeWasThere(p: Pair)
    requires Safe(p) && p.toMe != [] && !HiccupNext(p) && Process(p).Next? && Process(p).p.me.outpipe.Some?
    ensures p.me.outpipe == Process(p).p.me.outpipe
  {
    DeliveryKeeps(p);
  }

  lemma OtherHiccup(p: Pair, q: Pair, address: nat)
    requires q.peer.outpipe == p.peer.outpipe && q.toPeer == p.toPeer && q.me == p.me && q.peer.msgsWritten == p.peer.msgsWritten
    requires address !in p.heap && q.heap == p.heap[address := Fresh()]
    ensures SameDirection(p, q)
  {
    hide HiccupPipes;
  }

  lemma WriterHiccupBalances(p: Pair, address: nat)
    requires Safe(p) && Tidy(Flip(p)) && Enabled(p, DoHiccup(address)) && p.me.outpipe.Some?
    ensures Step(p, DoHiccup(address)).Next?
    ensures var q := Step(p, DoHiccup(address)).p; Tidy(Flip(q)) && Surplus(Flip(q)) == Surplus(Flip(p))
  {
    assert address !in p.heap;
    FlipSafe(p);
    hide Safe, Step, HiccupPipes, Tidy, Surplus, Enabled, SameDirection;
    HiccupEffect(p, address);
    Direction(Flip(p));
    if p.me.state == Active {
      var q := Step(p, DoHiccup(address)).p;
      OtherHiccup(Flip(p), Flip(q), address);
      SameBalance(Flip(p), Flip(q));
    }
  }

  /** A step of the writer changes the balance only if it takes a hiccup: by the frames that process_hiccup counts and write
      did not. */
  lemma WriterBalances(p: Pair, op: Op)
    requires Safe(p) && Tidy(Flip(p)) && Enabled(p, op)
    ensures Step(p, op).Next?
    ensures var q := Step(p, op).p;
            q.me.outpipe.Some? ==>
              Tidy(Flip(q)) && Surplus(Flip(q)) == Surplus(Flip(p)) - if op.Deliver? then Uncounted(Dropped(p)) else 0
  {
    if op.Deliver? {
      ProcessIsStep(p);
      hide Safe, Tidy, Surplus, Step, Process;
      if HiccupNext(p) {
        TakenBalances(p);
      } else {
        WriterDeliveryBalances(p);
      }
    } else if op.DoHiccup? {
      HiccupEffect(p, op.address);
      hide Safe, Tidy, Surplus, Step;
      if p.me.outpipe.Some? {
        WriterHiccupBalances(p, op.address);
      }
    } else {
      hide Safe, Tidy, Surplus, Step;
      WriterCallBalances(p, op);
    }
  }

  // ------------------------------------------------------------------------------------------
  // Runs
  // ------------------------------------------------------------------------------------------

  /** The credential frames that the reads of `me` skipped in the first `n` steps. */
  function SkippedSoFar(ps: seq<Pair>, ls: seq<Label>, n: nat): int
    requires n <= |ls| && |ps| == |ls| + 1
  {
    if n == 0 then 0
    else if !ls[n - 1].mine || (ls[n - 1].op.DoHiccup? && ps[n - 1].me.state == Active) then SkippedSoFar(ps, ls, n - 1)
    else SkippedSoFar(ps, ls, n - 1) + Skipped(ps[n].me.got) - Skipped(ps[n - 1].me.got)
  }

  /** The identities and delimiters that hiccups of `me` dropped in the first `n` steps. */
  function MiscountedSoFar(ps: seq<Pair>, ls: seq<Label>, n: nat): nat
    requires n <= |ls| && |ps| == |ls| + 1
  {
    if n == 0 then 0
    else MiscountedSoFar(ps, ls, n - 1) + if !ls[n - 1].mine && ls[n - 1].op.Deliver? then Uncounted(Dropped(Flip(ps[n - 1]))) else 0
  }

  ghost predicate Balanced(ps: seq<Pair>, ls: seq<Label>, n: nat)
    requires n <= |ls| && |ps| == |ls| + 1
  {
    ps[n].peer.outpipe.Some? ==>
      Tidy(ps[n]) && Surplus(ps[n]) == SkippedSoFar(ps, ls, n) - MiscountedSoFar(ps, ls, n)
  }

  lemma StartBalanced(ps: seq<Pair>, ls: seq<Label>)
    requires Run(ps, ls) && |ps| == |ls| + 1
    ensures Balanced(ps, ls, 0)
  {
  }

  lemma SumsNext(ps: seq<Pair>, ls: seq<Label>, n: nat)
    requires n < |ls| && |ps| == |ls| + 1
    ensures SkippedSoFar(ps, ls, n + 1) == SkippedSoFar(ps, ls, n) +
            if !ls[n].mine || (ls[n].op.DoHiccup? && ps[n].me.state == Active) then 0 else Skipped(ps[n + 1].me.got) - Skipped(ps[n].me.got)
    ensures MiscountedSoFar(ps, ls, n + 1) == MiscountedSoFar(ps, ls, n) +
            if !ls[n].mine && ls[n].op.Deliver? then Uncounted(Dropped(Flip(ps[n]))) else 0
  {
  }

  /** An outpipe that is there after a step of its owner was there before. */
  lemma OutpipeStays(p: Pair, op: Op)
    requires Safe(p) && Enabled(p, op)
    ensures Step(p, op).Next? && (Step(p, op).p.me.outpipe.Some? ==> p.me.outpipe.Some?)
  {
    hide Safe, Step, Process;
    if op.Deliver? {
      ProcessIsStep(p);
      if HiccupNext(p) {
        HiccupTaken(p);
      } else {
        DeliveryKeeps(p);
      }
    } else if op.DoHiccup? {
      HiccupEffect(p, op.address);
    } else {
      CallStep(p, op);
      MovesPointers(p.me, Call(Load(p), op).e);
      StoreMe(p, Call(Load(p), op));
      hide Moves, Call, Store, Load;
    }
  }

  lemma NextBalancedByReader(ps: seq<Pair>, ls: seq<Label>, n: nat)
    requires Run(ps, ls) && n < |ls| && |ps| == |ls| + 1 && Balanced(ps, ls, n) && ls[n].mine
    ensures Balanced(ps, ls, n + 1)
  {
    RunFlows(ps, ls, n);
    RunSide(ps, ls, n);
    RunOther(ps, ls, n, false);
    SumsNext(ps, ls, n);
    hide Run, Safe, Flows, Tidy, Surplus, Step, Enabled, SkippedSoFar, MiscountedSoFar, Dropped, Uncounted, Skipped;
    if ps[n].peer.outpipe.Some? {
      ReaderBalances(ps[n], ls[n].op);
    }
  }

  lemma NextBalancedByWriter(ps: seq<Pair>, ls: seq<Label>, n: nat)
    requires Run(ps, ls) && n < |ls| && |ps| == |ls| + 1 && Balanced(ps, ls, n) && !ls[n].mine
    ensures Balanced(ps, ls, n + 1)
  {
    RunSide(ps, ls, n);
    SumsNext(ps, ls, n);
    var p, q := Flip(ps[n]), Flip(ps[n + 1]);
    assert Flip(p) == ps[n] && Flip(q) == ps[n + 1];
    hide Run, Safe, Tidy, Surplus, Step, Enabled, SkippedSoFar, MiscountedSoFar, Dropped, Uncounted, Skipped;
    OutpipeStays(p, ls[n].op);
    WriterBalances(p, ls[n].op);
  }

  lemma NextBalanced(ps: seq<Pair>, ls: seq<Label>, n: nat)
    requires Run(ps, ls) && n < |ls| && |ps| == |ls| + 1 && Balanced(ps, ls, n)
    ensures Balanced(ps, ls, n + 1)
  {
    hide *;
    if ls[n].mine {
      NextBalancedByReader(ps, ls, n);
    } else {
      NextBalancedByWriter(ps, ls, n);
    }
  }

  lemma {:induction false} RunBalanced(ps: seq<Pair>, ls: seq<Label>, n: nat)
    requires Run(ps, ls) && n < |ps| == |ls| + 1
    ensures Balanced(ps, ls, n)
  {
    hide *;
    if n == 0 {
      StartBalanced(ps, ls);
    } else {
      RunBalanced(ps, ls, n - 1);
      NextBalanced(ps, ls, n - 1);
    }
  }

  /** In every run, hiccups included, the writer's count is exact up to two errors: it is ahead of the reader's count by the
      counted messages that are still in the outpipe, plus the credentials that reads skipped, minus the identities and
      delimiters that hiccups dropped. */
  lemma WriterCountsWhatIsUnread(ps: seq<Pair>, ls: seq<Label>, n: nat)
    requires Run(ps, ls) && n < |ps| == |ls| + 1 && ps[n].peer.outpipe.Some?
    ensures ps[n].peer.msgsWritten - ps[n].me.msgsRead == Held(ps[n]) + SkippedSoFar(ps, ls, n) - MiscountedSoFar(ps, ls, n)
  {
    RunBalanced(ps, ls, n);
    hide Run, Tidy, Held, SkippedSoFar, MiscountedSoFar;
  }

  /** A taken hiccup lets the writer write again, and what it counts too much from then on is what was miscounted before. */
  lemma HiccupStartsAfresh(ps: seq<Pair>, ls: seq<Label>, n: nat)
    requires Run(ps, ls) && n < |ls| && |ps| == |ls| + 1
    requires ls[n] == Label(false, Deliver) && HiccupNext(Flip(ps[n]))
    ensures ps[n + 1].peer.outpipe.Some? && ps[n + 1].peer.outActive
    ensures ps[n + 1].peer.msgsWritten - ps[n + 1].me.msgsRead == SkippedSoFar(ps, ls, n + 1) - MiscountedSoFar(ps, ls, n + 1)
  {
    RunBalanced(ps, ls, n);
    RunSide(ps, ls, n);
    var p, q := Flip(ps[n]), Flip(ps[n + 1]);
    assert Flip(p) == ps[n] && Flip(q) == ps[n + 1];
    HiccupTaken(p);
    NoDangling(p);
    HiccupIsExpected(p);
    HiccupCount(p);
    hide Run, Surplus, Step, Process, SkippedSoFar, MiscountedSoFar, HiccupPipes;
    ProcessIsStep(p);
    FlipSafe(p);
    Direction(ps[n]);
    hide Safe;
    assert p.toMe[0].pipe in HiccupPipes(p.toMe);
    assert Untouched(q.heap[q.me.outpipe.value]);
    WriterCountsWhatIsUnread(ps, ls, n + 1);
    assert Held(ps[n + 1]) == 0 by { EmptyHolds(q.heap[q.me.outpipe.value]); }
  }

  /** When the writer accepts writes right after a taken hiccup, as long as its counters are in range: if the reader's count plus the
      skipped credentials minus the miscounted frames is not below the last report, and less than the mark above it. */
  lemma AcceptsAfterHiccup(ps: seq<Pair>, ls: seq<Label>, n: nat, l: Local, f: Frame)
    requires Run(ps, ls) && n < |ls| && |ps| == |ls| + 1
    requires ls[n] == Label(false, Deliver) && HiccupNext(Flip(ps[n])) && l.e == ps[n + 1].peer && f.Frame?
    requires 0 < l.e.hwm <= INT_MAX && -TWO_64 + INT_MAX <= l.e.msgsWritten - l.e.peersMsgsRead < TWO_64
    ensures var ahead := ps[n + 1].me.msgsRead - l.e.peersMsgsRead + SkippedSoFar(ps, ls, n + 1) - MiscountedSoFar(ps, ls, n + 1);
            Write(l, f).1 <==> l.e.state == Active && 0 <= ahead < l.e.hwm
  {
    HiccupStartsAfresh(ps, ls, n);
    hide Run, SkippedSoFar, MiscountedSoFar, HiccupNext;
    UnsignedRoom(l.e);
    hide CheckHwm;
  }

  /** What the unsigned comparison of check_hwm decides, below the reported count as well. */
  lemma UnsignedRoom(e: Endpoint)
    requires 0 < e.hwm <= INT_MAX && -TWO_64 + INT_MAX <= e.msgsWritten - e.peersMsgsRead < TWO_64
    ensures CheckHwm(e) <==> 0 <= e.msgsWritten - e.peersMsgsRead < e.hwm
  {
    var d := e.msgsWritten - e.peersMsgsRead;
    if d < 0 {
      assert (d + TWO_64) % TWO_64 == d % TWO_64;
    }
  }

  lemma EmptyHolds(q: Queue<Frame>)
    requires Untouched(q)
    ensures Count(q.ready + q.done) == 0
  {
  }

  // A dropped identity stops the writer.

  const IDENTITY := Frame.Frame(0, false, true, false)

  function Dry(k: nat, hwm: int): Pair
    requires k <= 4
  {
    var p0 := FreshPair(1, 2, hwm, hwm);
    var p1 := p0.(peer := p0.peer.(written := [IDENTITY]), heap := p0.heap[1 := Queue([], [IDENTITY], [], false)]);
    var p2 := p1.(me := p1.me.(inpipe := 3, sent := [Command.Hiccup(3)]), toPeer := [Command.Hiccup(3)],
                  heap := p1.heap[3 := Fresh()]);
    var p3 := p2.(peer := p2.peer.(outpipe := Some(3), written := [], msgsWritten := -1), toPeer := [], heap := p2.heap - {1});
    match k
    case 0 => p0
    case 1 => p1
    case 2 => p2
    case 3 => p3
    case 4 => p3.(peer := p3.peer.(outActive := false))
  }

  function DryLabel(k: nat): Label
    requires k < 4
  {
    match k
    case 0 => Label(false, DoWrite(IDENTITY))
    case 1 => Label(true, DoHiccup(3))
    case 2 => Label(false, Deliver)
    case 3 => Label(false, DoCheckWrite)
  }

  lemma DryWrite(hwm: int)
    requires 0 < hwm <= INT_MAX
    ensures EnabledAt(Dry(0, hwm), DryLabel(0)) && StepAt(Dry(0, hwm), DryLabel(0)) == Next(Dry(1, hwm))
  {
    hide Process;
    var l := Load(Flip(Dry(0, hwm)));
    assert [] + [] + [IDENTITY] == [IDENTITY];
    assert Write(l, IDENTITY).0.e == Dry(1, hwm).peer && Write(l, IDENTITY).0.outq == Queue([], [IDENTITY], [], false);
    hide Write;
  }

  lemma DryHiccup(hwm: int)
    ensures EnabledAt(Dry(1, hwm), DryLabel(1)) && StepAt(Dry(1, hwm), DryLabel(1)) == Next(Dry(2, hwm))
  {
    hide Process, Call;
  }

  lemma DryDelivery(hwm: int)
    ensures EnabledAt(Dry(2, hwm), DryLabel(2)) && StepAt(Dry(2, hwm), DryLabel(2)) == Next(Dry(3, hwm))
  {
    hide React, Call;
    var l := Load(Flip(Dry(2, hwm)));
    assert [] + [IDENTITY] == [IDENTITY];
    assert [IDENTITY][..0] == [] && CountEnds([IDENTITY]) == 1;
    assert l.outq == Queue([], [IDENTITY], [], false);
    assert ProcessHiccup(l, 3, Fresh()).e == Dry(3, hwm).peer;
    hide ProcessHiccup, CountEnds;
  }

  lemma DryCheck(hwm: int)
    requires 0 < hwm <= INT_MAX
    ensures EnabledAt(Dry(3, hwm), DryLabel(3)) && StepAt(Dry(3, hwm), DryLabel(3)) == Next(Dry(4, hwm))
  {
    hide Process;
    var l := Load(Flip(Dry(3, hwm)));
    UnsignedRoom(l.e);
    assert CheckWrite(l) == (l.(e := Dry(4, hwm).peer), false);
    hide CheckWrite;
    assert Dry(4, hwm).heap == Dry(3, hwm).heap[2 := Dry(3, hwm).heap[2]][3 := Dry(3, hwm).heap[3]];
  }

  /** With any mark one dropped identity stops the writer although nothing is unread, and nothing is under way that could
      wake it. */
  lemma IdentityStopsTheWriter(hwm: int) returns (ps: seq<Pair>, ls: seq<Label>)
    requires 0 < hwm <= INT_MAX
    ensures Run(ps, ls) && |ps| == 5 && ps[4].peer.hwm == hwm
    ensures var p := ps[4];
            && p.peer.state == Active && !p.peer.outActive && p.toMe == [] && p.toPeer == []
            && p.me.state == Active && p.me.inpipe in p.heap && Untouched(p.heap[p.me.inpipe]) && p.me.got == []
  {
    ls := [DryLabel(0), DryLabel(1), DryLabel(2), DryLabel(3)];
    ps := [Dry(0, hwm), Dry(1, hwm), Dry(2, hwm), Dry(3, hwm), Dry(4, hwm)];
    assert Dry(0, hwm) == FreshPair(1, 2, hwm, hwm);
    DryEnds(hwm);
    DryWrite(hwm);
    DryHiccup(hwm);
    DryDelivery(hwm);
    DryCheck(hwm);
    hide StepAt, EnabledAt, Dry, DryLabel, Run;
    FourSteps(ps[0], ps[1], ps[2], ps[3], ps[4], ls[0], ls[1], ls[2], ls[3], hwm);
  }

  lemma DryEnds(hwm: int)
    ensures var p := Dry(4, hwm);
            && p.peer.hwm == hwm && p.peer.state == Active && !p.peer.outActive && p.toMe == [] && p.toPeer == []
            && p.me.state == Active && p.me.inpipe in p.heap && Untouched(p.heap[p.me.inpipe]) && p.me.got == []
  {
  }
}
