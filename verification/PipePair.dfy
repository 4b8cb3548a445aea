/** Two connected endpoints as one system: a step relation over two endpoints, two FIFO command
    channels and the heap of ypipes, and the proof that no run of it goes wrong.

    A step is a public call on one endpoint or the delivery of the next command to it.  `Pair` is
    written from the point of view of the endpoint that moves (`me`); `Flip` changes sides. */
module PipePair {
  import opened Options
  import opened Ypipe
  import opened PipeStep

  datatype Pair = Pair(
    me: Endpoint, peer: Endpoint, toMe: seq<Command>, toPeer: seq<Command>, heap: map<nat, Queue<Frame>>)

  datatype Op =
    | DoCheckRead
    | DoRead
    | DoCheckWrite
    | DoWrite(frame: Frame)
    | DoRollback
    | DoFlush
    | DoSetNodelay
    | DoTerminate(delay: bool)
    | DoHiccup(address: nat)
    | Deliver

  /** `Fault` is a failed zmq_assert, a dangling ypipe pointer or a command to a freed endpoint. */
  datatype Outcome = Next(p: Pair) | Fault

  datatype Label = Label(mine: bool, op: Op)

  function Flip(p: Pair): Pair {
    Pair(p.peer, p.me, p.toPeer, p.toMe, p.heap)
  }

  /** pipepair: pipe 0 is `me`.  Ypipe `up1` carries messages to `me`, ypipe `up2` to `peer`. */
  function FreshPair(up1: nat, up2: nat, hwms0: int, hwms1: int): Pair {
    Pair(Create(up1, up2, hwms1, hwms0), Create(up2, up1, hwms0, hwms1), [], [], map[up1 := Fresh(), up2 := Fresh()])
  }

  predicate Dangling(p: Pair) {
    p.me.inpipe !in p.heap || (p.me.outpipe.Some? && p.me.outpipe.value !in p.heap)
  }

  function Load(p: Pair): Local
    requires !Dangling(p)
  {
    Local(p.me, p.heap[p.me.inpipe], if p.me.outpipe.Some? then p.heap[p.me.outpipe.value] else Fresh())
  }

  function News(before: Endpoint, after: Endpoint): seq<Command> {
    if |before.sent| <= |after.sent| then after.sent[|before.sent|..] else []
  }

  /** The queues live in the heap, new commands go into the peer's mailbox. */
  function Store(p: Pair, l: Local): Pair {
    var h := p.heap[p.me.inpipe := l.inq];
    p.(me := l.e, toPeer := p.toPeer + News(p.me, l.e),
       heap := if p.me.outpipe.Some? && l.e.outpipe.Some? then h[p.me.outpipe.value := l.outq] else h)
  }

  function Finish(p: Pair, l: Local): Outcome {
    if p.peer.freed && News(p.me, l.e) != [] then Fault else Next(Store(p, l))
  }

  /** Public calls that neither create nor delete a ypipe. */
  predicate Plain(op: Op) {
    !op.DoHiccup? && !op.Deliver? && (op.DoWrite? ==> op.frame.Frame?)
  }

  function Call(l: Local, op: Op): Local
    requires Plain(op)
  {
    match op
    case DoCheckRead => CheckRead(l).0
    case DoRead => Read(l).0
    case DoCheckWrite => CheckWrite(l).0
    case DoWrite(f) => Write(l, f).0
    case DoRollback => Rollback(l)
    case DoFlush => Flush(l)
    case DoSetNodelay => SetNodelay(l)
    case DoTerminate(delay) => Terminate(l, delay)
  }

  /** The three command handlers that neither create nor delete a ypipe. */
  predicate Reacts(e: Endpoint, c: Command) {
    c.ActivateRead? || c.ActivateWrite? || (c.PipeTerm? && TermExpected(e))
  }

  function React(l: Local, c: Command): Local
    requires Reacts(l.e, c)
  {
    match c
    case ActivateRead => ProcessActivateRead(l)
    case ActivateWrite(n) => ProcessActivateWrite(l, n)
    case PipeTerm => ProcessPipeTerm(l)
  }

  /** object_t::process_command for the five commands a pipe receives. */
  function Process(p: Pair): Outcome
    requires p.toMe != []
  {
    var c := p.toMe[0];
    var rest := p.(toMe := p.toMe[1..]);
    if p.me.freed || Dangling(p) then Fault
    else if Reacts(p.me, c) then Finish(rest, React(Load(p), c))
    else if c.PipeTermAck? && AckExpected(p.me) then
      var after := Finish(rest, ProcessPipeTermAck(Load(p)));
      if after.Fault? then Fault else Next(after.p.(heap := after.p.heap - {p.me.inpipe}))
    else if c.Hiccup? && p.me.outpipe.Some? && c.pipe in p.heap then
      Next(rest.(me := ProcessHiccup(Load(p), c.pipe, p.heap[c.pipe]).e, heap := p.heap - {p.me.outpipe.value}))
    else Fault
  }

  /** What a user may do: no calls on a pipe after pipe_terminated; an allocated address is new. */
  predicate Enabled(p: Pair, op: Op) {
    match op
    case Deliver => p.toMe != []
    case DoHiccup(address) => !p.me.freed && address !in p.heap
    case DoWrite(f) => !p.me.freed && f.Frame?
    case _ => !p.me.freed
  }

  function Step(p: Pair, op: Op): Outcome
    requires Enabled(p, op)
  {
    if op.Deliver? then Process(p)
    else if Dangling(p) then Fault
    else if op.DoHiccup? then
      var after := HiccupIn(Load(p), op.address);
      if p.peer.freed && News(p.me, after.e) != [] then Fault
      else if p.me.state != Active then Next(p)
      else Next(p.(me := after.e, toPeer := p.toPeer + News(p.me, after.e), heap := p.heap[op.address := Fresh()]))
    else Finish(p, Call(Load(p), op))
  }

  predicate EnabledAt(p: Pair, a: Label) {
    Enabled(if a.mine then p else Flip(p), a.op)
  }

  function StepAt(p: Pair, a: Label): Outcome
    requires EnabledAt(p, a)
  {
    if a.mine then Step(p, a.op)
    else match Step(Flip(p), a.op) case Next(q) => Next(Flip(q)) case Fault => Fault
  }

  /** A run: states `ps` connected by the steps `ls`, starting from a fresh pair. */
  ghost predicate Run(ps: seq<Pair>, ls: seq<Label>) {
    && |ps| == |ls| + 1
    && (exists up1, up2, hwms0, hwms1 :: up1 != up2 && ps[0] == FreshPair(up1, up2, hwms0, hwms1))
    && forall i | 0 <= i < |ls| :: EnabledAt(ps[i], ls[i]) && StepAt(ps[i], ls[i]) == Next(ps[i + 1])
  }

  // ------------------------------------------------------------------------------------------
  // The invariant
  // ------------------------------------------------------------------------------------------

  predicate SentTerm(e: Endpoint) {
    e.state == TermReqSent1 || e.state == TermReqSent2
  }

  predicate GotTerm(e: Endpoint) {
    e.state == WaitingForDelimiter || e.state == TermAckSent || e.state == TermReqSent2
  }

  predicate SentAck(e: Endpoint) {
    e.freed || e.state == TermAckSent || e.state == TermReqSent2
  }

  /** An acknowledgement is the last command; only wake-ups and it may follow a pipe_term. */
  predicate Shape(cs: seq<Command>) {
    && (forall i | 0 <= i < |cs| - 1 :: cs[i] != PipeTermAck)
    && (forall i, j | 0 <= i < j < |cs| && cs[i] == PipeTerm :: cs[j] == ActivateRead || cs[j] == PipeTermAck)
  }

  function HiccupPipes(cs: seq<Command>): seq<nat> {
    if cs == [] then []
    else (if cs[0].Hiccup? then [cs[0].pipe] else []) + HiccupPipes(cs[1..])
  }

  /** What holds of the commands `cs` under way from `snd` to `rcv`. */
  predicate Channel(rcv: Endpoint, snd: Endpoint, cs: seq<Command>) {
    && (GotTerm(rcv) ==> SentTerm(snd))
    && (PipeTerm in cs <==> SentTerm(snd) && !GotTerm(rcv))
    && (PipeTermAck in cs <==> SentAck(snd) && !rcv.freed)
    && Shape(cs)
    && (rcv.freed ==> cs == [] && SentAck(snd) && AckExpected(rcv))
    && (GotTerm(rcv) ==> HiccupPipes(cs) == [])
  }

  /** An endpoint gives up its outpipe when it acknowledges, and that is the last thing it says. */
  predicate LastWord(e: Endpoint) {
    && (e.outpipe == None <==> SentAck(e))
    && (PipeTermAck in e.sent <==> SentAck(e))
    && (forall i | 0 <= i < |e.sent| :: e.sent[i] == PipeTermAck ==> i == |e.sent| - 1)
  }

  predicate Half(p: Pair) {
    Channel(p.me, p.peer, p.toMe) && LastWord(p.me)
  }

  /** The ypipes that carry messages to `me`, oldest first. */
  function Chain(p: Pair): seq<nat> {
    if p.peer.outpipe == None then (if p.me.freed then [] else [p.me.inpipe])
    else [p.peer.outpipe.value] + HiccupPipes(p.toPeer)
  }

  ghost predicate Linked(p: Pair) {
    p.peer.outpipe.Some? ==> !p.me.freed && Chain(p)[|Chain(p)| - 1] == p.me.inpipe
  }

  /** Every allocated ypipe is in exactly one chain, at exactly one place. */
  ghost predicate Owned(p: Pair) {
    multiset(Chain(p)) + multiset(Chain(Flip(p))) == multiset(p.heap.Keys)
  }

  ghost predicate Safe(p: Pair) {
    Half(p) && Half(Flip(p)) && Linked(p) && Linked(Flip(p)) && Owned(p)
  }

  lemma SafeParts(p: Pair)
    requires Safe(p)
    ensures Half(p) && Half(Flip(p)) && LastWord(p.me) && LastWord(p.peer)
  {
  }

  lemma FlipSafe(p: Pair)
    requires Safe(p)
    ensures Safe(Flip(p))
  {
    assert Flip(Flip(p)) == p;
  }

  lemma {:induction false} HiccupPipesAppend(a: seq<Command>, b: seq<Command>)
    ensures HiccupPipes(a + b) == HiccupPipes(a) + HiccupPipes(b)
  {
    if a == [] {
      assert a + b == b;
    } else {
      assert (a + b)[1..] == a[1..] + b && (a + b)[0] == a[0];
      HiccupPipesAppend(a[1..], b);
      var first := if a[0].Hiccup? then [a[0].pipe] else [];
      assert HiccupPipes(a + b) == first + HiccupPipes((a + b)[1..]);
      assert first + (HiccupPipes(a[1..]) + HiccupPipes(b)) == first + HiccupPipes(a[1..]) + HiccupPipes(b);
    }
  }

  lemma NoPipes(cs: seq<Command>)
    requires forall c | c in cs :: !c.Hiccup?
    ensures HiccupPipes(cs) == []
  {
  }

  lemma NoDangling(p: Pair)
    requires Safe(p)
    ensures p.me.freed || !Dangling(p)
  {
    if !p.me.freed {
      assert p.me.inpipe in Chain(p);
      assert p.me.inpipe in multiset(p.heap.Keys);
      if p.me.outpipe.Some? {
        assert p.me.outpipe.value in Chain(Flip(p));
        assert p.me.outpipe.value in multiset(p.heap.Keys);
      }
    }
  }

  // ------------------------------------------------------------------------------------------
  // What a public call can do to the state and to the commands sent
  // ------------------------------------------------------------------------------------------

  /** Same pointers, and the commands in `cs` were sent. */
  predicate Sent(e: Endpoint, f: Endpoint, cs: seq<Command>) {
    f.sent == e.sent + cs && f.freed == e.freed && f.inpipe == e.inpipe
  }

  predicate Wakes(c: Command) {
    c.ActivateRead? || c.ActivateWrite?
  }

  /** No step of the handshake, except that a delimiter may be noticed in the active state. */
  predicate Quiet(e: Endpoint, f: Endpoint) {
    && (f.state == e.state || (e.state == Active && f.state == DelimiterReceived))
    && f.outpipe == e.outpipe
    && (Sent(e, f, []) || (!SentAck(e) && Sent(e, f, [ActivateRead]))
        || (!SentAck(e) && !SentTerm(e) && Sent(e, f, [ActivateWrite(f.msgsRead)])))
  }

  predicate RequestsTerm(e: Endpoint, f: Endpoint) {
    && (e.state == Active || e.state == DelimiterReceived) && f.state == TermReqSent1
    && f.outpipe == e.outpipe
    && (Sent(e, f, [PipeTerm]) || Sent(e, f, [PipeTerm, ActivateRead]))
  }

  predicate Acks(e: Endpoint, f: Endpoint) {
    e.state == WaitingForDelimiter && f.state == TermAckSent && f.outpipe == None && Sent(e, f, [PipeTermAck])
  }

  predicate Moves(e: Endpoint, f: Endpoint) {
    Quiet(e, f) || RequestsTerm(e, f) || Acks(e, f)
  }

  lemma {:induction false} ReadMoves(l: Local)
    requires !l.e.freed && (l.e.state == Active || l.e.state == WaitingForDelimiter)
    ensures Quiet(l.e, ReadFrames(l).0.e) || Acks(l.e, ReadFrames(l).0.e)
    decreases |l.inq.ready|
  {
    if l.inq.ready != [] && l.inq.ready[0].Frame? && l.inq.ready[0].credential {
      ReadMoves(Take(l));
    }
  }

  lemma CloseOutMoves(l: Local)
    requires SentAck(l.e) ==> l.e.outpipe == None
    ensures var f := CloseOut(l).e;
            && f.state == l.e.state && f.outpipe == l.e.outpipe
            && (Sent(l.e, f, []) || (!SentAck(l.e) && Sent(l.e, f, [ActivateRead])))
  {
  }

  lemma TerminateMoves(l: Local, delay: bool)
    requires !l.e.freed && (l.e.outpipe == None <==> SentAck(l.e))
    ensures Moves(l.e, Terminate(l, delay).e)
  {
    var s := StartTerminate(l, delay);
    assert SentAck(s.e) ==> s.e.outpipe == None;
    hide CloseOut;
    CloseOutMoves(s);
    assert l.e.sent + [PipeTerm, ActivateRead] == (l.e.sent + [PipeTerm]) + [ActivateRead];
  }

  lemma CallMoves(l: Local, op: Op)
    requires Plain(op) && !l.e.freed && (l.e.outpipe == None <==> SentAck(l.e))
    ensures Moves(l.e, Call(l, op).e)
  {
    hide ReadFrames, Terminate;
    if op.DoRead? {
      if CanRead(l.e) {
        ReadMoves(l);
      }
    } else if op.DoTerminate? {
      TerminateMoves(l, op.delay);
    }
  }

  // ------------------------------------------------------------------------------------------
  // The invariant survives every step, and no step faults
  // ------------------------------------------------------------------------------------------

  /** The system after `me` moved from `p.me` to `q.me` and sent `cs`. */
  predicate Moved(p: Pair, q: Pair, cs: seq<Command>) {
    && Sent(p.me, q.me, cs)
    && q.peer == p.peer && q.toMe == p.toMe && q.toPeer == p.toPeer + cs && q.heap.Keys == p.heap.Keys
  }

  /** The peer still exists whenever `me` has something left to say. */
  lemma PeerAlive(p: Pair)
    requires Safe(p) && !SentAck(p.me)
    ensures !p.peer.freed && PipeTermAck !in p.toPeer && PipeTermAck !in p.me.sent
  {
  }

  lemma AppendShape(cs: seq<Command>, c: Command)
    requires Shape(cs) && PipeTermAck !in cs
    requires PipeTerm in cs ==> c == ActivateRead || c == PipeTermAck
    ensures Shape(cs + [c])
  {
  }

  lemma AppendChannel(rcv: Endpoint, snd: Endpoint, snd': Endpoint, cs: seq<Command>, c: Command)
    requires Channel(rcv, snd, cs) && !SentAck(snd)
    requires Wakes(c) ==> SentTerm(snd') == SentTerm(snd) && !SentAck(snd') && (SentTerm(snd) ==> c == ActivateRead)
    requires c.Hiccup? ==> SentTerm(snd') == SentTerm(snd) == false && !SentAck(snd')
    requires c.PipeTerm? ==> !SentTerm(snd) && SentTerm(snd') && !SentAck(snd')
    requires c.PipeTermAck? ==> SentAck(snd') && SentTerm(snd') == SentTerm(snd)
    ensures Channel(rcv, snd', cs + [c])
  {
    AppendShape(cs, c);
    HiccupPipesAppend(cs, [c]);
  }

  lemma AppendLastWord(e: Endpoint, f: Endpoint, c: Command)
    requires LastWord(e) && !SentAck(e) && f.sent == e.sent + [c]
    requires SentAck(f) == c.PipeTermAck? == (f.outpipe == None)
    ensures LastWord(f)
  {
  }

  lemma SameChains(p: Pair, q: Pair)
    requires Linked(p) && Linked(Flip(p)) && Owned(p)
    requires q.me.inpipe == p.me.inpipe && q.me.freed == p.me.freed && q.peer == p.peer && q.heap.Keys == p.heap.Keys
    requires q.me.outpipe == p.me.outpipe || (q.me.outpipe == None && HiccupPipes(p.toMe) == [])
    requires HiccupPipes(q.toMe) == HiccupPipes(p.toMe) && HiccupPipes(q.toPeer) == HiccupPipes(p.toPeer)
    ensures Linked(q) && Linked(Flip(q)) && Owned(q)
  {
    assert Chain(q) == Chain(p);
    assert Chain(Flip(q)) == Chain(Flip(p));
  }

  lemma QuietKeepsSafe(p: Pair, q: Pair, cs: seq<Command>)
    requires Safe(p) && !p.me.freed && Moved(p, q, cs) && Quiet(p.me, q.me)
    requires cs == [] || (|cs| == 1 && Wakes(cs[0]) && !SentAck(p.me) && (SentTerm(p.me) ==> cs[0] == ActivateRead))
    ensures Safe(q) && (cs != [] ==> !p.peer.freed)
  {
    hide Shape, HiccupPipes, Owned, Linked;
    HiccupPipesAppend(p.toPeer, cs);
    NoPipes(cs);
    if cs == [] {
      assert q.toPeer == p.toPeer && q.me.sent == p.me.sent;
    } else {
      PeerAlive(p);
      AppendChannel(p.peer, p.me, q.me, p.toPeer, cs[0]);
      AppendLastWord(p.me, q.me, cs[0]);
      assert cs == [cs[0]];
    }
    SameChains(p, q);
  }

  lemma RequestKeepsSafe(p: Pair, q: Pair, cs: seq<Command>)
    requires Safe(p) && !p.me.freed && Moved(p, q, cs) && RequestsTerm(p.me, q.me)
    requires cs == [PipeTerm] || cs == [PipeTerm, ActivateRead]
    ensures Safe(q) && !p.peer.freed
  {
    hide Shape, HiccupPipes, Owned, Linked;
    PeerAlive(p);
    HiccupPipesAppend(p.toPeer, cs);
    NoPipes(cs);
    var mid := p.me.(state := TermReqSent1, sent := p.me.sent + [PipeTerm]);
    AppendChannel(p.peer, p.me, mid, p.toPeer, PipeTerm);
    AppendLastWord(p.me, mid, PipeTerm);
    if |cs| == 2 {
      AppendChannel(p.peer, mid, q.me, p.toPeer + [PipeTerm], ActivateRead);
      assert q.me.sent == mid.sent + [ActivateRead];
      AppendLastWord(mid, q.me, ActivateRead);
      assert q.toPeer == p.toPeer + [PipeTerm] + [ActivateRead];
    }
    SameChains(p, q);
  }

  lemma AckKeepsSafe(p: Pair, q: Pair)
    requires Safe(p) && !p.me.freed && Moved(p, q, [PipeTermAck]) && Acks(p.me, q.me)
    ensures Safe(q) && !p.peer.freed
  {
    hide Shape, HiccupPipes, Owned, Linked;
    PeerAlive(p);
    HiccupPipesAppend(p.toPeer, [PipeTermAck]);
    NoPipes([PipeTermAck]);
    AppendChannel(p.peer, p.me, q.me, p.toPeer, PipeTermAck);
    AppendLastWord(p.me, q.me, PipeTermAck);
    SameChains(p, q);
  }

  lemma MoveKeepsSafe(p: Pair, q: Pair)
    requires Safe(p) && !p.me.freed && Moves(p.me, q.me) && Moved(p, q, News(p.me, q.me))
    ensures Safe(q) && (News(p.me, q.me) != [] ==> !p.peer.freed)
  {
    var cs := News(p.me, q.me);
    if Quiet(p.me, q.me) {
      QuietKeepsSafe(p, q, cs);
    } else if RequestsTerm(p.me, q.me) {
      RequestKeepsSafe(p, q, cs);
    } else {
      AckKeepsSafe(p, q);
    }
  }

  lemma CallKeepsSafe(p: Pair, op: Op)
    requires Safe(p) && Enabled(p, op) && Plain(op)
    ensures Step(p, op).Next? && Safe(Step(p, op).p)
  {
    hide Safe, Call;
    NoDangling(p);
    assert LastWord(p.me) by { SafeParts(p); }
    CallMoves(Load(p), op);
    MoveKeepsSafe(p, Store(p, Call(Load(p), op)));
  }

  // Delivery of a command.

  lemma TailOfShape(cs: seq<Command>)
    requires Shape(cs) && cs != []
    ensures Shape(cs[1..])
    ensures cs[0] == PipeTermAck ==> cs[1..] == []
    ensures cs[0] == PipeTerm ==> forall c | c in cs[1..] :: c == ActivateRead || c == PipeTermAck
  {
    assert forall i | 0 <= i < |cs| - 1 :: cs[1..][i] == cs[i + 1];
  }

  lemma PopHead(cs: seq<Command>)
    requires Shape(cs) && cs != []
    ensures Shape(cs[1..]) && cs[0] in cs
    ensures HiccupPipes(cs) == (if cs[0].Hiccup? then [cs[0].pipe] else []) + HiccupPipes(cs[1..])
    ensures cs[0] == PipeTermAck ==> cs[1..] == [] && HiccupPipes(cs) == []
    ensures cs[0] == PipeTerm ==> PipeTerm !in cs[1..] && HiccupPipes(cs[1..]) == []
    ensures cs[0] != PipeTerm ==> (PipeTerm in cs[1..] <==> PipeTerm in cs)
    ensures cs[0] != PipeTermAck ==> (PipeTermAck in cs[1..] <==> PipeTermAck in cs)
  {
    TailOfShape(cs);
    hide Shape;
    assert cs == [cs[0]] + cs[1..];
    if cs[0] == PipeTerm {
      NoPipes(cs[1..]);
    }
  }

  lemma PopWake(p: Pair, q: Pair)
    requires Safe(p) && !p.me.freed && p.toMe != [] && Wakes(p.toMe[0])
    requires Moved(p.(toMe := p.toMe[1..]), q, []) && q.me.state == p.me.state && q.me.outpipe == p.me.outpipe
    ensures Safe(q)
  {
    hide Shape, HiccupPipes, Owned, Linked;
    PopHead(p.toMe);
    assert q.toPeer == p.toPeer && q.me.sent == p.me.sent;
    SameChains(p, q);
  }

  /** Receiving pipe_term: the assertion holds, and an acknowledgement reaches a living peer. */
  lemma PopTerm(p: Pair, q: Pair, cs: seq<Command>)
    requires Safe(p) && !p.me.freed && p.toMe != [] && p.toMe[0] == PipeTerm
    requires Moved(p.(toMe := p.toMe[1..]), q, cs) && GotTerm(q.me) && SentTerm(q.me) == SentTerm(p.me)
    requires if cs == [] then !SentAck(q.me) && q.me.outpipe == p.me.outpipe
             else cs == [PipeTermAck] && SentAck(q.me) && q.me.outpipe == None
    ensures Safe(q) && (cs != [] ==> !p.peer.freed)
  {
    hide Shape, HiccupPipes, Owned, Linked;
    PopHead(p.toMe);
    PeerAlive(p);
    HiccupPipesAppend(p.toPeer, cs);
    NoPipes(cs);
    if cs == [] {
      assert q.toPeer == p.toPeer && q.me.sent == p.me.sent;
    } else {
      AppendChannel(p.peer, p.me, q.me, p.toPeer, PipeTermAck);
      AppendLastWord(p.me, q.me, PipeTermAck);
    }
    SameChains(p, q);
  }

  lemma TermIsExpected(p: Pair)
    requires Safe(p) && !p.me.freed && PipeTerm in p.toMe
    ensures TermExpected(p.me)
  {
  }

  lemma AckIsExpected(p: Pair)
    requires Safe(p) && !p.me.freed && p.toMe != [] && p.toMe[0] == PipeTermAck
    ensures AckExpected(p.me) && p.toMe == [PipeTermAck] && !SentAck(p.me) == (p.me.state == TermReqSent1)
  {
    PopHead(p.toMe);
    assert PipeTermAck in p.toMe && p.toMe == [PipeTermAck];
  }

  /** The last delivery: the endpoint frees its inpipe and itself. */
  lemma PopAck(p: Pair, q: Pair, cs: seq<Command>)
    requires Safe(p) && !p.me.freed && p.toMe != [] && p.toMe[0] == PipeTermAck
    requires q.me.sent == p.me.sent + cs && q.me.freed && q.me.state == p.me.state && q.me.inpipe == p.me.inpipe
    requires cs == if p.me.state == TermReqSent1 then [PipeTermAck] else []
    requires q.me.outpipe == None
    requires q.peer == p.peer && q.toMe == p.toMe[1..] && q.toPeer == p.toPeer + cs
    requires q.heap.Keys == p.heap.Keys - {p.me.inpipe}
    ensures Safe(q) && (cs != [] ==> !p.peer.freed)
  {
    hide Shape, HiccupPipes, Owned, Linked;
    PopHead(p.toMe);
    AckIsExpected(p);
    AckFrees(p, q);
    if cs == [] {
      assert q.toPeer == p.toPeer && q.me.sent == p.me.sent;
    } else {
      PeerAlive(p);
      AppendChannel(p.peer, p.me, q.me, p.toPeer, PipeTermAck);
      AppendLastWord(p.me, q.me, PipeTermAck);
    }
  }

  lemma AckFrees(p: Pair, q: Pair)
    requires Linked(Flip(p)) && Owned(p) && !p.me.freed && p.peer.outpipe == None && p.toMe == [PipeTermAck]
    requires q.me.freed && q.me.inpipe == p.me.inpipe && q.me.outpipe == None && q.toMe == [] && q.peer == p.peer
    requires q.heap.Keys == p.heap.Keys - {p.me.inpipe}
    ensures Linked(q) && Linked(Flip(q)) && Owned(q)
  {
    assert HiccupPipes(p.toMe) == [];
    assert Chain(p) == [p.me.inpipe] && Chain(q) == [];
    assert Chain(Flip(q)) == Chain(Flip(p));
    assert p.me.inpipe in multiset(p.heap.Keys);
    assert multiset(q.heap.Keys) == multiset(p.heap.Keys) - multiset{p.me.inpipe};
  }

  lemma PopHiccup(p: Pair, q: Pair)
    requires Safe(p) && !p.me.freed && p.toMe != [] && p.toMe[0].Hiccup? && p.me.outpipe.Some?
    requires Moved(p.(toMe := p.toMe[1..], heap := q.heap), q, [])
    requires q.me.state == p.me.state && q.me.outpipe == Some(p.toMe[0].pipe)
    requires q.heap.Keys == p.heap.Keys - {p.me.outpipe.value}
    ensures Safe(q)
  {
    hide Shape, HiccupPipes, Owned, Linked;
    PopHead(p.toMe);
    HiccupFrees(p, q);
    assert q.toPeer == p.toPeer && q.me.sent == p.me.sent;
  }

  lemma OwnLess(a: seq<nat>, b: seq<nat>, keys: set<nat>, address: nat)
    requires multiset(a) + multiset([address] + b) == multiset(keys)
    ensures multiset(a) + multiset(b) == multiset(keys - {address})
  {
    assert multiset([address] + b) == multiset{address} + multiset(b);
    assert address in multiset(keys);
    assert multiset(keys - {address}) == multiset(keys) - multiset{address};
  }

  /** The oldest ypipe of the chain away from `me` goes. */
  lemma HiccupDropsFirst(p: Pair, q: Pair)
    requires p.toMe != [] && p.toMe[0].Hiccup? && p.me.outpipe.Some?
    requires q.me.inpipe == p.me.inpipe && q.me.freed == p.me.freed && q.peer == p.peer
    requires q.me.outpipe == Some(p.toMe[0].pipe) && q.toMe == p.toMe[1..] && q.toPeer == p.toPeer
    ensures Chain(q) == Chain(p) && Chain(Flip(p)) == [p.me.outpipe.value] + Chain(Flip(q))
  {
  }

  lemma HiccupFrees(p: Pair, q: Pair)
    requires Linked(p) && Linked(Flip(p)) && Owned(p) && !p.me.freed && p.toMe != [] && p.toMe[0].Hiccup? && p.me.outpipe.Some?
    requires q.me.inpipe == p.me.inpipe && q.me.freed == p.me.freed && q.peer == p.peer
    requires q.me.outpipe == Some(p.toMe[0].pipe) && q.toMe == p.toMe[1..] && q.toPeer == p.toPeer
    requires q.heap.Keys == p.heap.Keys - {p.me.outpipe.value}
    ensures Linked(q) && Linked(Flip(q)) && Owned(q)
  {
    HiccupDropsFirst(p, q);
    OwnLess(Chain(p), Chain(Flip(q)), p.heap.Keys, p.me.outpipe.value);
    assert Chain(Flip(q)) != [];
    hide Chain;
  }

  /** pipe_t::hiccup hands a new inpipe to the peer. */
  lemma HiccupKeepsSafe(p: Pair, q: Pair, address: nat)
    requires Safe(p) && !p.me.freed && p.me.state == Active && address !in p.heap
    requires q.me.sent == p.me.sent + [Command.Hiccup(address)] && q.me.state == Active && !q.me.freed
    requires q.me.inpipe == address && q.me.outpipe == p.me.outpipe
    requires q.peer == p.peer && q.toMe == p.toMe && q.toPeer == p.toPeer + [Command.Hiccup(address)]
    requires q.heap.Keys == p.heap.Keys + {address}
    ensures Safe(q) && !p.peer.freed
  {
    PeerAlive(p);
    AppendChannel(p.peer, p.me, q.me, p.toPeer, Command.Hiccup(address));
    AppendLastWord(p.me, q.me, Command.Hiccup(address));
    HiccupLinks(p, q, address);
  }

  lemma OwnMore(a: seq<nat>, b: seq<nat>, keys: set<nat>, address: nat)
    requires multiset(a) + multiset(b) == multiset(keys) && address !in keys
    ensures multiset(a + [address]) + multiset(b) == multiset(keys + {address})
  {
    assert multiset(keys + {address}) == multiset(keys) + multiset{address};
    assert multiset(a + [address]) == multiset(a) + multiset{address};
  }

  /** The new ypipe is the last one in the chain towards `me`. */
  lemma HiccupChains(p: Pair, q: Pair, address: nat)
    requires p.peer.outpipe.Some? && q.me.outpipe == p.me.outpipe && q.peer == p.peer && q.toMe == p.toMe
    requires q.toPeer == p.toPeer + [Command.Hiccup(address)]
    ensures Chain(q) == Chain(p) + [address] && Chain(Flip(q)) == Chain(Flip(p))
  {
    HiccupPipesAppend(p.toPeer, [Command.Hiccup(address)]);
    assert HiccupPipes([Command.Hiccup(address)]) == [address];
    hide HiccupPipes;
  }

  lemma HiccupLinks(p: Pair, q: Pair, address: nat)
    requires Linked(p) && Linked(Flip(p)) && Owned(p) && !p.me.freed && address !in p.heap && p.peer.outpipe.Some?
    requires !q.me.freed && q.me.inpipe == address && q.me.outpipe == p.me.outpipe
    requires q.peer == p.peer && q.toMe == p.toMe && q.toPeer == p.toPeer + [Command.Hiccup(address)]
    requires q.heap.Keys == p.heap.Keys + {address}
    ensures Linked(q) && Linked(Flip(q)) && Owned(q)
  {
    HiccupChains(p, q, address);
    OwnMore(Chain(p), Chain(Flip(p)), p.heap.Keys, address);
    hide Chain;
  }

  // The two theorems about one step.

  lemma ReactDelivery(p: Pair)
    requires Safe(p) && p.toMe != [] && Reacts(p.me, p.toMe[0]) && !p.me.freed && !Dangling(p)
    ensures Process(p).Next? && Safe(Process(p).p)
  {
    hide Shape, HiccupPipes, Linked, Owned;
    PopHead(p.toMe);
    var l := React(Load(p), p.toMe[0]);
    var q := Store(p.(toMe := p.toMe[1..]), l);
    if p.toMe[0] == PipeTerm {
      PopTerm(p, q, News(p.me, l.e));
    } else {
      PopWake(p, q);
    }
  }

  lemma AckDelivery(p: Pair)
    requires Safe(p) && p.toMe != [] && p.toMe[0] == PipeTermAck && !p.me.freed && !Dangling(p)
    ensures Process(p).Next? && Safe(Process(p).p)
  {
    AckIsExpected(p);
    var l := ProcessPipeTermAck(Load(p));
    var q := Store(p.(toMe := p.toMe[1..]), l);
    assert p.me.outpipe == None <==> SentAck(p.me);
    hide Safe;
    PopAck(p, q.(heap := q.heap - {p.me.inpipe}), News(p.me, l.e));
  }

  /** process_hiccup, with the pointers in place. */
  lemma PlugsOut(p: Pair)
    requires p.toMe != [] && p.toMe[0].Hiccup? && !p.me.freed && !Dangling(p)
    requires p.me.outpipe.Some? && p.toMe[0].pipe in p.heap
    ensures Process(p).Next?
    ensures var q := Process(p).p;
            && q.peer == p.peer && q.toMe == p.toMe[1..] && q.toPeer == p.toPeer && q.heap == p.heap - {p.me.outpipe.value}
            && q.me.state == p.me.state && q.me.outpipe == Some(p.toMe[0].pipe) && q.me.inpipe == p.me.inpipe && !q.me.freed
            && q.me.written == [] && q.me.open == [] && q.me.closed == 0 && q.me.sent == p.me.sent
  {
    hide CountEnds;
  }

  lemma HiccupDelivery(p: Pair)
    requires Safe(p) && p.toMe != [] && p.toMe[0].Hiccup? && !p.me.freed && !Dangling(p)
    ensures Process(p).Next? && Safe(Process(p).p)
  {
    hide Safe, Process, Dangling;
    HiccupIsExpected(p);
    PlugsOut(p);
    assert Process(p).p.me.sent == p.me.sent + [];
    PopHiccup(p, Process(p).p);
  }

  lemma DeliveryKeepsSafe(p: Pair)
    requires Safe(p) && p.toMe != []
    ensures Process(p).Next? && Safe(Process(p).p)
  {
    SafeParts(p);
    assert !p.me.freed;
    NoDangling(p);
    hide Half, LastWord, Channel, Process, Dangling, HiccupPipes, Shape, Linked, Owned;
    match p.toMe[0]
    case PipeTermAck => AckDelivery(p);
    case Hiccup(pipe) => HiccupDelivery(p);
    case PipeTerm =>
      TermIsExpected(p);
      ReactDelivery(p);
    case _ => ReactDelivery(p);
  }

  lemma HiccupIsExpected(p: Pair)
    requires Safe(p) && !p.me.freed && p.toMe != [] && p.toMe[0].Hiccup?
    ensures p.me.outpipe.Some? && p.toMe[0].pipe in p.heap
  {
    PopHead(p.toMe);
    assert HiccupPipes(p.toMe) != [] && p.me.outpipe.Some?;
    hide Half, Shape, Linked;
    assert p.toMe[0].pipe == Chain(Flip(p))[1];
    assert p.toMe[0].pipe in multiset(p.heap.Keys);
  }

  /** No step of a safe pair faults, whichever side moves. */
  lemma StepKeepsSafe(p: Pair, a: Label)
    requires Safe(p) && EnabledAt(p, a)
    ensures StepAt(p, a).Next? && Safe(StepAt(p, a).p)
  {
    FlipSafe(p);
    var v := if a.mine then p else Flip(p);
    SideKeepsSafe(v, a.op);
    FlipSafe(Step(v, a.op).p);
  }

  lemma SideKeepsSafe(p: Pair, op: Op)
    requires Safe(p) && Enabled(p, op)
    ensures Step(p, op).Next? && Safe(Step(p, op).p)
  {
    if op.Deliver? {
      DeliveryKeepsSafe(p);
    } else if op.DoHiccup? {
      NoDangling(p);
      if p.me.state == Active {
        HiccupKeepsSafe(p, p.(me := HiccupIn(Load(p), op.address).e,
                              toPeer := p.toPeer + News(p.me, HiccupIn(Load(p), op.address).e),
                              heap := p.heap[op.address := Fresh()]), op.address);
      }
    } else {
      CallKeepsSafe(p, op);
    }
  }

  lemma RunLength(ps: seq<Pair>, ls: seq<Label>)
    requires Run(ps, ls)
    ensures |ps| == |ls| + 1
  {
    hide StepAt, EnabledAt, FreshPair;
  }

  lemma RunNext(ps: seq<Pair>, ls: seq<Label>, n: nat)
    requires Run(ps, ls) && n < |ls|
    ensures |ps| == |ls| + 1 && EnabledAt(ps[n], ls[n]) && StepAt(ps[n], ls[n]) == Next(ps[n + 1])
  {
    hide StepAt, EnabledAt, FreshPair;
  }

  lemma FreshIsSafe(up1: nat, up2: nat, hwms0: int, hwms1: int)
    requires up1 != up2
    ensures Safe(FreshPair(up1, up2, hwms0, hwms1))
  {
    var p := FreshPair(up1, up2, hwms0, hwms1);
    assert Chain(p) == [up1] && Chain(Flip(p)) == [up2];
    assert p.heap.Keys == {up1, up2};
  }

  lemma {:induction false} RunIsSafe(ps: seq<Pair>, ls: seq<Label>, n: nat)
    requires Run(ps, ls) && n < |ps|
    ensures Safe(ps[n])
  {
    if n == 0 {
      var up1, up2, hwms0, hwms1 :| up1 != up2 && ps[0] == FreshPair(up1, up2, hwms0, hwms1);
      FreshIsSafe(up1, up2, hwms0, hwms1);
    } else {
      RunIsSafe(ps, ls, n - 1);
      StepKeepsSafe(ps[n - 1], ls[n - 1]);
    }
  }

  /** In every run: no assertion fails, no freed pipe or ypipe is touched, each endpoint
      acknowledges at most once and then stays silent, and two freed endpoints leave no ypipe. */
  lemma PipesAreSafe(ps: seq<Pair>, ls: seq<Label>, n: nat)
    requires Run(ps, ls) && n < |ps|
    ensures forall a: Label | EnabledAt(ps[n], a) :: StepAt(ps[n], a).Next?
    ensures forall i | 0 <= i < |ps[n].me.sent| :: ps[n].me.sent[i] == PipeTermAck ==> i == |ps[n].me.sent| - 1
    ensures forall i | 0 <= i < |ps[n].peer.sent| :: ps[n].peer.sent[i] == PipeTermAck ==> i == |ps[n].peer.sent| - 1
    ensures ps[n].me.freed ==> PipeTermAck in ps[n].me.sent && PipeTermAck in ps[n].peer.sent
    ensures ps[n].me.freed && ps[n].peer.freed ==> ps[n].heap == map[] && ps[n].toMe == ps[n].toPeer == []
  {
    RunIsSafe(ps, ls, n);
    var p := ps[n];
    forall a: Label | EnabledAt(p, a)
      ensures StepAt(p, a).Next?
    {
      StepKeepsSafe(p, a);
    }
    if p.me.freed && p.peer.freed {
      assert Chain(p) == [] && Chain(Flip(p)) == [];
      assert multiset(p.heap.Keys) == multiset{};
      assert forall k | k in p.heap.Keys :: k in multiset(p.heap.Keys);
    }
  }

  // Runs look the same from both sides.

  function FlipAll(ps: seq<Pair>): (qs: seq<Pair>)
    ensures |qs| == |ps| && forall i | 0 <= i < |ps| :: qs[i] == Flip(ps[i])
  {
    seq(|ps|, i requires 0 <= i < |ps| => Flip(ps[i]))
  }

  function Mirror(ls: seq<Label>): (ms: seq<Label>)
    ensures |ms| == |ls| && forall i | 0 <= i < |ls| :: ms[i] == Label(!ls[i].mine, ls[i].op)
  {
    seq(|ls|, i requires 0 <= i < |ls| => Label(!ls[i].mine, ls[i].op))
  }

  lemma FlipRun(ps: seq<Pair>, ls: seq<Label>)
    requires Run(ps, ls)
    ensures Run(FlipAll(ps), Mirror(ls))
  {
    var up1, up2, hwms0, hwms1 :| up1 != up2 && ps[0] == FreshPair(up1, up2, hwms0, hwms1);
    assert Flip(ps[0]) == FreshPair(up2, up1, hwms1, hwms0);
    forall i | 0 <= i < |ls|
      ensures EnabledAt(Flip(ps[i]), Mirror(ls)[i])
      ensures StepAt(Flip(ps[i]), Mirror(ls)[i]) == Next(Flip(ps[i + 1]))
    {
      hide Step;
      assert Flip(Flip(ps[i])) == ps[i];
      assert EnabledAt(ps[i], ls[i]) && StepAt(ps[i], ls[i]) == Next(ps[i + 1]);
    }
  }

  lemma FourSteps(p0: Pair, p1: Pair, p2: Pair, p3: Pair, p4: Pair, a0: Label, a1: Label, a2: Label, a3: Label, hwms: int)
    requires p0 == FreshPair(1, 2, hwms, hwms)
    requires EnabledAt(p0, a0) && StepAt(p0, a0) == Next(p1)
    requires EnabledAt(p1, a1) && StepAt(p1, a1) == Next(p2)
    requires EnabledAt(p2, a2) && StepAt(p2, a2) == Next(p3)
    requires EnabledAt(p3, a3) && StepAt(p3, a3) == Next(p4)
    ensures Run([p0, p1, p2, p3, p4], [a0, a1, a2, a3])
  {
    hide StepAt, EnabledAt, FreshPair;
  }
}
