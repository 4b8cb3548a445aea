/** Termination of a pipe pair does not get stuck, unless a hiccup crosses it.

    The condition is exact: a pair at rest is freed unless an endpoint waits for a delimiter that its
    peer put into a ypipe which a hiccup had already replaced. */
module PipeTermination {
  import opened Options
  import opened Ypipe
  import opened PipeStep
  import opened PipePair
  import opened PipeStream
  import opened PipeHiccup
  import opened PipeLinger

  /** The pair as one of its endpoints sees it. */
  function Side(p: Pair, mine: bool): Pair {
    if mine then p else Flip(p)
  }

  /** The next command to `me` is a hiccup. */
  predicate HiccupNext(p: Pair) {
    p.toMe != [] && p.toMe[0].Hiccup?
  }

  /** One side called terminate in the first `n` steps. */
  predicate CalledTerminate(ls: seq<Label>, n: nat, mine: bool)
    requires n <= |ls|
  {
    exists i :: 0 <= i < n && ls[i].mine == mine && ls[i].op.DoTerminate?
  }

  /** One side took a hiccup in step `i`, after it had called terminate. */
  predicate LateHiccupAt(ps: seq<Pair>, ls: seq<Label>, i: nat, mine: bool)
    requires i < |ls| && |ps| == |ls| + 1
  {
    ls[i] == Label(mine, Deliver) && HiccupNext(Side(ps[i], mine)) && CalledTerminate(ls, i, mine)
  }

  predicate TookLateHiccup(ps: seq<Pair>, ls: seq<Label>, n: nat, mine: bool)
    requires n <= |ls| && |ps| == |ls| + 1
  {
    exists i :: 0 <= i < n && LateHiccupAt(ps, ls, i, mine)
  }

  // ------------------------------------------------------------------------------------------
  // The delimiter is lost exactly if a hiccup was late
  // ------------------------------------------------------------------------------------------

  predicate Undecided(e: Endpoint) {
    e.state == Active || e.state == DelimiterReceived
  }

  /** What a step of `me` does to its side of the handshake. */
  ghost predicate Handshake(p: Pair, q: Pair, op: Op) {
    && q.peer == p.peer
    && (SentTerm(p.me) ==> SentTerm(q.me))
    && (SentTerm(p.me) ==> q.me.closed == if op.Deliver? && HiccupNext(p) then 0 else p.me.closed)
    && (!SentTerm(p.me) && SentTerm(q.me) ==> op.DoTerminate? && q.me.closed > 0)
    && (op.DoTerminate? || !Undecided(p.me) ==> !Undecided(q.me))
    && (op.Deliver? && HiccupNext(p) ==> !GotTerm(p.me))
  }

  lemma CallHandshake(l: Local, op: Op)
    requires Plain(op) && !l.e.freed && (l.e.outpipe == None <==> SentAck(l.e))
    ensures var f := Call(l, op).e;
            && (SentTerm(l.e) ==> SentTerm(f) && f.closed == l.e.closed)
            && (!SentTerm(l.e) && SentTerm(f) ==> op.DoTerminate? && f.closed > 0)
            && (op.DoTerminate? || !Undecided(l.e) ==> !Undecided(f))
  {
    if op.DoRead? && CanRead(l.e) {
      ReadLeavesWriter(l);
    }
  }

  lemma DeliveryHandshake(p: Pair)
    requires Safe(p) && p.toMe != []
    ensures Process(p).Next? && Handshake(p, Process(p).p, Deliver)
  {
    hide Safe, Process, HiccupPipes, ReaderIdle;
    if HiccupNext(p) {
      HiccupTaken(p);
    } else if p.toMe[0] == PipeTermAck {
      AckStep(p);
    } else {
      DeliveryStep(p);
    }
  }

  lemma PublicHandshake(p: Pair, op: Op)
    requires Safe(p) && Enabled(p, op) && Plain(op)
    ensures Step(p, op).Next? && Handshake(p, Step(p, op).p, op)
  {
    CallStep(p, op);
    OutOrAck(p.me);
    assert !p.me.freed;
    hide *;
    CallHandshake(Load(p), op);
    StoreMe(p, Call(Load(p), op));
    PlainHandshake(p, Step(p, op).p, op);
  }

  lemma PlainHandshake(p: Pair, q: Pair, op: Op)
    requires Plain(op) && q.peer == p.peer
    requires SentTerm(p.me) ==> SentTerm(q.me) && q.me.closed == p.me.closed
    requires !SentTerm(p.me) && SentTerm(q.me) ==> op.DoTerminate? && q.me.closed > 0
    requires op.DoTerminate? || !Undecided(p.me) ==> !Undecided(q.me)
    ensures Handshake(p, q, op)
  {
  }

  lemma StepHandshake(p: Pair, op: Op)
    requires Safe(p) && Enabled(p, op)
    ensures Step(p, op).Next? && Handshake(p, Step(p, op).p, op)
  {
    hide Safe, Step, Handshake;
    if op.Deliver? {
      ProcessIsStep(p);
      DeliveryHandshake(p);
    } else if op.DoHiccup? {
      HiccupEffect(p, op.address);
      HiccupHandshake(p, Step(p, op).p, op);
    } else {
      PublicHandshake(p, op);
    }
  }

  lemma HiccupHandshake(p: Pair, q: Pair, op: Op)
    requires op.DoHiccup? && q.peer == p.peer && q.me.state == p.me.state && q.me.closed == p.me.closed
    ensures Handshake(p, q, op)
  {
  }

  /** One step of a run, from the point of view of one side. */
  lemma RunStep(ps: seq<Pair>, ls: seq<Label>, n: nat, mine: bool)
    requires Run(ps, ls) && n < |ls|
    ensures var p, q, a := Side(ps[n], mine), Side(ps[n + 1], mine), ls[n];
            if a.mine == mine then Enabled(p, a.op) && Handshake(p, q, a.op) else q.me == p.me
  {
    RunIsSafe(ps, ls, n);
    var p, a := ps[n], ls[n];
    assert EnabledAt(p, a) && StepAt(p, a) == Next(ps[n + 1]);
    FlipSafe(p);
    hide Safe, Step, Handshake, Enabled, Run;
    StepHandshake(Side(p, a.mine), a.op);
    SamePeer(Side(p, a.mine), a.op);
  }

  lemma SamePeer(p: Pair, op: Op)
    requires Enabled(p, op) && Step(p, op).Next? && Handshake(p, Step(p, op).p, op)
    ensures Step(p, op).p.peer == p.peer
  {
    hide Step;
  }

  /** `called`: the endpoint called terminate; `late`: it took a hiccup after that. */
  predicate Tells(e: Endpoint, called: bool, late: bool) {
    (SentTerm(e) ==> called) && (called ==> !Undecided(e)) && (Lost(e) <==> late)
  }

  lemma StepTells(p: Pair, q: Pair, op: Op, called: bool, late: bool)
    requires Handshake(p, q, op) && Tells(p.me, called, late)
    ensures Tells(q.me, called || op.DoTerminate?, late || (op.Deliver? && HiccupNext(p) && called))
  {
  }

  lemma StartTells(ps: seq<Pair>, ls: seq<Label>, mine: bool)
    requires Run(ps, ls)
    ensures Tells(Side(ps[0], mine).me, CalledTerminate(ls, 0, mine), TookLateHiccup(ps, ls, 0, mine))
  {
  }

  /** The state of one side tells whether it called terminate, and `closed` whether a hiccup came too late. */
  lemma {:induction false} RunTellsLost(ps: seq<Pair>, ls: seq<Label>, n: nat, mine: bool)
    requires Run(ps, ls) && n < |ps|
    ensures Tells(Side(ps[n], mine).me, CalledTerminate(ls, n, mine), TookLateHiccup(ps, ls, n, mine))
  {
    hide *;
    RunLength(ps, ls);
    if n > 0 {
      RunTellsLost(ps, ls, n - 1, mine);
      NextTells(ps, ls, n - 1, mine);
    } else {
      StartTells(ps, ls, mine);
    }
  }

  lemma NextTells(ps: seq<Pair>, ls: seq<Label>, n: nat, mine: bool)
    requires Run(ps, ls) && n < |ls| && |ps| == |ls| + 1
    requires Tells(Side(ps[n], mine).me, CalledTerminate(ls, n, mine), TookLateHiccup(ps, ls, n, mine))
    ensures Tells(Side(ps[n + 1], mine).me, CalledTerminate(ls, n + 1, mine), TookLateHiccup(ps, ls, n + 1, mine))
  {
    hide Run, Enabled, Tells, Handshake, CalledTerminate, TookLateHiccup, Side;
    RunStep(ps, ls, n, mine);
    CalledLater(ls, n, mine);
    LateLater(ps, ls, n, mine);
    if ls[n].mine == mine {
      StepTells(Side(ps[n], mine), Side(ps[n + 1], mine), ls[n].op, CalledTerminate(ls, n, mine), TookLateHiccup(ps, ls, n, mine));
    }
  }

  lemma CalledLater(ls: seq<Label>, n: nat, mine: bool)
    requires n < |ls|
    ensures CalledTerminate(ls, n + 1, mine) <==> CalledTerminate(ls, n, mine) || (ls[n].mine == mine && ls[n].op.DoTerminate?)
  {
  }

  lemma LateLater(ps: seq<Pair>, ls: seq<Label>, n: nat, mine: bool)
    requires n < |ls| && |ps| == |ls| + 1
    ensures TookLateHiccup(ps, ls, n + 1, mine) <==> TookLateHiccup(ps, ls, n, mine) || LateHiccupAt(ps, ls, n, mine)
  {
    hide LateHiccupAt;
  }

  // ------------------------------------------------------------------------------------------
  // Pairs at rest
  // ------------------------------------------------------------------------------------------

  /** Every step keeps both directions flowing or cut. */
  lemma StepFlows(p: Pair, a: Label)
    requires Safe(p) && Flows(p) && Flows(Flip(p)) && EnabledAt(p, a)
    ensures StepAt(p, a).Next? && Flows(StepAt(p, a).p) && Flows(Flip(StepAt(p, a).p))
  {
    FlipSafe(p);
    assert Flip(Flip(p)) == p;
    hide Safe, Flows, Step, Enabled;
    ReaderFlows(Side(p, a.mine), a.op);
    WriterFlows(Side(p, a.mine), a.op);
  }

  lemma StartFlows(p: Pair)
    requires exists up1, up2, hwms0, hwms1 :: up1 != up2 && p == FreshPair(up1, up2, hwms0, hwms1)
    ensures Flows(p) && Flows(Flip(p))
  {
    var up1, up2, hwms0, hwms1 :| up1 != up2 && p == FreshPair(up1, up2, hwms0, hwms1);
    FreshInStream(p, up1, up2, hwms0, hwms1);
    assert Flip(p).toMe == [] && Flip(p).heap == FreshPair(up2, up1, hwms1, hwms0).heap;
    FreshInStream(FreshPair(up2, up1, hwms1, hwms0), up2, up1, hwms1, hwms0);
    hide Stream;
  }

  lemma {:induction false} RunFlows(ps: seq<Pair>, ls: seq<Label>, n: nat)
    requires Run(ps, ls) && n < |ps|
    ensures Safe(ps[n]) && Flows(ps[n]) && Flows(Flip(ps[n]))
  {
    RunIsSafe(ps, ls, n);
    if n == 0 {
      hide FreshPair, Flows, Safe;
      StartFlows(ps[0]);
    } else {
      RunFlows(ps, ls, n - 1);
      hide *;
      RunNext(ps, ls, n - 1);
      StepFlows(ps[n - 1], ls[n - 1]);
    }
  }

  /** No endpoint that waits for its delimiter has something it could read right away. */
  predicate ReadOut(p: Pair) {
    p.me.state == WaitingForDelimiter && p.me.inActive && p.me.inpipe in p.heap ==> p.heap[p.me.inpipe].ready == []
  }

  /** Somebody left the active state, no command is under way, and nobody has something to read. */
  predicate AtRest(p: Pair) {
    && (p.me.state != Active || p.peer.state != Active)
    && p.toMe == [] && p.toPeer == [] && ReadOut(p) && ReadOut(Flip(p))
  }

  predicate Waits(e: Endpoint) {
    e.state == WaitingForDelimiter && !e.freed
  }

  /** A waiting endpoint whose stream is not cut has something to read, and is active or owed a wake-up. */
  lemma WaitingHasMore(p: Pair)
    requires Safe(p) && Flows(p) && !Cut(p) && Waits(p.me)
    ensures p.me.inpipe in p.heap && p.heap[p.me.inpipe].ready != []
    ensures p.me.inActive || ActivateRead in p.toMe
  {
    var q := p.heap[p.me.inpipe];
    assert SentTerm(p.peer) && p.peer.closed == 1 && q.done == [];
    assert (p.me.got + q.ready + q.done)[|p.peer.written|] == Delimiter;
    assert Delimiter in p.me.got + q.ready + q.done;
  }

  /** At rest, whoever waits has lost its delimiter. */
  lemma RestingWaitsForever(p: Pair)
    requires Safe(p) && Flows(p) && AtRest(p) && Waits(p.me)
    ensures Lost(p.peer)
  {
    if !Lost(p.peer) {
      WaitingHasMore(p);
    }
  }

  /** At rest, if nobody waits for a delimiter then both endpoints are freed. */
  lemma RestingIsFreed(p: Pair)
    requires Safe(p) && Flows(p) && Flows(Flip(p)) && AtRest(p) && p.me.state != Active && !Waits(p.me) && !Waits(p.peer)
    ensures p.me.freed && p.peer.freed
  {
    assert p.me.state == DelimiterReceived && !p.me.freed ==> SentTerm(p.peer);
    assert p.peer.state == DelimiterReceived && !p.peer.freed ==> SentTerm(p.me);
    hide Flows;
  }

  /** One side waits for a delimiter that went down with a replaced ypipe. */
  predicate Stuck(ps: seq<Pair>, ls: seq<Label>, n: nat, mine: bool)
    requires n <= |ls| && |ps| == |ls| + 1
  {
    Waits(Side(ps[n], mine).me) && TookLateHiccup(ps, ls, n, !mine)
  }

  /** Once somebody left the active state, an idle pair with nothing left to deliver or to read is a pair of
      freed endpoints, exactly unless one of them waits for a peer that took a hiccup after its own terminate. */
  lemma FreedUnlessStuck(ps: seq<Pair>, ls: seq<Label>, n: nat)
    requires Run(ps, ls) && n < |ps| && AtRest(ps[n])
    ensures ps[n].me.freed && ps[n].peer.freed <==> !Stuck(ps, ls, n, true) && !Stuck(ps, ls, n, false)
    ensures ps[n].me.freed && ps[n].peer.freed ==> ps[n].heap == map[]
  {
    var p := ps[n];
    RunFlows(ps, ls, n);
    PipesAreSafe(ps, ls, n);
    RunTellsLost(ps, ls, n, true);
    RunTellsLost(ps, ls, n, false);
    FlipSafe(p);
    assert Flip(Flip(p)) == p;
    hide Run, Safe, Flows, Lost, TookLateHiccup, CalledTerminate;
    if Waits(p.me) {
      RestingWaitsForever(p);
    } else if Waits(p.peer) {
      RestingWaitsForever(Flip(p));
    } else if p.me.state != Active {
      RestingIsFreed(p);
    } else {
      RestingIsFreed(Flip(p));
    }
  }

  /** Without a late hiccup termination does not get stuck. */
  lemma TerminationIsNotStuck(ps: seq<Pair>, ls: seq<Label>, n: nat)
    requires Run(ps, ls) && n < |ps| && AtRest(ps[n])
    requires !TookLateHiccup(ps, ls, n, true) && !TookLateHiccup(ps, ls, n, false)
    ensures ps[n].me.freed && ps[n].peer.freed && ps[n].heap == map[]
  {
    hide Run, TookLateHiccup, AtRest;
    FreedUnlessStuck(ps, ls, n);
  }

  lemma NoHiccupIsNotLate(ps: seq<Pair>, ls: seq<Label>, n: nat)
    requires Run(ps, ls) && n < |ps| && NoHiccup(ls, true)
    ensures !TookLateHiccup(ps, ls, n, false)
  {
    forall i | 0 <= i < n
      ensures !LateHiccupAt(ps, ls, i, false)
    {
      RunInStream(ps, ls, i);
      hide Run, Safe, Stream;
    }
  }

  // ------------------------------------------------------------------------------------------
  // Whoever is stuck stays so
  // ------------------------------------------------------------------------------------------

  /** An endpoint that waits on an empty ypipe goes on waiting, unless it gives up with terminate (false). */
  lemma WaiterCall(l: Local, op: Op)
    requires Plain(op) && l.e.state == WaitingForDelimiter && l.inq.ready == [] && op != DoTerminate(false)
    ensures Call(l, op).e.state == WaitingForDelimiter
  {
  }

  lemma WaiterDelivery(p: Pair)
    requires Safe(p) && Lost(p.peer) && Waits(p.me) && p.toMe != []
    ensures Process(p).Next? && Waits(Process(p).p.me)
  {
    DeliveryKeepsSafe(p);
    SafeParts(p);
    PopHead(p.toMe);
    if p.toMe[0] == PipeTermAck {
      AckIsExpected(p);
    }
    hide Safe, React, Process, Half, HiccupPipes, Shape, LastWord;
    ProcessMe(p);
    if Reacts(p.me, p.toMe[0]) {
      WaiterReacts(Load(p), p.toMe[0]);
    }
  }

  lemma WaiterReacts(l: Local, c: Command)
    requires Reacts(l.e, c) && Waits(l.e)
    ensures Waits(React(l, c).e)
  {
  }

  lemma WaiterStep(p: Pair, op: Op)
    requires Safe(p) && Flows(p) && Lost(p.peer) && Waits(p.me) && Enabled(p, op) && op != DoTerminate(false)
    ensures Step(p, op).Next? && Waits(Step(p, op).p.me)
  {
    if op.Deliver? {
      ProcessIsStep(p);
      WaiterDelivery(p);
      hide *;
    } else if op.DoHiccup? {
      HiccupEffect(p, op.address);
      hide Safe, Step, Flows;
    } else {
      CallStep(p, op);
      assert p.me.inpipe in p.heap && p.heap[p.me.inpipe].ready == [];
      hide Safe, Step, Call, Flows;
      WaiterCall(Load(p), op);
      StoreMe(p, Call(Load(p), op));
      MovesPointers(p.me, Call(Load(p), op).e);
      hide Store, Moves;
    }
  }

  /** One side called terminate (false) in the steps from `n` to `m`. */
  predicate GivesUp(ls: seq<Label>, n: nat, m: nat, mine: bool)
    requires n <= m <= |ls|
  {
    exists i :: n <= i < m && ls[i] == Label(mine, DoTerminate(false))
  }

  lemma StuckStep(ps: seq<Pair>, ls: seq<Label>, n: nat, mine: bool)
    requires Run(ps, ls) && n < |ls| && Stuck(ps, ls, n, mine) && ls[n] != Label(mine, DoTerminate(false))
    ensures Stuck(ps, ls, n + 1, mine)
  {
    LateLater(ps, ls, n, !mine);
    RunFlows(ps, ls, n);
    RunTellsLost(ps, ls, n, !mine);
    RunStep(ps, ls, n, mine);
    var p, a := ps[n], ls[n];
    assert EnabledAt(p, a) && StepAt(p, a) == Next(ps[n + 1]);
    FlipSafe(p);
    assert Flip(Flip(p)) == p;
    hide Run, Safe, Flows, Lost, TookLateHiccup, CalledTerminate, Handshake, Step, Enabled;
    if a.mine == mine {
      WaiterStep(Side(p, mine), a.op);
    }
  }

  /** Whoever waits for a lost delimiter waits for ever, unless it gives up. */
  lemma {:induction false} StuckForEver(ps: seq<Pair>, ls: seq<Label>, n: nat, m: nat, mine: bool)
    requires Run(ps, ls) && n <= m < |ps| && Stuck(ps, ls, n, mine) && !GivesUp(ls, n, m, mine)
    ensures Stuck(ps, ls, m, mine)
  {
    hide *;
    RunLength(ps, ls);
    if n < m {
      GivesUpLater(ls, n, m - 1, mine);
      StuckForEver(ps, ls, n, m - 1, mine);
      StuckStep(ps, ls, m - 1, mine);
    }
  }

  lemma GivesUpLater(ls: seq<Label>, n: nat, m: nat, mine: bool)
    requires n <= m < |ls|
    ensures GivesUp(ls, n, m + 1, mine) <==> GivesUp(ls, n, m, mine) || ls[m] == Label(mine, DoTerminate(false))
  {
  }

  // A run in which a hiccup crosses terminate.

  function Crossed(k: nat): Pair
    requires k <= 4
  {
    if k == 0 then FreshPair(1, 2, 0, 0)
    else
      var p := Crossed(k - 1);
      match k
      case 1 =>
        p.(me := p.me.(inpipe := 3, sent := [Command.Hiccup(3)]), toPeer := [Command.Hiccup(3)], heap := p.heap[3 := Fresh()])
      case 2 =>
        p.(peer := p.peer.(state := TermReqSent1, outActive := false, closed := 1, sent := [PipeTerm]),
           toMe := [PipeTerm], heap := p.heap[1 := Queue([Delimiter], [], [], false)])
      case 3 =>
        p.(peer := p.peer.(outActive := true, closed := 0, outpipe := Some(3), msgsWritten := -1), toPeer := [], heap := p.heap - {1})
      case 4 => p.(me := p.me.(state := WaitingForDelimiter), toMe := [])
  }

  function CrossedLabel(k: nat): Label
    requires k < 4
  {
    match k
    case 0 => Label(true, DoHiccup(3))
    case 1 => Label(false, DoTerminate(true))
    case 2 => Label(false, Deliver)
    case 3 => Label(true, Deliver)
  }

  lemma CrossedHiccup()
    ensures EnabledAt(Crossed(0), CrossedLabel(0)) && StepAt(Crossed(0), CrossedLabel(0)) == Next(Crossed(1))
  {
    hide Process, Call;
  }

  lemma CrossedTerminate()
    ensures EnabledAt(Crossed(1), CrossedLabel(1)) && StepAt(Crossed(1), CrossedLabel(1)) == Next(Crossed(2))
  {
    hide Process;
    var l := Load(Flip(Crossed(1)));
    assert l.outq == Fresh() && l.e.sent == [];
    assert Terminate(l, true).e == Crossed(2).peer;
    assert Terminate(l, true).outq == Queue([Delimiter], [], [], false) && Terminate(l, true).inq == l.inq;
    hide Terminate;
  }

  lemma CrossedDelivery()
    ensures EnabledAt(Crossed(2), CrossedLabel(2)) && StepAt(Crossed(2), CrossedLabel(2)) == Next(Crossed(3))
  {
    hide React, Call;
    assert [Delimiter][..0] == [] && CountEnds([Delimiter]) == 1;
    var l := Load(Flip(Crossed(2)));
    assert l.outq == Queue([Delimiter], [], [], false);
    assert ProcessHiccup(l, 3, Fresh()).e == Crossed(3).peer;
    hide ProcessHiccup, CountEnds;
  }

  lemma CrossedTerm()
    ensures EnabledAt(Crossed(3), CrossedLabel(3)) && StepAt(Crossed(3), CrossedLabel(3)) == Next(Crossed(4))
  {
    hide Call;
    var p := Crossed(3);
    assert p.toMe == [PipeTerm] && p.me.state == Active && p.me.delay && p.me.inpipe == 3 && p.me.outpipe == Some(2);
    assert 3 in p.heap && 2 in p.heap;
    assert React(Load(p), PipeTerm).e == Crossed(4).me;
    assert Crossed(4).heap == p.heap[3 := p.heap[3]][2 := p.heap[2]];
    hide React;
  }

  lemma CrossedEnds()
    ensures AtRest(Crossed(4)) && Waits(Crossed(4).me) && HiccupNext(Flip(Crossed(2)))
  {
  }

  /** With a hiccup termination can get stuck: the delimiter goes down with the old ypipe.  Nothing is
      under way or left to read, and `me` waits for the delimiter. */
  lemma HiccupLosesTheDelimiter() returns (ps: seq<Pair>, ls: seq<Label>)
    ensures Run(ps, ls) && |ps| == 5 && NoHiccup(ls, false)
    ensures AtRest(ps[4]) && Stuck(ps, ls, 4, true)
  {
    ls := [CrossedLabel(0), CrossedLabel(1), CrossedLabel(2), CrossedLabel(3)];
    ps := [Crossed(0), Crossed(1), Crossed(2), Crossed(3), Crossed(4)];
    assert NoHiccup(ls, false);
    assert ls[1] == Label(false, DoTerminate(true)) && ls[2] == Label(false, Deliver);
    assert Crossed(0) == FreshPair(1, 2, 0, 0);
    CrossedEnds();
    CrossedHiccup();
    CrossedTerminate();
    CrossedDelivery();
    CrossedTerm();
    hide StepAt, EnabledAt, Crossed, CrossedLabel, AtRest, Run, Waits, HiccupNext;
    FourSteps(ps[0], ps[1], ps[2], ps[3], ps[4], ls[0], ls[1], ls[2], ls[3], 0);
    assert CalledTerminate(ls, 2, false);
    assert LateHiccupAt(ps, ls, 2, false);
  }
}
