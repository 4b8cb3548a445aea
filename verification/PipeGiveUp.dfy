/** What set_nodelay and terminate (false) are for: an endpoint that does not want to linger is freed
    however much is left unread. */
module PipeGiveUp {
  import opened Options
  import opened Ypipe
  import opened PipeStep
  import opened PipePair
  import opened PipeStream
  import opened PipeHiccup
  import opened PipeLinger
  import opened PipeTermination
  import opened PipeAnswers

  // ------------------------------------------------------------------------------------------
  // What the user asked for last
  // ------------------------------------------------------------------------------------------

  /** Whether one side wants its peer's messages before it acknowledges: what it said last in the first `n` steps. */
  function WantsDelay(ls: seq<Label>, n: nat, mine: bool): bool
    requires n <= |ls|
  {
    if n == 0 then true
    else if ls[n - 1] == Label(mine, DoSetNodelay) || ls[n - 1] == Label(mine, DoTerminate(false)) then false
    else WantsDelay(ls, n - 1, mine) || ls[n - 1] == Label(mine, DoTerminate(true))
  }

  /** One side called set_nodelay in the first `n` steps while it waited for the delimiter. */
  predicate NodelayWhileWaiting(ps: seq<Pair>, ls: seq<Label>, n: nat, mine: bool)
    requires n <= |ls| && |ps| == |ls| + 1
  {
    exists i :: 0 <= i < n && ls[i] == Label(mine, DoSetNodelay) && Side(ps[i], mine).me.state == WaitingForDelimiter
  }

  /** An endpoint that waits although it does not want to. */
  predicate Trapped(e: Endpoint) {
    e.state == WaitingForDelimiter && !e.delay
  }

  predicate Gone(e: Endpoint) {
    e.state == TermAckSent
  }

  /** What one step does to the wish to linger and to an endpoint that waits. */
  predicate Heeds(e: Endpoint, f: Endpoint, op: Op) {
    && f.delay == (if op == DoSetNodelay || op == DoTerminate(false) then false else e.delay || op == DoTerminate(true))
    && (Trapped(f) ==> Trapped(e) || (op == DoSetNodelay && e.state == WaitingForDelimiter))
    && (e.state == WaitingForDelimiter && op == DoTerminate(false) ==> Gone(f))
    && (Gone(e) ==> Gone(f))
  }

  lemma {:induction false} ReadHeeds(l: Local)
    requires Reading(l.e)
    ensures Heeds(l.e, ReadFrames(l).0.e, DoRead)
    decreases |l.inq.ready|
  {
    if l.inq.ready != [] && l.inq.ready[0].Frame? && l.inq.ready[0].credential {
      ReadHeeds(Take(l));
    }
  }

  lemma TerminateHeeds(l: Local, delay: bool)
    ensures Heeds(l.e, Terminate(l, delay).e, DoTerminate(delay))
  {
    var s := StartTerminate(l, delay);
    var f := CloseOut(s).e;
    assert f.state == s.e.state && f.delay == s.e.delay;
    hide CloseOut;
  }

  lemma CallHeeds(l: Local, op: Op)
    requires Plain(op)
    ensures Heeds(l.e, Call(l, op).e, op)
  {
    hide ReadFrames, Terminate;
    if op.DoTerminate? {
      TerminateHeeds(l, op.delay);
    } else if op.DoRead? && CanRead(l.e) {
      ReadHeeds(l);
    }
  }

  lemma ReactHeeds(l: Local, c: Command)
    requires Reacts(l.e, c)
    ensures Heeds(l.e, React(l, c).e, Deliver)
  {
  }

  lemma SameHeeds(e: Endpoint, f: Endpoint, op: Op)
    requires f.state == e.state && f.delay == e.delay && (op.Deliver? || op.DoHiccup?)
    ensures Heeds(e, f, op)
  {
  }

  lemma DeliveryHeeds(p: Pair)
    requires Safe(p) && p.toMe != []
    ensures Process(p).Next? && Heeds(p.me, Process(p).p.me, Deliver)
  {
    DeliveryKeepsSafe(p);
    hide *;
    ProcessMe(p);
    if Reacts(p.me, p.toMe[0]) {
      LoadIs(p);
      ReactHeeds(Load(p), p.toMe[0]);
    } else {
      SameHeeds(p.me, Process(p).p.me, Deliver);
    }
  }

  lemma StepHeeds(p: Pair, op: Op)
    requires Safe(p) && Enabled(p, op)
    ensures Step(p, op).Next? && Heeds(p.me, Step(p, op).p.me, op)
  {
    hide Safe, Step, Heeds, Process;
    if op.Deliver? {
      ProcessIsStep(p);
      DeliveryHeeds(p);
    } else if op.DoHiccup? {
      HiccupEffect(p, op.address);
      SameHeeds(p.me, Step(p, op).p.me, op);
    } else {
      CallStep(p, op);
      hide *;
      LoadIs(p);
      StoreMe(p, Call(Load(p), op));
      CallHeeds(Load(p), op);
    }
  }

  lemma RunHeeds(ps: seq<Pair>, ls: seq<Label>, n: nat, mine: bool)
    requires Run(ps, ls) && n < |ls|
    ensures |ps| == |ls| + 1
    ensures var e, f := Side(ps[n], mine).me, Side(ps[n + 1], mine).me;
            if ls[n].mine == mine then Heeds(e, f, ls[n].op) else f == e
  {
    RunLength(ps, ls);
    hide *;
    if ls[n].mine == mine {
      RunSide(ps, ls, n);
      StepHeeds(Side(ps[n], mine), ls[n].op);
    } else {
      RunOther(ps, ls, n, mine);
    }
  }

  lemma StartDelays(ps: seq<Pair>, ls: seq<Label>, mine: bool)
    requires Run(ps, ls)
    ensures Side(ps[0], mine).me.delay && !Trapped(Side(ps[0], mine).me)
  {
  }

  /** In every run `delay` is what the user said last. */
  lemma {:induction false} DelayIsTheLastWish(ps: seq<Pair>, ls: seq<Label>, n: nat, mine: bool)
    requires Run(ps, ls) && n < |ps| == |ls| + 1
    ensures Side(ps[n], mine).me.delay == WantsDelay(ls, n, mine)
  {
    if n == 0 {
      StartDelays(ps, ls, mine);
    } else {
      DelayIsTheLastWish(ps, ls, n - 1, mine);
      RunHeeds(ps, ls, n - 1, mine);
      hide Run, Side;
    }
  }

  lemma NodelayLater(ps: seq<Pair>, ls: seq<Label>, n: nat, mine: bool)
    requires n < |ls| && |ps| == |ls| + 1
    ensures ls[n] == Label(mine, DoSetNodelay) && Side(ps[n], mine).me.state == WaitingForDelimiter
            ==> NodelayWhileWaiting(ps, ls, n + 1, mine)
    ensures NodelayWhileWaiting(ps, ls, n, mine) ==> NodelayWhileWaiting(ps, ls, n + 1, mine)
  {
  }

  lemma NextIsFree(ps: seq<Pair>, ls: seq<Label>, n: nat, mine: bool)
    requires n < |ls| && |ps| == |ls| + 1 && !NodelayWhileWaiting(ps, ls, n + 1, mine)
    requires var e, f := Side(ps[n], mine).me, Side(ps[n + 1], mine).me;
             !Trapped(e) && if ls[n].mine == mine then Heeds(e, f, ls[n].op) else f == e
    ensures !Trapped(Side(ps[n + 1], mine).me)
  {
    NodelayLater(ps, ls, n, mine);
    hide NodelayWhileWaiting, Side;
  }

  lemma {:induction false} RunIsFree(ps: seq<Pair>, ls: seq<Label>, n: nat, mine: bool)
    requires Run(ps, ls) && n < |ps| == |ls| + 1 && !NodelayWhileWaiting(ps, ls, n, mine)
    ensures !Trapped(Side(ps[n], mine).me)
  {
    hide *;
    if n == 0 {
      StartDelays(ps, ls, mine);
    } else {
      NodelayLater(ps, ls, n - 1, mine);
      RunIsFree(ps, ls, n - 1, mine);
      RunHeeds(ps, ls, n - 1, mine);
      NextIsFree(ps, ls, n - 1, mine);
    }
  }

  /** An endpoint that does not want to linger does not wait for the delimiter, unless it was waiting already when
      it said so with set_nodelay. */
  lemma NobodyWaitsAgainstItsWish(ps: seq<Pair>, ls: seq<Label>, n: nat, mine: bool)
    requires Run(ps, ls) && n < |ps| == |ls| + 1
    requires Side(ps[n], mine).me.state == WaitingForDelimiter && !WantsDelay(ls, n, mine)
    ensures NodelayWhileWaiting(ps, ls, n, mine)
  {
    DelayIsTheLastWish(ps, ls, n, mine);
    hide Run, Side, WantsDelay, NodelayWhileWaiting;
    if !NodelayWhileWaiting(ps, ls, n, mine) {
      RunIsFree(ps, ls, n, mine);
    }
  }

  // ------------------------------------------------------------------------------------------
  // Giving up
  // ------------------------------------------------------------------------------------------

  /** Nothing is under way between the endpoints; what is unread does not matter. */
  predicate Idle(p: Pair) {
    p.toMe == [] && p.toPeer == []
  }

  /** Once one endpoint has acknowledged, an idle pair is a pair of freed endpoints. */
  lemma AcknowledgedIsFreed(p: Pair)
    requires Safe(p) && Idle(p) && SentAck(p.me)
    ensures p.me.freed && p.peer.freed
  {
    SafeParts(p);
  }

  lemma StaysGone(ps: seq<Pair>, ls: seq<Label>, n: nat, mine: bool)
    requires n < |ls| && |ps| == |ls| + 1 && Gone(Side(ps[n], mine).me)
    requires var e, f := Side(ps[n], mine).me, Side(ps[n + 1], mine).me;
             if ls[n].mine == mine then Heeds(e, f, ls[n].op) else f == e
    ensures Gone(Side(ps[n + 1], mine).me)
  {
  }

  lemma {:induction false} GoneForGood(ps: seq<Pair>, ls: seq<Label>, n: nat, m: nat, mine: bool)
    requires Run(ps, ls) && n <= m < |ps| && Gone(Side(ps[n], mine).me)
    ensures Gone(Side(ps[m], mine).me)
  {
    hide *;
    if n < m {
      RunLength(ps, ls);
      GoneForGood(ps, ls, n, m - 1, mine);
      RunHeeds(ps, ls, m - 1, mine);
      StaysGone(ps, ls, m - 1, mine);
    }
  }

  /** An endpoint that calls terminate (false) while it waits for the delimiter gives up its outpipe, has acknowledged
      from then on, and as soon as no command is under way the whole pair is freed, however much is unread. */
  lemma GivingUpFreesThePair(ps: seq<Pair>, ls: seq<Label>, n: nat, m: nat, mine: bool)
    requires Run(ps, ls) && n < m < |ps| == |ls| + 1
    requires ls[n] == Label(mine, DoTerminate(false)) && Side(ps[n], mine).me.state == WaitingForDelimiter
    ensures var e := Side(ps[m], mine).me; Gone(e) && e.outpipe == None && PipeTermAck in e.sent
    ensures Idle(ps[m]) ==> ps[m].me.freed && ps[m].peer.freed && ps[m].heap == map[]
  {
    RunHeeds(ps, ls, n, mine);
    GoneForGood(ps, ls, n + 1, m, mine);
    RunIsSafe(ps, ls, m);
    PipesAreSafe(ps, ls, m);
    FlipSafe(ps[m]);
    var p := Side(ps[m], mine);
    assert SentAck(p.me);
    hide Run, Safe;
    SafeParts(p);
    if Idle(ps[m]) {
      AcknowledgedIsFreed(p);
    }
  }

  /** pipe_term is acknowledged at once, exactly unless it finds the endpoint active and wanting to linger; then the
      endpoint waits. */
  lemma TermIsAcknowledged(ps: seq<Pair>, ls: seq<Label>, n: nat, mine: bool)
    requires Run(ps, ls) && n < |ls| && |ps| == |ls| + 1
    requires var p := Side(ps[n], mine); ls[n] == Label(mine, Deliver) && p.toMe != [] && p.toMe[0] == PipeTerm
    ensures var e, f := Side(ps[n], mine).me, Side(ps[n + 1], mine).me;
            if e.state == Active && WantsDelay(ls, n, mine) then f.state == WaitingForDelimiter && f.sent == e.sent
            else PipeTermAck in f.sent && f.outpipe == None
  {
    DelayIsTheLastWish(ps, ls, n, mine);
    RunSide(ps, ls, n);
    var p, q := Side(ps[n], mine), Side(ps[n + 1], mine);
    hide Run, Side, WantsDelay, Step;
    ProcessIsStep(p);
    DeliveryKeepsSafe(p);
    SafeParts(p);
    TermIsExpected(p);
    hide Safe, Process, Half, LastWord;
    ProcessMe(p);
    LoadIs(p);
    TermAcknowledges(Load(p));
  }

  lemma TermAcknowledges(l: Local)
    requires TermExpected(l.e)
    ensures var f := ProcessPipeTerm(l).e;
            if l.e.state == Active && l.e.delay then f.state == WaitingForDelimiter && f.sent == l.e.sent
            else PipeTermAck in f.sent && f.outpipe == None
  {
  }
}
