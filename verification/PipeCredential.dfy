/** How many credential frames it takes to lose a wake-up.

    The writer counts credential frames against its high water mark and the reader does not report
    them.  A writer can be left stopped for ever exactly when hwm - lwm is less than the number of
    credential frames it wrote. */
module PipeCredential {
  import opened Options
  import opened Ypipe
  import opened PipeStep
  import opened PipePair
  import opened PipeStream
  import opened PipeLinger
  import opened PipeFlow

  /** The peer is stopped at its mark, no report is under way to it, and `me` has nothing left to read. */
  ghost predicate Starved(p: Pair) {
    && p.peer.state == Active && !p.peer.outActive
    && (forall c | c in p.toPeer :: !c.ActivateWrite?)
    && p.me.inpipe in p.heap && Unread(p) == 0
  }

  /** A run of a writer with mark `hwm` that wrote at most `k` credential frames and is starved in the end. */
  ghost predicate Starves(ps: seq<Pair>, ls: seq<Label>, hwm: int, k: nat) {
    && Run(ps, ls) && NoHiccup(ls, true) && ps[0].peer.hwm == hwm
    && Skipped(ps[|ls|].peer.written) <= k && Starved(ps[|ls|])
  }

  // ------------------------------------------------------------------------------------------
  // Few credentials never starve the writer
  // ------------------------------------------------------------------------------------------

  lemma {:induction false} SkippedAppend(a: seq<Frame>, b: seq<Frame>)
    ensures Skipped(a + b) == Skipped(a) + Skipped(b)
  {
    if b == [] {
      assert a + b == a;
    } else {
      assert (a + b)[..|a + b| - 1] == a + b[..|b| - 1];
      SkippedAppend(a, b[..|b| - 1]);
    }
  }

  lemma SkippedPrefix(got: seq<Frame>, written: seq<Frame>, n: nat)
    requires got <= written + Delimiters(n)
    ensures Skipped(got) <= Skipped(written)
  {
    var all := written + Delimiters(n);
    assert all == got + all[|got|..];
    SkippedAppend(got, all[|got|..]);
    SkippedAppend(written, Delimiters(n));
    NothingSkipped(Delimiters(n));
  }

  lemma FewDoNotStarve(ps: seq<Pair>, ls: seq<Label>, hwm: int, k: nat)
    requires 0 < hwm <= INT_MAX && Starves(ps, ls, hwm, k)
    ensures k > hwm - (hwm + 1) / 2
  {
    var p := ps[|ls|];
    RunMark(ps, ls, |ls|);
    StoppedWriterIsOwedAWakeUp(ps, ls, |ls|);
    MessagesArriveInOrder(ps, ls, |ls|);
    SkippedPrefix(p.me.got, p.peer.written, p.peer.closed);
  }

  lemma {:induction false} ReadMark(l: Local)
    ensures ReadFrames(l).0.e.hwm == l.e.hwm
    decreases |l.inq.ready|
  {
    if l.inq.ready != [] && l.inq.ready[0].Frame? && l.inq.ready[0].credential {
      ReadMark(Take(l));
    }
  }

  lemma CallMark(l: Local, op: Op)
    requires Plain(op)
    ensures Call(l, op).e.hwm == l.e.hwm
  {
    hide ReadFrames, Terminate;
    ReadMark(l);
    if op.DoTerminate? {
      TerminateIsIdle(l, op.delay);
    }
  }

  lemma ProcessMark(p: Pair)
    requires p.toMe != [] && Process(p).Next?
    ensures Process(p).p.me.hwm == p.me.hwm && Process(p).p.peer == p.peer
  {
    ProcessPeer(p);
    if !p.me.freed && !Dangling(p) {
      var rest := p.(toMe := p.toMe[1..]);
      if Reacts(p.me, p.toMe[0]) {
        ReactMark(Load(p), p.toMe[0]);
        StoreMe(rest, React(Load(p), p.toMe[0]));
      } else if p.toMe[0].PipeTermAck? && AckExpected(p.me) {
        StoreMe(rest, ProcessPipeTermAck(Load(p)));
      }
      hide Store, React;
    }
  }

  lemma ReactMark(l: Local, c: Command)
    requires Reacts(l.e, c)
    ensures React(l, c).e.hwm == l.e.hwm
  {
  }

  /** No step changes a high water mark. */
  lemma StepMark(p: Pair, op: Op)
    requires Enabled(p, op) && Step(p, op).Next?
    ensures Step(p, op).p.me.hwm == p.me.hwm && Step(p, op).p.peer == p.peer
  {
    if op.Deliver? {
      ProcessMark(p);
      hide Process;
    } else if op.DoHiccup? {
      hide Process, Call;
    } else if !Dangling(p) {
      CallMark(Load(p), op);
      StoreMe(p, Call(Load(p), op));
      hide Process, Call, Store;
    }
  }

  lemma {:induction false} RunMark(ps: seq<Pair>, ls: seq<Label>, n: nat)
    requires Run(ps, ls) && n < |ps|
    ensures ps[n].peer.hwm == ps[0].peer.hwm
  {
    if n > 0 {
      RunMark(ps, ls, n - 1);
      var p, a := ps[n - 1], ls[n - 1];
      assert EnabledAt(p, a) && StepAt(p, a) == Next(ps[n]);
      hide Step, Enabled, Run;
      if a.mine {
        StepMark(p, a.op);
      } else {
        StepMark(Flip(p), a.op);
      }
    }
  }

  // ------------------------------------------------------------------------------------------
  // One credential more, and the writer can starve
  // ------------------------------------------------------------------------------------------

  const CREDENTIAL := Frame(0, false, false, true)
  const MESSAGE := Frame(0, false, false, false)

  function Lwm(hwm: nat): nat {
    (hwm + 1) / 2
  }

  /** What the writer writes: less than lwm messages, and then credentials up to the mark. */
  function Script(hwm: nat): (fs: seq<Frame>)
    ensures |fs| == hwm
  {
    seq(hwm, i => if i < Lwm(hwm) - 1 then MESSAGE else CREDENTIAL)
  }

  /** The writer wrote `k` frames. */
  function Filling(hwm: nat, k: nat): Pair
    requires k <= hwm
  {
    var p := FreshPair(1, 2, hwm, hwm);
    p.(peer := p.peer.(written := Script(hwm)[..k], msgsWritten := k),
       heap := p.heap[1 := Queue([], Script(hwm)[..k], [], false)])
  }

  /** Stopped, flushed, and the first `j` messages read. */
  function Draining(hwm: nat, j: nat): Pair
    requires j <= hwm
  {
    var p := Filling(hwm, hwm);
    p.(peer := p.peer.(outActive := false),
       me := p.me.(got := Script(hwm)[..j], msgsRead := j),
       heap := p.heap[1 := Queue(Script(hwm)[j..], [], [], false)])
  }

  function Stopped(hwm: nat): Pair {
    var p := Filling(hwm, hwm);
    p.(peer := p.peer.(outActive := false))
  }

  function Drained(hwm: nat): Pair
    requires hwm > 0
  {
    var p := Draining(hwm, Lwm(hwm) - 1);
    p.(me := p.me.(got := Script(hwm), inActive := false), heap := p.heap[1 := Queue([], [], [], true)])
  }

  lemma WriteFills(hwm: nat, k: nat)
    requires k < hwm <= INT_MAX
    ensures EnabledAt(Filling(hwm, k), Label(false, DoWrite(Script(hwm)[k])))
    ensures StepAt(Filling(hwm, k), Label(false, DoWrite(Script(hwm)[k]))) == Next(Filling(hwm, k + 1))
  {
    hide Process, Terminate, ReadFrames;
    var p, f := Filling(hwm, k), Script(hwm)[k];
    var l := Load(Flip(p));
    assert k % TWO_64 == k;
    assert CheckHwm(l.e) && l.outq == Queue([], Script(hwm)[..k], [], false) && l.inq == Fresh();
    assert Script(hwm)[..k] + [] + [f] == Script(hwm)[..k + 1];
    assert Write(l, f).0.outq == Queue([], Script(hwm)[..k + 1], [], false);
    assert Write(l, f).0.e == Filling(hwm, k + 1).peer;
    hide Script;
  }

  lemma CheckStops(hwm: nat)
    requires 0 < hwm <= INT_MAX
    ensures EnabledAt(Filling(hwm, hwm), Label(false, DoCheckWrite))
    ensures StepAt(Filling(hwm, hwm), Label(false, DoCheckWrite)) == Next(Stopped(hwm))
  {
    hide Process, Terminate, ReadFrames, Script;
    var p := Filling(hwm, hwm);
    var l := Load(Flip(p));
    assert hwm % TWO_64 == hwm;
    assert !CheckHwm(l.e);
    assert CheckWrite(l).0.e == Stopped(hwm).peer;
    assert p.heap == p.heap[2 := p.heap[2]][1 := p.heap[1]];
  }

  lemma FlushPublishes(hwm: nat)
    requires 0 < hwm <= INT_MAX
    ensures EnabledAt(Stopped(hwm), Label(false, DoFlush))
    ensures StepAt(Stopped(hwm), Label(false, DoFlush)) == Next(Draining(hwm, 0))
  {
    hide Process, Terminate, ReadFrames;
    var p := Stopped(hwm);
    var l := Load(Flip(p));
    assert Script(hwm)[..hwm] == Script(hwm) && Script(hwm)[0..] == Script(hwm) && [] + Script(hwm) == Script(hwm) && Script(hwm)[..0] == [];
    assert l.outq == Queue([], Script(hwm), [], false);
    hide Script;
    assert Flush(l).outq == Queue(Script(hwm), [], [], false) && Flush(l).e == Draining(hwm, 0).peer;
  }

  /** A message that does not complete a batch of lwm is counted and not reported. */
  lemma ReadsMessage(l: Local)
    requires l.inq.ready != [] && l.inq.ready[0] == MESSAGE && l.e.msgsRead + 1 < l.e.lwm
    ensures ReadFrames(l).0 ==
            l.(inq := l.inq.(ready := l.inq.ready[1..]), e := l.e.(got := l.e.got + [MESSAGE], msgsRead := l.e.msgsRead + 1))
  {
    assert (l.e.msgsRead + 1) % l.e.lwm == l.e.msgsRead + 1;
  }

  lemma ScriptStep(hwm: nat, j: nat)
    requires j < hwm
    ensures Script(hwm)[..j] + [Script(hwm)[j]] == Script(hwm)[..j + 1] && Script(hwm)[j..][1..] == Script(hwm)[j + 1..]
    ensures Script(hwm)[j..][0] == if j < Lwm(hwm) - 1 then MESSAGE else CREDENTIAL
  {
  }

  lemma ReadDrains(hwm: nat, j: nat)
    requires 0 < hwm <= INT_MAX && j < Lwm(hwm) - 1
    ensures EnabledAt(Draining(hwm, j), Label(true, DoRead))
    ensures StepAt(Draining(hwm, j), Label(true, DoRead)) == Next(Draining(hwm, j + 1))
  {
    hide Process, Terminate, ReadFrames, Script;
    ScriptStep(hwm, j);
    var l := Load(Draining(hwm, j));
    ReadsMessage(l);
    assert ReadFrames(l).0.e == Draining(hwm, j + 1).me;
  }

  /** Credentials only: read swallows them all and falls asleep. */
  lemma {:induction false} ReadSwallows(l: Local)
    requires forall i | 0 <= i < |l.inq.ready| :: l.inq.ready[i] == CREDENTIAL
    ensures ReadFrames(l) ==
            (l.(inq := l.inq.(ready := [], asleep := true), e := l.e.(got := l.e.got + l.inq.ready, inActive := false)), None)
    decreases |l.inq.ready|
  {
    if l.inq.ready != [] {
      ReadSwallows(Take(l));
      assert l.e.got + [l.inq.ready[0]] + l.inq.ready[1..] == l.e.got + l.inq.ready;
    } else {
      assert l.e.got + l.inq.ready == l.e.got;
    }
  }

  lemma LastReadStarves(hwm: nat)
    requires 0 < hwm <= INT_MAX
    ensures var p := Draining(hwm, Lwm(hwm) - 1);
            EnabledAt(p, Label(true, DoRead)) && StepAt(p, Label(true, DoRead)) == Next(Drained(hwm))
  {
    hide Process, Terminate;
    var p := Draining(hwm, Lwm(hwm) - 1);
    var l := Load(p);
    ReadSwallows(l);
    var j := Lwm(hwm) - 1;
    assert Script(hwm)[..j] + Script(hwm)[j..] == Script(hwm);
    assert ReadFrames(l).0.e == Drained(hwm).me;
    assert ReadFrames(l).0.inq == Queue([], [], [], true);
    hide ReadFrames, Script;
  }

  function StateAt(hwm: nat, k: nat): Pair
    requires hwm > 0 && k <= hwm + Lwm(hwm) + 2
  {
    if k <= hwm then Filling(hwm, k)
    else if k == hwm + 1 then Stopped(hwm)
    else if k <= hwm + Lwm(hwm) + 1 then Draining(hwm, k - hwm - 2)
    else Drained(hwm)
  }

  function LabelAt(hwm: nat, k: nat): Label
    requires k < hwm + Lwm(hwm) + 2
  {
    if k < hwm then Label(false, DoWrite(Script(hwm)[k]))
    else if k == hwm then Label(false, DoCheckWrite)
    else if k == hwm + 1 then Label(false, DoFlush)
    else Label(true, DoRead)
  }

  lemma NextState(hwm: nat, k: nat)
    requires 0 < hwm <= INT_MAX && k < hwm + Lwm(hwm) + 2
    ensures EnabledAt(StateAt(hwm, k), LabelAt(hwm, k)) && StepAt(StateAt(hwm, k), LabelAt(hwm, k)) == Next(StateAt(hwm, k + 1))
  {
    hide EnabledAt, StepAt, Filling, Stopped, Draining, Drained, Script;
    if k < hwm {
      WriteFills(hwm, k);
    } else if k == hwm {
      CheckStops(hwm);
    } else if k == hwm + 1 {
      FlushPublishes(hwm);
    } else if k < hwm + Lwm(hwm) + 1 {
      ReadDrains(hwm, k - hwm - 2);
    } else {
      LastReadStarves(hwm);
    }
  }

  lemma {:induction false} SkippedScript(hwm: nat, k: nat)
    requires 0 < hwm && k <= hwm
    ensures Skipped(Script(hwm)[..k]) == if k < Lwm(hwm) then 0 else k - Lwm(hwm) + 1
  {
    if k > 0 {
      SkippedScript(hwm, k - 1);
      assert Script(hwm)[..k][..k - 1] == Script(hwm)[..k - 1];
    }
  }

  function States(hwm: nat): (ps: seq<Pair>)
    requires hwm > 0
    ensures |ps| == hwm + Lwm(hwm) + 3 && forall k | 0 <= k < |ps| :: ps[k] == StateAt(hwm, k)
  {
    seq(hwm + Lwm(hwm) + 3, k requires 0 <= k < hwm + Lwm(hwm) + 3 => StateAt(hwm, k))
  }

  function Labels(hwm: nat): (ls: seq<Label>)
    ensures |ls| == hwm + Lwm(hwm) + 2 && forall k | 0 <= k < |ls| :: ls[k] == LabelAt(hwm, k)
  {
    seq(hwm + Lwm(hwm) + 2, k requires 0 <= k < hwm + Lwm(hwm) + 2 => LabelAt(hwm, k))
  }

  lemma ItRuns(hwm: nat)
    requires 0 < hwm <= INT_MAX
    ensures Run(States(hwm), Labels(hwm)) && NoHiccup(Labels(hwm), true)
  {
    StartsFresh(hwm);
    hide EnabledAt, StepAt, StateAt, FreshPair;
    var ps, ls := States(hwm), Labels(hwm);
    forall k | 0 <= k < |ls|
      ensures EnabledAt(ps[k], ls[k]) && StepAt(ps[k], ls[k]) == Next(ps[k + 1])
    {
      NextState(hwm, k);
    }
  }

  lemma StartsFresh(hwm: nat)
    requires hwm > 0
    ensures StateAt(hwm, 0) == FreshPair(1, 2, hwm, hwm)
  {
    hide Script;
  }

  lemma EndsStarved(hwm: nat)
    requires 0 < hwm <= INT_MAX
    ensures var p := StateAt(hwm, hwm + Lwm(hwm) + 2);
            && Starved(p) && p.toMe == [] && p.toPeer == [] && Skipped(p.peer.written) == hwm - Lwm(hwm) + 1
  {
    hide Script, Skipped;
    SkippedScript(hwm, hwm);
  }

  /** With hwm - lwm + 1 credential frames the wake-up can be lost, whatever the mark: the writer fills its
      window, the reader reads everything, and nothing is under way to the stopped writer. */
  lemma CredentialsLoseTheWakeUp(hwm: nat) returns (ps: seq<Pair>, ls: seq<Label>)
    requires 0 < hwm <= INT_MAX
    ensures Starves(ps, ls, hwm, hwm - Lwm(hwm) + 1)
    ensures ps[|ls|].toMe == [] && ps[|ls|].toPeer == [] && Skipped(ps[|ls|].peer.written) == hwm - Lwm(hwm) + 1
  {
    ps, ls := States(hwm), Labels(hwm);
    StartsFresh(hwm);
    hide StateAt, LabelAt, Starved, Run, NoHiccup;
    ItRuns(hwm);
    EndsStarved(hwm);
  }

  /** Exactly: a writer that wrote at most `k` credential frames is never starved if and only if k <= hwm - lwm. */
  lemma WakeUpThreshold(hwm: int, k: nat)
    requires 0 < hwm <= INT_MAX
    ensures (forall ps: seq<Pair>, ls: seq<Label> :: !Starves(ps, ls, hwm, k)) <==> k <= hwm - ComputeLwm(hwm)
  {
    hide Starves;
    if k <= hwm - ComputeLwm(hwm) {
      forall ps: seq<Pair>, ls: seq<Label>
        ensures !Starves(ps, ls, hwm, k)
      {
        if Starves(ps, ls, hwm, k) {
          FewDoNotStarve(ps, ls, hwm, k);
        }
      }
    } else {
      var ps, ls := CredentialsLoseTheWakeUp(hwm);
      MoreCredentials(ps, ls, hwm, hwm - Lwm(hwm) + 1, k);
    }
  }

  lemma MoreCredentials(ps: seq<Pair>, ls: seq<Label>, hwm: int, j: nat, k: nat)
    requires Starves(ps, ls, hwm, j) && j <= k
    ensures Starves(ps, ls, hwm, k)
  {
    hide Run, Starved, NoHiccup;
  }
}
