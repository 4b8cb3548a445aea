/** Flow control of a pipe pair: the high water mark bounds what is under way, and a writer that
    stopped because of it is woken up again.

    `rd` reads what `wr` writes, and `cs` are the commands under way from `rd` to `wr`. */
module PipeFlow {
  import opened Options
  import opened Ypipe
  import opened PipeStep
  import opened PipePair
  import opened PipeStream
  import opened PipeLinger

  const INT_MAX := 0x7FFF_FFFF

  /** Frames that pipe_t::write counts. */
  predicate Counted(f: Frame) {
    f.Frame? && !f.more && !f.identity
  }

  function Count(fs: seq<Frame>): nat {
    if fs == [] then 0 else Count(fs[..|fs| - 1]) + if Counted(fs[|fs| - 1]) then 1 else 0
  }

  /** Counted frames that pipe_t::read consumes without counting them. */
  function Skipped(fs: seq<Frame>): nat {
    if fs == [] then 0
    else Skipped(fs[..|fs| - 1]) + if Counted(fs[|fs| - 1]) && fs[|fs| - 1].credential then 1 else 0
  }

  lemma {:induction false} CountAppend(a: seq<Frame>, b: seq<Frame>)
    ensures Count(a + b) == Count(a) + Count(b)
  {
    if b == [] {
      assert a + b == a;
    } else {
      assert (a + b)[..|a + b| - 1] == a + b[..|b| - 1];
      CountAppend(a, b[..|b| - 1]);
    }
  }

  lemma CountDelimiters(n: nat)
    ensures Count(Delimiters(n)) == 0
  {
    if n > 0 {
      assert Delimiters(n)[..n - 1] == Delimiters(n - 1);
      CountDelimiters(n - 1);
    }
  }

  /** The read counts reported in `cs` ascend from `low` to `high`. */
  predicate Reported(low: nat, cs: seq<Command>, high: nat)
    decreases cs
  {
    if cs == [] then low <= high
    else if cs[0].ActivateWrite? then low <= cs[0].msgsRead && Reported(cs[0].msgsRead, cs[1..], high)
    else Reported(low, cs[1..], high)
  }

  /** The last read count that was reported. */
  function Latest(low: nat, cs: seq<Command>): nat
    decreases cs
  {
    if cs == [] then low
    else if cs[0].ActivateWrite? then Latest(cs[0].msgsRead, cs[1..])
    else Latest(low, cs[1..])
  }

  lemma {:induction false} ReportedAppend(low: nat, cs: seq<Command>, c: Command, high: nat, high': nat)
    requires Reported(low, cs, high) && high <= high' && (c.ActivateWrite? ==> c.msgsRead == high')
    ensures Reported(low, cs + [c], high')
    ensures Latest(low, cs + [c]) == if c.ActivateWrite? then high' else Latest(low, cs)
    decreases cs
  {
    if cs == [] {
      assert cs + [c] == [c];
    } else {
      assert (cs + [c])[1..] == cs[1..] + [c];
      ReportedAppend(if cs[0].ActivateWrite? then cs[0].msgsRead else low, cs[1..], c, high, high');
    }
  }

  lemma {:induction false} ReportedRaise(low: nat, cs: seq<Command>, high: nat, high': nat)
    requires Reported(low, cs, high) && high <= high'
    ensures Reported(low, cs, high')
    decreases cs
  {
    if cs != [] {
      ReportedRaise(if cs[0].ActivateWrite? then cs[0].msgsRead else low, cs[1..], high, high');
    }
  }

  lemma {:induction false} ReportedBounds(low: nat, cs: seq<Command>, high: nat)
    requires Reported(low, cs, high)
    ensures low <= Latest(low, cs) <= high
    decreases cs
  {
    if cs != [] {
      ReportedBounds(if cs[0].ActivateWrite? then cs[0].msgsRead else low, cs[1..], high);
    }
  }

  lemma {:induction false} NothingReported(low: nat, cs: seq<Command>)
    requires forall c | c in cs :: !c.ActivateWrite?
    ensures Latest(low, cs) == low
    decreases cs
  {
    if cs != [] {
      NothingReported(low, cs[1..]);
    }
  }

  predicate Sized(rd: Endpoint, wr: Endpoint) {
    0 < wr.hwm <= INT_MAX && rd.lwm == ComputeLwm(wr.hwm)
  }

  /** The window between writer and reader. */
  predicate Window(rd: Endpoint, wr: Endpoint, cs: seq<Command>) {
    && Sized(rd, wr)
    && wr.msgsWritten == Count(wr.written)
    && rd.msgsRead + Skipped(rd.got) == Count(rd.got)
    && rd.msgsRead <= wr.msgsWritten
    && Reported(wr.peersMsgsRead, cs, rd.msgsRead)
    && Latest(wr.peersMsgsRead, cs) >= rd.msgsRead - rd.msgsRead % rd.lwm
    && wr.msgsWritten - wr.peersMsgsRead <= wr.hwm
    && (wr.state == Active && !wr.outActive ==> wr.msgsWritten - wr.peersMsgsRead == wr.hwm)
    && forall f | f in wr.open :: f.Frame? && f.more
  }

  // The reader's calls.

  /** `rd` became `rd'`, consuming frames and possibly reporting its new count in `cs`. */
  predicate Consumed(rd: Endpoint, rd': Endpoint, cs: seq<Command>) {
    && rd'.lwm == rd.lwm
    && (rd'.msgsRead == rd.msgsRead || rd'.msgsRead == rd.msgsRead + 1)
    && rd'.msgsRead + Skipped(rd'.got) - Count(rd'.got) == rd.msgsRead + Skipped(rd.got) - Count(rd.got)
    && (cs == [] || cs == [ActivateWrite(rd'.msgsRead)] || (rd'.msgsRead == rd.msgsRead && forall c | c in cs :: !c.ActivateWrite?))
    && (rd'.msgsRead != rd.msgsRead && rd.lwm > 0 && rd'.msgsRead % rd.lwm == 0 ==> cs == [ActivateWrite(rd'.msgsRead)])
  }

  lemma TakeCounts(l: Local)
    requires l.inq.ready != []
    ensures var f, r := l.inq.ready[0], Take(l);
            && Count(r.e.got) == Count(l.e.got) + (if Counted(f) then 1 else 0)
            && Skipped(r.e.got) == Skipped(l.e.got) + (if Counted(f) && f.credential then 1 else 0)
  {
    assert Take(l).e.got[..|Take(l).e.got| - 1] == l.e.got;
  }

  lemma {:induction false} ReadConsumes(l: Local)
    requires Reading(l.e)
    ensures var r := ReadFrames(l).0; Consumed(l.e, r.e, News(l.e, r.e))
    decreases |l.inq.ready|
  {
    if l.inq.ready != [] {
      TakeCounts(l);
      hide Count, Skipped;
      if l.inq.ready[0].Frame? && l.inq.ready[0].credential {
        ReadConsumes(Take(l));
      }
    }
  }

  lemma CallConsumes(l: Local, op: Op)
    requires Plain(op)
    ensures var r := Call(l, op); Consumed(l.e, r.e, News(l.e, r.e))
  {
    hide Count, Skipped, ReadFrames;
    if op.DoRead? && CanRead(l.e) {
      ReadConsumes(l);
    } else if op.DoCheckRead? && CanRead(l.e) {
      if l.inq.ready != [] {
        TakeCounts(l);
      }
    } else {
      CallLeavesReader(l, op);
      hide Call;
    }
  }

  // The window survives every step.

  lemma {:induction false} ReportedQuiet(low: nat, cs: seq<Command>, news: seq<Command>, high: nat)
    requires Reported(low, cs, high) && forall c | c in news :: !c.ActivateWrite?
    ensures Reported(low, cs + news, high) && Latest(low, cs + news) == Latest(low, cs)
    decreases news
  {
    if news == [] {
      assert cs + news == cs;
    } else {
      ReportedAppend(low, cs, news[0], high, high);
      assert (cs + [news[0]]) + news[1..] == cs + news;
      ReportedQuiet(low, cs + [news[0]], news[1..], high);
    }
  }

  lemma NextMultiple(n: nat, d: int)
    requires d > 0 && (n + 1) % d != 0
    ensures n + 1 - (n + 1) % d == n - n % d
  {
    var q, r := n / d, n % d;
    assert n == q * d + r;
    if r + 1 < d {
      DivisionIs(n + 1, d, q, r + 1);
    } else {
      assert n + 1 == (q + 1) * d + 0;
      DivisionIs(n + 1, d, q + 1, 0);
    }
  }

  lemma SmallMultiple(k: int, d: int)
    requires d > 0 && -d < k * d < d
    ensures k == 0
  {
    assert (k - 1) * d == k * d - d;
    assert (k + 1) * d == k * d + d;
    assert k >= 1 ==> (k - 1) * d >= 0;
    assert k <= -1 ==> -(k + 1) * d >= 0;
  }

  lemma DivisionIs(n: nat, d: int, q: nat, r: nat)
    requires d > 0 && r < d && n == q * d + r
    ensures n % d == r
  {
    var q', r' := n / d, n % d;
    assert n == q' * d + r';
    assert (q - q') * d == q * d - q' * d;
    SmallMultiple(q - q', d);
  }

  lemma ReaderKeepsWindow(rd: Endpoint, rd': Endpoint, wr: Endpoint, cs: seq<Command>, news: seq<Command>)
    requires Window(rd, wr, cs) && Consumed(rd, rd', news) && rd'.msgsRead <= wr.msgsWritten
    ensures Window(rd', wr, cs + news)
  {
    hide Count, Skipped, Reported, Latest;
    var low := wr.peersMsgsRead;
    ReportedRaise(low, cs, rd.msgsRead, rd'.msgsRead);
    assert rd.lwm > 0;
    if news == [ActivateWrite(rd'.msgsRead)] {
      ReportedAppend(low, cs, news[0], rd.msgsRead, rd'.msgsRead);
    } else {
      ReportedQuiet(low, cs, news, rd'.msgsRead);
      if rd'.msgsRead != rd.msgsRead {
        NextMultiple(rd.msgsRead, rd.lwm);
      }
    }
  }

  /** The writer did nothing that matters to flow control. */
  predicate WindowIdle(wr: Endpoint, wr': Endpoint) {
    && wr'.hwm == wr.hwm && wr'.written == wr.written && wr'.msgsWritten == wr.msgsWritten
    && (wr'.open == wr.open || wr'.open == [])
    && wr'.peersMsgsRead == wr.peersMsgsRead
    && (wr'.state == Active ==> wr.state == Active && wr'.outActive == wr.outActive)
  }

  lemma NoWrap(e: Endpoint)
    requires 0 <= e.msgsWritten - e.peersMsgsRead <= e.hwm <= INT_MAX && e.hwm > 0
    ensures CheckHwm(e) <==> e.msgsWritten - e.peersMsgsRead < e.hwm
  {
  }

  lemma CountWritten(written: seq<Frame>, open: seq<Frame>, f: Frame)
    requires forall g | g in open :: g.Frame? && g.more
    ensures Count(written + open + [f]) == Count(written) + if Counted(f) then 1 else 0
  {
    CountAppend(written, open);
    CountAppend(written + open, [f]);
    OpenCountsNothing(open);
    assert [f][..0] == [];
    assert Count([f]) == if Counted(f) then 1 else 0;
  }

  lemma WriteKeepsWindow(rd: Endpoint, l: Local, f: Frame, cs: seq<Command>)
    requires Window(rd, l.e, cs) && f.Frame?
    ensures Window(rd, Write(l, f).0.e, cs)
  {
    hide Skipped, Reported, Latest, Count;
    ReportedBounds(l.e.peersMsgsRead, cs, rd.msgsRead);
    NoWrap(l.e);
    CountWritten(l.e.written, l.e.open, f);
  }

  lemma OpenCountsNothing(fs: seq<Frame>)
    requires forall f | f in fs :: f.Frame? && f.more
    ensures Count(fs) == 0
  {
  }

  lemma CallKeepsWindow(rd: Endpoint, l: Local, op: Op, cs: seq<Command>)
    requires Plain(op) && Window(rd, l.e, cs)
    ensures Window(rd, Call(l, op).e, cs)
  {
    hide Count, Skipped, Reported, Latest;
    if op.DoWrite? {
      WriteKeepsWindow(rd, l, op.frame, cs);
    } else if op.DoCheckWrite? {
      CheckWriteKeepsWindow(rd, l, cs);
    } else {
      CallIsIdle(l, op);
      hide Call;
      IdleKeepsWindow(rd, l.e, Call(l, op).e, cs);
    }
  }

  lemma CheckWriteKeepsWindow(rd: Endpoint, l: Local, cs: seq<Command>)
    requires Window(rd, l.e, cs)
    ensures Window(rd, CheckWrite(l).0.e, cs)
  {
    ReportedBounds(l.e.peersMsgsRead, cs, rd.msgsRead);
    NoWrap(l.e);
    hide Count, Skipped, Reported, Latest, CheckHwm;
  }

  lemma {:induction false} ReadIsIdle(l: Local)
    requires Reading(l.e)
    ensures WindowIdle(l.e, ReadFrames(l).0.e)
    decreases |l.inq.ready|
  {
    if l.inq.ready != [] && l.inq.ready[0].Frame? && l.inq.ready[0].credential {
      ReadIsIdle(Take(l));
    }
  }

  lemma CloseOutIsIdle(l: Local)
    ensures var f := CloseOut(l).e; WindowIdle(l.e.(outActive := f.outActive), f) && f.state == l.e.state
  {
  }

  lemma TerminateIsIdle(l: Local, delay: bool)
    ensures WindowIdle(l.e, Terminate(l, delay).e)
  {
    var s := StartTerminate(l, delay);
    CloseOutIsIdle(s);
    hide CloseOut;
  }

  lemma CallIsIdle(l: Local, op: Op)
    requires Plain(op) && !op.DoWrite? && !op.DoCheckWrite?
    ensures WindowIdle(l.e, Call(l, op).e)
  {
    hide ReadFrames, Terminate;
    if op.DoRead? && CanRead(l.e) {
      ReadIsIdle(l);
    } else if op.DoTerminate? {
      TerminateIsIdle(l, op.delay);
    }
  }

  /** A command arrives at the writer. */
  predicate Informed(wr: Endpoint, wr': Endpoint, c: Command) {
    && wr'.hwm == wr.hwm && wr'.written == wr.written && wr'.msgsWritten == wr.msgsWritten && wr'.open == wr.open
    && wr'.peersMsgsRead == (if c.ActivateWrite? then c.msgsRead else wr.peersMsgsRead)
    && (wr'.state == Active ==> wr.state == Active && (if c.ActivateWrite? then wr'.outActive else wr'.outActive == wr.outActive))
  }

  lemma DeliveryKeepsWindow(rd: Endpoint, wr: Endpoint, wr': Endpoint, cs: seq<Command>)
    requires Window(rd, wr, cs) && cs != [] && Informed(wr, wr', cs[0])
    ensures Window(rd, wr', cs[1..])
  {
    hide Count, Skipped;
  }

  lemma ReactInforms(l: Local, c: Command)
    requires Reacts(l.e, c)
    ensures Informed(l.e, React(l, c).e, c)
    ensures React(l, c).e.msgsRead == l.e.msgsRead && React(l, c).e.got == l.e.got && React(l, c).e.lwm == l.e.lwm
  {
  }

  lemma ProcessInforms(p: Pair)
    requires p.toMe != [] && Process(p).Next? && !p.toMe[0].Hiccup?
    ensures Informed(p.me, Process(p).p.me, p.toMe[0])
  {
    if !p.me.freed && !Dangling(p) && Reacts(p.me, p.toMe[0]) {
      ReactInforms(Load(p), p.toMe[0]);
    }
    hide React;
  }

  lemma ProcessConsumesNothing(p: Pair)
    requires p.toMe != [] && Process(p).Next?
    ensures var q := Process(p).p; q.me.msgsRead == p.me.msgsRead && q.me.got == p.me.got && q.me.lwm == p.me.lwm
    ensures var q := Process(p).p; q.peer == p.peer
  {
    if !p.me.freed && !Dangling(p) && Reacts(p.me, p.toMe[0]) {
      ReactInforms(Load(p), p.toMe[0]);
    }
    hide React;
  }

  // ------------------------------------------------------------------------------------------
  // Runs
  // ------------------------------------------------------------------------------------------

  /** The direction towards `me`. */
  ghost predicate InWindow(p: Pair) {
    Safe(p) && InStream(p) && Window(p.me, p.peer, p.toPeer)
  }

  /** A reader never counts more messages than the writer counted. */
  lemma ReadAtMostWritten(rd: Endpoint, wr: Endpoint, q: Queue<Frame>, cs: seq<Command>)
    requires Stream(rd, wr, q, cs)
    ensures Count(rd.got) + Count(q.ready) + Count(q.done) == Count(wr.written)
  {
    CountAppend(rd.got, q.ready);
    CountAppend(rd.got + q.ready, q.done);
    CountAppend(wr.written, Delimiters(wr.closed));
    CountDelimiters(wr.closed);
  }

  lemma ReaderCallInWindow(p: Pair, op: Op)
    requires InWindow(p) && Enabled(p, op) && Plain(op)
    ensures Step(p, op).Next? && InWindow(Step(p, op).p)
  {
    SideKeepsSafe(p, op);
    ReaderStep(p, op);
    CallStep(p, op);
    var l := Call(Load(p), op);
    CallConsumes(Load(p), op);
    MovesPointers(p.me, l.e);
    var q := Step(p, op).p;
    assert q.me == l.e && q.peer == p.peer && q.toPeer == p.toPeer + News(p.me, l.e);
    ReadAtMostWritten(q.me, q.peer, q.heap[q.me.inpipe], q.toMe);
    assert q.me.msgsRead + Skipped(q.me.got) == Count(q.me.got) && q.me.msgsRead <= q.peer.msgsWritten;
    hide Safe, InStream, Step, Call, Window, Consumed;
    ReaderKeepsWindow(p.me, q.me, p.peer, p.toPeer, News(p.me, l.e));
  }

  lemma DeliverySends(p: Pair)
    requires Safe(p) && p.toMe != []
    ensures Process(p).Next?
    ensures var q := Process(p).p; q.toPeer == p.toPeer || q.toPeer == p.toPeer + [PipeTermAck]
  {
    DeliveryKeepsSafe(p);
    hide Safe, Process;
    if p.toMe[0] == PipeTermAck { AckStep(p); } else { DeliveryStep(p); }
  }

  lemma QuietReaderKeepsWindow(rd: Endpoint, rd': Endpoint, wr: Endpoint, cs: seq<Command>, cs': seq<Command>)
    requires Window(rd, wr, cs) && rd'.msgsRead == rd.msgsRead && rd'.got == rd.got && rd'.lwm == rd.lwm
    requires cs' == cs || cs' == cs + [PipeTermAck]
    ensures Window(rd', wr, cs')
  {
    hide Count, Skipped, Reported, Latest;
    if cs' != cs {
      ReportedQuiet(wr.peersMsgsRead, cs, [PipeTermAck], rd.msgsRead);
    }
  }

  lemma ReaderDeliveryInWindow(p: Pair)
    requires InWindow(p) && p.toMe != []
    ensures Process(p).Next? && InWindow(Process(p).p)
  {
    DeliverySends(p);
    DeliveryKeepsSafe(p);
    ReaderStep(p, Deliver);
    ProcessConsumesNothing(p);
    hide Safe, InStream, Process, Window;
    var q := Process(p).p;
    QuietReaderKeepsWindow(p.me, q.me, p.peer, p.toPeer, q.toPeer);
  }

  lemma WriterCallInWindow(p: Pair, op: Op)
    requires Safe(p) && InWindow(Flip(p)) && Enabled(p, op) && Plain(op)
    ensures Step(p, op).Next? && InWindow(Flip(Step(p, op).p))
  {
    SideKeepsSafe(p, op);
    FlipSafe(Step(p, op).p);
    WriterStep(p, op);
    CallStep(p, op);
    hide Safe, InStream, Step, Call, Window;
    CallKeepsWindow(p.peer, Load(p), op, p.toMe);
  }

  lemma WriterDeliveryInWindow(p: Pair)
    requires Safe(p) && InWindow(Flip(p)) && p.toMe != []
    ensures Process(p).Next? && InWindow(Flip(Process(p).p))
  {
    DeliveryKeepsSafe(p);
    FlipSafe(Process(p).p);
    WriterStep(p, Deliver);
    assert !p.toMe[0].Hiccup?;
    ProcessInforms(p);
    ProcessToMe(p);
    ProcessConsumesNothing(p);
    hide Safe, InStream, Process, Window;
    DeliveryKeepsWindow(p.peer, p.me, Process(p).p.me, p.toMe);
  }

  lemma ProcessToMe(p: Pair)
    requires p.toMe != [] && Process(p).Next?
    ensures Process(p).p.toMe == p.toMe[1..]
  {
    hide React;
  }

  /** A hiccup of the writer concerns the other direction. */
  lemma HiccupIsIdle(p: Pair, op: Op)
    requires Enabled(p, op) && op.DoHiccup? && Step(p, op).Next?
    ensures var q := Step(p, op).p; WindowIdle(p.me, q.me) && q.peer == p.peer && q.toMe == p.toMe
  {
    hide Process, Call;
  }

  lemma WriterHiccupInWindow(p: Pair, op: Op)
    requires Safe(p) && InWindow(Flip(p)) && Enabled(p, op) && op.DoHiccup?
    ensures Step(p, op).Next? && InWindow(Flip(Step(p, op).p))
  {
    SideKeepsSafe(p, op);
    var q := Step(p, op).p;
    FlipSafe(q);
    WriterStep(p, op);
    hide Safe, InStream, Step, Window;
    HiccupIsIdle(p, op);
    IdleKeepsWindow(p.peer, p.me, q.me, p.toMe);
  }

  lemma IdleKeepsWindow(rd: Endpoint, wr: Endpoint, wr': Endpoint, cs: seq<Command>)
    requires Window(rd, wr, cs) && WindowIdle(wr, wr')
    ensures Window(rd, wr', cs)
  {
    hide Count, Skipped, Reported, Latest;
  }

  lemma WriterInWindow(p: Pair, op: Op)
    requires Safe(p) && InWindow(Flip(p)) && Enabled(p, op)
    ensures Step(p, op).Next? && InWindow(Flip(Step(p, op).p))
  {
    hide InWindow, Process, Safe, Call;
    if op.Deliver? {
      WriterDeliveryInWindow(p);
    } else if op.DoHiccup? {
      WriterHiccupInWindow(p, op);
    } else {
      WriterCallInWindow(p, op);
    }
  }

  lemma ReaderInWindow(p: Pair, op: Op)
    requires InWindow(p) && Enabled(p, op) && !op.DoHiccup?
    ensures Step(p, op).Next? && InWindow(Step(p, op).p)
  {
    hide InWindow, Process, Safe, Call;
    if op.Deliver? {
      ReaderDeliveryInWindow(p);
    } else {
      ReaderCallInWindow(p, op);
    }
  }

  /** Every step except a hiccup of the reader. */
  lemma StepInWindow(p: Pair, a: Label)
    requires InWindow(p) && EnabledAt(p, a) && !(a.mine && a.op.DoHiccup?)
    ensures StepAt(p, a).Next? && InWindow(StepAt(p, a).p)
  {
    if a.mine {
      ReaderInWindow(p, a.op);
    } else {
      assert Flip(Flip(p)) == p;
      FlipSafe(p);
      WriterInWindow(Flip(p), a.op);
    }
  }

  lemma FreshInWindow(p: Pair)
    requires Safe(p) && InStream(p) && 0 < p.peer.hwm <= INT_MAX
    requires exists up1, up2, hwms0, hwms1 :: up1 != up2 && p == FreshPair(up1, up2, hwms0, hwms1)
    ensures InWindow(p)
  {
  }

  /** The mark of the peer in the first state, which no step changes. */
  lemma {:induction false} RunInWindow(ps: seq<Pair>, ls: seq<Label>, n: nat)
    requires Run(ps, ls) && n < |ps| && NoHiccup(ls, true) && 0 < ps[0].peer.hwm <= INT_MAX
    ensures InWindow(ps[n])
  {
    if n == 0 {
      RunInStream(ps, ls, 0);
      FreshInWindow(ps[0]);
    } else {
      RunInWindow(ps, ls, n - 1);
      assert EnabledAt(ps[n - 1], ls[n - 1]) && StepAt(ps[n - 1], ls[n - 1]) == Next(ps[n]);
      hide InWindow;
      StepInWindow(ps[n - 1], ls[n - 1]);
    }
  }

  /** Complete messages the writer counted and the reader has not taken yet. */
  function Unread(p: Pair): nat
    requires p.me.inpipe in p.heap
  {
    Count(p.heap[p.me.inpipe].ready) + Count(p.heap[p.me.inpipe].done)
  }

  /** The high water mark bounds what the peer wrote and `me` has not read. */
  lemma HighWaterMarkBounds(ps: seq<Pair>, ls: seq<Label>, n: nat)
    requires Run(ps, ls) && n < |ps| && NoHiccup(ls, true) && 0 < ps[0].peer.hwm <= INT_MAX
    ensures 0 <= ps[n].peer.msgsWritten - ps[n].me.msgsRead <= ps[n].peer.hwm
    ensures !ps[n].me.freed ==>
            ps[n].me.inpipe in ps[n].heap
            && Unread(ps[n]) + Skipped(ps[n].me.got) == ps[n].peer.msgsWritten - ps[n].me.msgsRead
  {
    RunInWindow(ps, ls, n);
    var p := ps[n];
    ReportedBounds(p.peer.peersMsgsRead, p.toPeer, p.me.msgsRead);
    if !p.me.freed {
      ReadAtMostWritten(p.me, p.peer, p.heap[p.me.inpipe], p.toMe);
    }
  }

  /** A writer that stopped at the mark has its wake-up under way, or is owed for less than `lwm`
      reads; the rest of the window is unread messages and skipped credentials. */
  lemma StoppedWriterIsOwedAWakeUp(ps: seq<Pair>, ls: seq<Label>, n: nat)
    requires Run(ps, ls) && n < |ps| && NoHiccup(ls, true) && 0 < ps[0].peer.hwm <= INT_MAX
    requires ps[n].peer.state == Active && !ps[n].peer.outActive
    ensures !ps[n].me.freed && ps[n].me.inpipe in ps[n].heap && ps[n].me.lwm == (ps[n].peer.hwm + 1) / 2
    ensures (exists c :: c in ps[n].toPeer && c.ActivateWrite?)
            || Unread(ps[n]) + Skipped(ps[n].me.got) >= ps[n].peer.hwm - ps[n].me.lwm + 1
  {
    RunInWindow(ps, ls, n);
    HighWaterMarkBounds(ps, ls, n);
    var p := ps[n];
    if forall c | c in p.toPeer :: !c.ActivateWrite? {
      NothingReported(p.peer.peersMsgsRead, p.toPeer);
      hide Safe, InStream, Reported, Count, Skipped;
      assert p.me.msgsRead % p.me.lwm < p.me.lwm;
    }
  }

  // ------------------------------------------------------------------------------------------
  // Credentials
  // ------------------------------------------------------------------------------------------

  /** The writing side sends no credential frames. */
  predicate NoCredentials(ls: seq<Label>) {
    forall i | 0 <= i < |ls| && !ls[i].mine && ls[i].op.DoWrite? && ls[i].op.frame.Frame? :: !ls[i].op.frame.credential
  }

  predicate Ordinary(fs: seq<Frame>) {
    forall f | f in fs :: f.Frame? && !f.credential
  }

  lemma CallStaysOrdinary(l: Local, op: Op)
    requires Plain(op) && Ordinary(l.e.written) && Ordinary(l.e.open)
    requires op.DoWrite? ==> !op.frame.credential
    ensures Ordinary(Call(l, op).e.written) && Ordinary(Call(l, op).e.open)
  {
    if !op.DoWrite? && !op.DoCheckWrite? {
      CallIsIdle(l, op);
      hide Call, Ordinary;
    }
  }

  lemma DeliveryStaysOrdinary(p: Pair)
    requires p.toMe != [] && Process(p).Next? && Ordinary(p.me.written) && Ordinary(p.me.open)
    ensures Ordinary(Process(p).p.me.written) && Ordinary(Process(p).p.me.open)
  {
    hide React, Store;
    if p.toMe[0].Hiccup? {
      assert Process(p).p.me.written == [] && Process(p).p.me.open == [];
    } else {
      ProcessInforms(p);
      hide Process;
    }
  }

  lemma StepStaysOrdinary(p: Pair, op: Op)
    requires Safe(p) && Enabled(p, op) && Ordinary(p.me.written) && Ordinary(p.me.open)
    requires op.DoWrite? ==> !op.frame.credential
    ensures Step(p, op).Next? && Ordinary(Step(p, op).p.me.written) && Ordinary(Step(p, op).p.me.open)
    ensures Step(p, op).p.peer == p.peer
  {
    hide Safe, Process, Call, Ordinary, Store;
    SideKeepsSafe(p, op);
    PeerStays(p, op);
    if op.Deliver? {
      DeliveryStaysOrdinary(p);
    } else if op.DoHiccup? {
      HiccupIsIdle(p, op);
      hide Step;
      IdleStaysOrdinary(p.me, Step(p, op).p.me);
    } else {
      CallStep(p, op);
      StoreMe(p, Call(Load(p), op));
      CallStaysOrdinary(Load(p), op);
    }
  }

  lemma IdleStaysOrdinary(e: Endpoint, f: Endpoint)
    requires WindowIdle(e, f) && Ordinary(e.written) && Ordinary(e.open)
    ensures Ordinary(f.written) && Ordinary(f.open)
  {
  }

  lemma {:induction false} RunStaysOrdinary(ps: seq<Pair>, ls: seq<Label>, n: nat)
    requires Run(ps, ls) && n < |ps| && NoCredentials(ls)
    ensures Ordinary(ps[n].peer.written) && Ordinary(ps[n].peer.open)
  {
    hide Safe, Step, Counted, Plain, Store, News, Call;
    if n > 0 {
      RunStaysOrdinary(ps, ls, n - 1);
      RunIsSafe(ps, ls, n - 1);
      var p, a := ps[n - 1], ls[n - 1];
      assert EnabledAt(p, a) && StepAt(p, a) == Next(ps[n]);
      FlipSafe(p);
      hide Ordinary;
      if a.mine {
        PeerStays(p, a.op);
      } else {
        StepStaysOrdinary(Flip(p), a.op);
      }
    }
  }

  lemma PeerStays(p: Pair, op: Op)
    requires Enabled(p, op) && Step(p, op).Next?
    ensures Step(p, op).p.peer == p.peer
  {
    hide Call;
    if op.Deliver? {
      ProcessConsumesNothing(p);
    }
    hide Process;
  }

  lemma {:induction false} NothingSkipped(fs: seq<Frame>)
    requires forall f | f in fs :: !(f.Frame? && f.credential)
    ensures Skipped(fs) == 0
  {
    if fs != [] {
      NothingSkipped(fs[..|fs| - 1]);
    }
  }

  /** Without credential frames a stopped writer always has its wake-up under way, or at least
      hwm - lwm + 1 complete messages ahead of the reader. */
  lemma NoLostWakeUp(ps: seq<Pair>, ls: seq<Label>, n: nat)
    requires Run(ps, ls) && n < |ps| && NoHiccup(ls, true) && 0 < ps[0].peer.hwm <= INT_MAX && NoCredentials(ls)
    requires ps[n].peer.state == Active && !ps[n].peer.outActive
    ensures (exists c :: c in ps[n].toPeer && c.ActivateWrite?)
            || (ps[n].me.inpipe in ps[n].heap && Unread(ps[n]) >= ps[n].peer.hwm - ps[n].me.lwm + 1 >= 1)
  {
    StoppedWriterIsOwedAWakeUp(ps, ls, n);
    RunStaysOrdinary(ps, ls, n);
    MessagesArriveInOrder(ps, ls, n);
    PrefixIsOrdinary(ps[n].me.got, ps[n].peer.written, ps[n].peer.closed);
    NothingSkipped(ps[n].me.got);
    hide Run, Count, Skipped;
    RunLwm(ps, ls, n);
  }

  lemma PrefixIsOrdinary(got: seq<Frame>, written: seq<Frame>, n: nat)
    requires got <= written + Delimiters(n) && Ordinary(written)
    ensures forall f | f in got :: !(f.Frame? && f.credential)
  {
    forall f | f in got
      ensures !(f.Frame? && f.credential)
    {
      assert f in written + Delimiters(n);
    }
  }

  lemma RunLwm(ps: seq<Pair>, ls: seq<Label>, n: nat)
    requires Run(ps, ls) && n < |ps| && NoHiccup(ls, true) && 0 < ps[0].peer.hwm <= INT_MAX
    ensures 0 < ps[n].me.lwm <= ps[n].peer.hwm
  {
    RunInWindow(ps, ls, n);
  }

  // Reading on wakes the writer.

  /** `n` calls of read. */
  function Reads(l: Local, n: nat): Local
    decreases n
  {
    if n == 0 then l else Reads(Read(l).0, n - 1)
  }

  predicate Reports(e: Endpoint, f: Endpoint) {
    exists c :: c in News(e, f) && c.ActivateWrite?
  }

  lemma {:induction false} ReadsSendMore(l: Local, n: nat)
    requires forall i | 0 <= i < |l.inq.ready| :: l.inq.ready[i].Frame? && !l.inq.ready[i].credential
    ensures l.e.sent <= Reads(l, n).e.sent
    decreases n
  {
    if n > 0 {
      var l1 := Read(l).0;
      assert l.e.sent <= l1.e.sent;
      assert l1.inq.ready == l.inq.ready || l1.inq.ready == l.inq.ready[1..];
      hide Read;
      ReadsSendMore(l1, n - 1);
    }
  }

  /** One ordinary frame: counted if it ends a message, and reported if that completes a batch. */
  lemma ReadOrdinary(l: Local)
    requires CanRead(l.e) && l.e.lwm > 0 && l.inq.ready != [] && l.inq.ready[0].Frame? && !l.inq.ready[0].credential
    ensures var r := Read(l).0;
            && r.inq.ready == l.inq.ready[1..] && CanRead(r.e) && r.e.lwm == l.e.lwm
            && r.e.msgsRead == l.e.msgsRead + (if Counted(l.inq.ready[0]) then 1 else 0)
            && l.e.sent <= r.e.sent
            && (r.e.msgsRead % r.e.lwm == 0 ==> r.e.sent == l.e.sent + [ActivateWrite(r.e.msgsRead)])
  {
  }

  lemma ReportsStay(e: Endpoint, f: Endpoint, g: Endpoint, c: Command)
    requires f.sent == e.sent + [c] && c.ActivateWrite? && f.sent <= g.sent
    ensures Reports(e, g)
  {
    assert News(e, g)[0] == c;
  }

  lemma ReportsEarlier(e: Endpoint, f: Endpoint, g: Endpoint)
    requires e.sent <= f.sent <= g.sent && Reports(f, g)
    ensures Reports(e, g)
  {
    var c :| c in News(f, g) && c.ActivateWrite?;
    assert News(e, g) == f.sent[|e.sent|..] + News(f, g);
  }

  /** Reading as many messages as are missing to the next multiple of lwm sends a report. */
  lemma {:induction false} ReadingReports(l: Local, n: nat)
    requires CanRead(l.e) && l.e.lwm > 0 && n <= |l.inq.ready|
    requires forall i | 0 <= i < |l.inq.ready| :: l.inq.ready[i].Frame? && !l.inq.ready[i].credential
    requires Count(l.inq.ready[..n]) >= l.e.lwm - l.e.msgsRead % l.e.lwm
    ensures Reports(l.e, Reads(l, n).e)
    decreases n
  {
    hide Read, Count, Reports, CanRead;
    CountFirst(l.inq.ready, n);
    assert l.e.msgsRead % l.e.lwm < l.e.lwm;
    var f, l1 := l.inq.ready[0], Read(l).0;
    ReadOrdinary(l);
    ReadsSendMore(l1, n - 1);
    if l1.e.msgsRead % l1.e.lwm == 0 {
      ReportsStay(l.e, l1.e, Reads(l1, n - 1).e, ActivateWrite(l1.e.msgsRead));
    } else {
      NextRemainder(l.e.msgsRead, l1.e.msgsRead, l.e.lwm);
      ReadingReports(l1, n - 1);
      ReportsEarlier(l.e, l1.e, Reads(l1, n - 1).e);
    }
  }

  lemma CountFirst(fs: seq<Frame>, n: nat)
    requires n <= |fs|
    ensures n == 0 ==> Count(fs[..n]) == 0
    ensures n > 0 ==> Count(fs[..n]) == (if Counted(fs[0]) then 1 else 0) + Count(fs[1..][..n - 1])
  {
    if n > 0 {
      assert fs[..n] == [fs[0]] + fs[1..][..n - 1];
      CountAppend([fs[0]], fs[1..][..n - 1]);
      assert [fs[0]][..0] == [] && Count([fs[0]]) == if Counted(fs[0]) then 1 else 0;
    }
  }

  lemma NextRemainder(n: nat, m: nat, d: int)
    requires d > 0 && (m == n || (m == n + 1 && m % d != 0))
    ensures m % d == n % d + m - n
  {
    if m == n + 1 {
      NextMultiple(n, d);
    }
  }

  /** Without credential frames, a stopped writer whose messages are flushed is woken up by reading on: the
      report is under way already, or the unread messages are enough for the reader to send it. */
  lemma ReadingOnWakes(ps: seq<Pair>, ls: seq<Label>, n: nat)
    requires Run(ps, ls) && n < |ps| && NoHiccup(ls, true) && 0 < ps[0].peer.hwm <= INT_MAX && NoCredentials(ls)
    requires ps[n].peer.state == Active && !ps[n].peer.outActive && CanRead(ps[n].me)
    ensures !Dangling(ps[n]) && 0 < ps[n].me.lwm
    ensures (exists c :: c in ps[n].toPeer && c.ActivateWrite?)
            || (Load(ps[n]).inq.done == [] ==>
                  forall m: nat | m <= |Load(ps[n]).inq.ready|
                                  && (m == |Load(ps[n]).inq.ready|
                                      || Count(Load(ps[n]).inq.ready[..m]) >= ps[n].me.lwm - ps[n].me.msgsRead % ps[n].me.lwm) ::
                    Reports(ps[n].me, Reads(Load(ps[n]), m).e))
  {
    var p := ps[n];
    RunInWindow(ps, ls, n);
    StoppedWriterIsOwedAWakeUp(ps, ls, n);
    NoDangling(p);
    if (forall c | c in p.toPeer :: !c.ActivateWrite?) && Load(p).inq.done == [] {
      var q := Load(p).inq.ready;
      RunStaysOrdinary(ps, ls, n);
      ReadyIsOrdinary(p);
      EnoughUnread(p);
      assert q[..|q|] == q;
      hide Run, Safe, InWindow, Count, Reports, CanRead, Reads;
      forall m: nat | m <= |q| && (m == |q| || Count(q[..m]) >= p.me.lwm - p.me.msgsRead % p.me.lwm)
        ensures Reports(p.me, Reads(Load(p), m).e)
      {
        ReadingReports(Load(p), m);
      }
    }
  }

  lemma ReadyIsOrdinary(p: Pair)
    requires InWindow(p) && !p.me.freed && p.peer.state == Active && Ordinary(p.peer.written)
    ensures p.me.inpipe in p.heap && Ordinary(p.heap[p.me.inpipe].ready) && Skipped(p.me.got) == 0
  {
    var q := p.heap[p.me.inpipe];
    assert p.me.got + q.ready + q.done == p.peer.written + Delimiters(0);
    hide *;
    PartsAreOrdinary(p.me.got, q.ready, q.done, p.peer.written);
  }

  lemma PartsAreOrdinary(a: seq<Frame>, b: seq<Frame>, c: seq<Frame>, all: seq<Frame>)
    requires a + b + c == all + Delimiters(0) && Ordinary(all)
    ensures Ordinary(b) && Skipped(a) == 0
  {
    assert all + Delimiters(0) == all;
    assert forall i | 0 <= i < |b| :: (a + b + c)[|a| + i] == b[i];
    assert forall i | 0 <= i < |a| :: (a + b + c)[i] == a[i];
    hide Skipped;
    NothingSkipped(a);
  }

  lemma EnoughUnread(p: Pair)
    requires InWindow(p) && !p.me.freed && p.peer.state == Active && !p.peer.outActive && Skipped(p.me.got) == 0
    requires forall c | c in p.toPeer :: !c.ActivateWrite?
    requires p.me.inpipe in p.heap && p.heap[p.me.inpipe].done == []
    ensures 0 < p.me.lwm && Count(p.heap[p.me.inpipe].ready) >= p.me.lwm - p.me.msgsRead % p.me.lwm
  {
    NothingReported(p.peer.peersMsgsRead, p.toPeer);
    ReadAtMostWritten(p.me, p.peer, p.heap[p.me.inpipe], p.toMe);
    hide Safe, Reported, Stream;
  }
}
