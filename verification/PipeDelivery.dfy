/** What is flushed can be read, what there is room for can be written, and which marks limit whom. */
module PipeDelivery {
  import opened Options
  import opened Ypipe
  import opened PipeStep
  import opened PipePair
  import opened PipeStream
  import opened PipeHiccup
  import opened PipeLinger
  import opened PipeTermination
  import opened PipeFlow
  import opened PipeCredential
  import opened PipeAnswers

  // ------------------------------------------------------------------------------------------
  // Reading on
  // ------------------------------------------------------------------------------------------

  /** The frames that `n` calls of read return. */
  function ReadAll(l: Local, n: nat): seq<Frame>
    decreases n
  {
    if n == 0 then []
    else (match Read(l).1 case Some(f) => [f] case None => []) + ReadAll(Read(l).0, n - 1)
  }

  /** The frames in front of the first delimiter. */
  function BeforeDelimiter(fs: seq<Frame>): (r: seq<Frame>)
    ensures r <= fs && Delimiter !in r && (|r| < |fs| ==> fs[|r|] == Delimiter)
  {
    if fs == [] || fs[0] == Delimiter then [] else [fs[0]] + BeforeDelimiter(fs[1..])
  }

  lemma {:induction false} BeforeIs(fs: seq<Frame>, k: nat)
    requires k <= |fs| && Delimiter !in fs[..k] && (k < |fs| ==> fs[k] == Delimiter)
    ensures BeforeDelimiter(fs) == fs[..k]
  {
    if k > 0 {
      assert fs[..k] == [fs[0]] + fs[1..][..k - 1];
      BeforeIs(fs[1..], k - 1);
    }
  }

  lemma {:induction false} Refused(l: Local, n: nat)
    requires !CanRead(l.e)
    ensures ReadAll(l, n) == []
    decreases n
  {
    if n > 0 {
      Refused(l, n - 1);
    }
  }

  /** The first frame and what is visible behind it. */
  lemma VisibleBehind(fs: seq<Frame>)
    requires fs != [] && fs[0] != Delimiter
    ensures Visible(BeforeDelimiter(fs)) == (if ForUser(fs[0]) then [fs[0]] else []) + Visible(BeforeDelimiter(fs[1..]))
  {
    VisibleAppend([fs[0]], BeforeDelimiter(fs[1..]));
    VisibleOne([], fs[0]);
    assert [] + [fs[0]] == [fs[0]];
  }

  /** What is visible of frames of which the first `k` are credentials. */
  lemma {:induction false} VisibleAfterCredentials(fs: seq<Frame>, k: nat)
    requires k <= |fs| && forall i | 0 <= i < k :: IsCredential(fs[i])
    ensures k == |fs| || fs[k] == Delimiter ==> Visible(BeforeDelimiter(fs)) == []
    ensures k < |fs| && ForUser(fs[k]) ==> Visible(BeforeDelimiter(fs)) == [fs[k]] + Visible(BeforeDelimiter(fs[k + 1..]))
  {
    if k > 0 {
      hide Visible, BeforeDelimiter;
      VisibleBehind(fs);
      VisibleAfterCredentials(fs[1..], k - 1);
      assert k < |fs| ==> fs[1..][k..] == fs[k + 1..];
    } else if fs != [] && ForUser(fs[0]) {
      hide Visible, BeforeDelimiter;
      VisibleBehind(fs);
    }
  }

  /** What the first read leaves to the others. */
  lemma FirstRead(l: Local)
    requires CanRead(l.e) && l.inq.ready != []
    ensures var r := Read(l);
            if r.1 == None then Visible(BeforeDelimiter(l.inq.ready)) == [] && !CanRead(r.0.e)
            else CanRead(r.0.e) && |r.0.inq.ready| < |l.inq.ready|
                 && Visible(BeforeDelimiter(l.inq.ready)) == [r.1.value] + Visible(BeforeDelimiter(r.0.inq.ready))
  {
    hide *;
    var fs := l.inq.ready;
    ReadAnswers(l);
    BehindLeading(fs);
    VisibleAfterCredentials(fs, Leading(fs));
    if Read(l).1.Some? {
      ReadGoesOn(l);
    } else {
      Asleep(Read(l).0.e);
    }
  }

  lemma Asleep(e: Endpoint)
    ensures !e.inActive ==> !CanRead(e)
  {
  }

  lemma BehindLeading(fs: seq<Frame>)
    ensures Leading(fs) < |fs| ==> fs[Leading(fs)] == Delimiter || (fs[Leading(fs)].Frame? && ForUser(fs[Leading(fs)]))
  {
  }

  /** An endpoint that may read gets everything that is published in front of a delimiter, credentials left out, if it
      only goes on reading. */
  lemma {:induction false} ReadingOnGetsEverything(l: Local, n: nat)
    requires CanRead(l.e) && n >= |l.inq.ready|
    ensures ReadAll(l, n) == Visible(BeforeDelimiter(l.inq.ready))
    decreases n
  {
    hide Read, Visible, BeforeDelimiter, CanRead;
    if l.inq.ready == [] {
      NothingReady(l.inq.ready);
      Nothing(l, n);
    } else {
      FirstRead(l);
      if Read(l).1.Some? {
        ReadingOnGetsEverything(Read(l).0, n - 1);
      } else {
        Refused(Read(l).0, n - 1);
      }
    }
  }

  lemma {:induction false} Nothing(l: Local, n: nat)
    requires l.inq.ready == []
    ensures ReadAll(l, n) == []
    decreases n
  {
    if n > 0 {
      Nothing(Read(l).0, n - 1);
    }
  }

  lemma NothingReady(fs: seq<Frame>)
    requires fs == []
    ensures Visible(BeforeDelimiter(fs)) == []
  {
  }

  /** A read that returned a frame may be followed by another one. */
  lemma ReadGoesOn(l: Local)
    requires Read(l).1.Some?
    ensures CanRead(Read(l).0.e)
  {
    assert CanRead(l.e);
    FramesGoOn(l);
  }

  lemma {:induction false} FramesGoOn(l: Local)
    requires CanRead(l.e) && ReadFrames(l).1.Some?
    ensures CanRead(ReadFrames(l).0.e)
    decreases |l.inq.ready|
  {
    if l.inq.ready != [] && IsCredential(l.inq.ready[0]) {
      FramesGoOn(Take(l));
    }
  }

  // ------------------------------------------------------------------------------------------
  // Flushing
  // ------------------------------------------------------------------------------------------

  lemma FlushPublishes(l: Local)
    requires l.e.outpipe.Some? && l.e.state != TermAckSent
    ensures Flush(l).outq.done == [] && Flush(l).outq.ready == l.outq.ready + l.outq.done
    ensures Flush(l).e.outpipe == l.e.outpipe
  {
  }

  /** After a flush of the writer `p.me` everything it completed is published. */
  lemma FlushStep(p: Pair)
    requires Safe(p) && Enabled(p, DoFlush) && p.me.outpipe.Some?
    ensures Step(p, DoFlush).Next?
    ensures var q := Step(p, DoFlush).p;
            q.me.outpipe == p.me.outpipe && p.me.outpipe.value in q.heap && q.heap[p.me.outpipe.value].done == []
  {
    CallStep(p, DoFlush);
    OutOrAck(p.me);
    Apart(p);
    assert p.me.state != TermAckSent;
    hide Safe, Step, LastWord, Moves;
    LoadIs(p);
    FlushPublishes(Load(p));
    StoreHeap(p, Flush(Load(p)));
    hide Store, Load, Flush;
  }

  lemma BeyondIsDelimiter(got: seq<Frame>, written: seq<Frame>, n: nat)
    requires got <= written + Delimiters(n) && |got| > |written|
    ensures Delimiter in got
  {
    assert got[|written|] == (written + Delimiters(n))[|written|];
  }

  /** The published frames in front of a delimiter, and what was read before, are what was written. */
  lemma PublishedIsWritten(rd: Endpoint, wr: Endpoint, q: Queue<Frame>, cs: seq<Command>)
    requires Stream(rd, wr, q, cs) && Reading(rd) && q.done == []
    ensures rd.got + BeforeDelimiter(q.ready) == wr.written
  {
    var all := wr.written + Delimiters(wr.closed);
    assert rd.got + q.ready == all by { assert rd.got + q.ready + [] == rd.got + q.ready; }
    var k := |rd.got|;
    if k > |wr.written| {
      BeyondIsDelimiter(rd.got, wr.written, wr.closed);
    }
    assert all[..|wr.written|] == wr.written;
    assert |wr.written| < |all| ==> q.ready[|wr.written| - k] == all[|wr.written|];
    assert q.ready == all[k..] && all[k..][..|wr.written| - k] == wr.written[k..];
    assert Delimiter !in wr.written[k..];
    BeforeIs(q.ready, |wr.written| - k);
    assert wr.written == wr.written[..k] + wr.written[k..];
  }

  /** What `me` has to read is what `peer` published, or a wake-up is under way. */
  ghost predicate Published(p: Pair) {
    && !Dangling(p) && (!p.me.inActive && Load(p).inq.ready != [] ==> ActivateRead in p.toMe)
  }

  /** After a flush nothing that the writer's accepted writes completed is out of reach of the reader: what its reads
      returned already, and what they return if it goes on reading, is all of it.  If the reader sleeps, its wake-up is
      under way. */
  lemma FlushedIsReceived(ps: seq<Pair>, ls: seq<Label>, n: nat, k: nat)
    requires Run(ps, ls) && n < |ls| && |ps| == |ls| + 1 && ls[n] == Label(false, DoFlush)
    requires var p := ps[n + 1]; p.peer.outpipe.Some? && !Cut(p) && !p.me.freed && Reading(p.me)
    ensures Published(ps[n + 1])
    ensures CanRead(ps[n + 1].me) && k >= |Load(ps[n + 1]).inq.ready| ==>
              Returned(ps, ls, n + 1) + ReadAll(Load(ps[n + 1]), k) == Visible(Complete(Accepted(ps, ls, n + 1, false)))
  {
    var p := ps[n + 1];
    RunFlows(ps, ls, n + 1);
    FlushIsStep(ps, ls, n);
    NoDangling(p);
    ReadsReturnWhatTheyConsume(ps, ls, n + 1);
    WritesKeepWhatTheyAccept(ps, ls, n + 1, false);
    FlipSafe(p);
    OnePipe(Flip(p));
    hide Run, Safe, Returned, Accepted, ReadAll;
    assert p.heap[p.me.inpipe].done == [];
    PublishedIsWritten(p.me, p.peer, p.heap[p.me.inpipe], p.toMe);
    LoadIs(p);
    assert Load(p).inq == p.heap[p.me.inpipe];
    VisibleAppend(p.me.got, BeforeDelimiter(Load(p).inq.ready));
    if CanRead(p.me) && k >= |Load(p).inq.ready| {
      hide Load, Stream;
      ReadingOnGetsEverything(Load(p), k);
    }
  }

  lemma FlushIsStep(ps: seq<Pair>, ls: seq<Label>, n: nat)
    requires Run(ps, ls) && n < |ls| && |ps| == |ls| + 1 && ls[n] == Label(false, DoFlush) && ps[n + 1].peer.outpipe.Some?
    ensures ps[n + 1].peer.outpipe.value in ps[n + 1].heap && ps[n + 1].heap[ps[n + 1].peer.outpipe.value].done == []
  {
    RunSide(ps, ls, n);
    var p, q := Flip(ps[n]), Flip(ps[n + 1]);
    assert Side(ps[n], false) == p && Side(ps[n + 1], false) == q;
    hide Run, Side, Step, Enabled;
    CallStep(p, DoFlush);
    hide Safe;
    LoadIs(p);
    StoreMe(p, Call(Load(p), DoFlush));
    MovesPointers(p.me, Call(Load(p), DoFlush).e);
    FlushStep(p);
  }

  // ------------------------------------------------------------------------------------------
  // What a read counts and reports
  // ------------------------------------------------------------------------------------------

  /** Only a returned frame is counted, if it ends a message that is no identity; and exactly when a frame is returned
      and the count is then a multiple of the low water mark, the count is reported. */
  lemma {:induction false} FramesReport(l: Local)
    requires Reading(l.e)
    ensures var (r, f) := ReadFrames(l);
            && r.e.msgsRead == l.e.msgsRead + (if f.Some? && Counted(f.value) then 1 else 0)
            && (f.Some? ==> r.e.sent == l.e.sent + (if l.e.lwm > 0 && r.e.msgsRead % l.e.lwm == 0 then [ActivateWrite(r.e.msgsRead)] else []))
            && (f == None ==> r.e.sent == l.e.sent || r.e.sent == l.e.sent + [PipeTermAck])
    decreases |l.inq.ready|
  {
    if l.inq.ready != [] && IsCredential(l.inq.ready[0]) {
      FramesReport(Take(l));
    }
  }

  // ------------------------------------------------------------------------------------------
  // Marks
  // ------------------------------------------------------------------------------------------

  /** The low water mark is half the high one, rounded up; it is below the high one except for a mark of one, and there is
      none for an unlimited pipe. */
  lemma LwmIsHalf(hwm: int)
    ensures hwm >= 0 ==> hwm <= 2 * ComputeLwm(hwm) <= hwm + 1
    ensures hwm > 0 ==> 0 < ComputeLwm(hwm) <= hwm && (ComputeLwm(hwm) == hwm <==> hwm == 1)
    ensures hwm <= 0 ==> ComputeLwm(hwm) <= 0
  {
  }

  /** What pipepair was given limits who it was given for, in every state of every run. */
  lemma MarksAreTheUsers(ps: seq<Pair>, ls: seq<Label>, n: nat, up1: nat, up2: nat, hwms0: int, hwms1: int)
    requires Run(ps, ls) && n < |ps| && ps[0] == FreshPair(up1, up2, hwms0, hwms1)
    ensures ps[n].me.hwm == hwms0 && ps[n].peer.hwm == hwms1
  {
    RunMark(ps, ls, n);
    FlipRun(ps, ls);
    RunMark(FlipAll(ps), Mirror(ls), n);
  }

  // A writer without a mark.

  predicate Unlimited(e: Endpoint) {
    e.hwm <= 0 && (e.state == Active ==> e.outActive)
  }

  lemma {:induction false} ReadUnlimited(l: Local)
    requires Unlimited(l.e) && Reading(l.e)
    ensures Unlimited(ReadFrames(l).0.e)
    decreases |l.inq.ready|
  {
    if l.inq.ready != [] && IsCredential(l.inq.ready[0]) {
      ReadUnlimited(Take(l));
    }
  }

  lemma CallUnlimited(l: Local, op: Op)
    requires Plain(op) && Unlimited(l.e)
    ensures Unlimited(Call(l, op).e)
  {
    hide ReadFrames, Terminate;
    if op.DoRead? && CanRead(l.e) {
      ReadUnlimited(l);
    } else if op.DoTerminate? {
      TerminateIsIdle(l, op.delay);
      TerminateMark(l, op.delay);
    }
  }

  lemma TerminateMark(l: Local, delay: bool)
    ensures Terminate(l, delay).e.state != Active
  {
    var s := StartTerminate(l, delay);
    assert CloseOut(s).e.state == s.e.state;
    hide CloseOut;
  }

  lemma ReactUnlimited(l: Local, c: Command)
    requires Reacts(l.e, c) && Unlimited(l.e)
    ensures Unlimited(React(l, c).e)
  {
  }

  lemma DeliveryUnlimited(p: Pair)
    requires Safe(p) && p.toMe != [] && Unlimited(p.me)
    ensures Process(p).Next? && Unlimited(Process(p).p.me)
  {
    DeliveryKeepsSafe(p);
    ProcessMark(p);
    hide Safe, Process;
    ProcessMe(p);
    if Reacts(p.me, p.toMe[0]) {
      LoadIs(p);
      hide *;
      ReactUnlimited(Load(p), p.toMe[0]);
    } else {
      OtherUnlimited(p);
    }
  }

  lemma OtherUnlimited(p: Pair)
    requires p.toMe != [] && Process(p).Next? && !Reacts(p.me, p.toMe[0]) && Unlimited(p.me)
    ensures Unlimited(Process(p).p.me)
  {
    hide React, CountEnds;
    if p.toMe[0].PipeTermAck? {
      StoreMe(p.(toMe := p.toMe[1..]), ProcessPipeTermAck(Load(p)));
      hide Store;
    }
  }

  lemma StepUnlimited(p: Pair, op: Op)
    requires Safe(p) && Enabled(p, op) && Unlimited(p.me)
    ensures Step(p, op).Next? && Unlimited(Step(p, op).p.me)
  {
    hide Safe, Step, Process;
    if op.Deliver? {
      ProcessIsStep(p);
      DeliveryUnlimited(p);
    } else if op.DoHiccup? {
      HiccupEffect(p, op.address);
    } else {
      CallStep(p, op);
      LoadIs(p);
      StoreMe(p, Call(Load(p), op));
      hide Call;
      CallUnlimited(Load(p), op);
    }
  }

  lemma StartUnlimited(ps: seq<Pair>, ls: seq<Label>, mine: bool)
    requires Run(ps, ls) && Side(ps[0], mine).me.hwm <= 0
    ensures Unlimited(Side(ps[0], mine).me)
  {
  }

  lemma NextUnlimited(ps: seq<Pair>, ls: seq<Label>, n: nat, mine: bool)
    requires Run(ps, ls) && n < |ls| && |ps| == |ls| + 1 && Unlimited(Side(ps[n], mine).me)
    ensures Unlimited(Side(ps[n + 1], mine).me)
  {
    hide *;
    if ls[n].mine == mine {
      RunSide(ps, ls, n);
      StepUnlimited(Side(ps[n], mine), ls[n].op);
    } else {
      RunOther(ps, ls, n, mine);
    }
  }

  lemma {:induction false} RunUnlimited(ps: seq<Pair>, ls: seq<Label>, n: nat, mine: bool)
    requires Run(ps, ls) && n < |ps| && Side(ps[0], mine).me.hwm <= 0
    ensures Unlimited(Side(ps[n], mine).me)
  {
    hide *;
    if n == 0 {
      StartUnlimited(ps, ls, mine);
    } else {
      RunLength(ps, ls);
      RunUnlimited(ps, ls, n - 1, mine);
      NextUnlimited(ps, ls, n - 1, mine);
    }
  }

  /** Which writes are accepted: without a mark every write of an active endpoint; with one, if the peer calls no
      hiccup, every write of an active endpoint that did not stop, while less than the mark is written beyond what the peer is known
      to have read. */
  lemma WritesAreAccepted(ps: seq<Pair>, ls: seq<Label>, n: nat, l: Local, f: Frame)
    requires Run(ps, ls) && n < |ps| && f.Frame? && l.e == ps[n].peer
    ensures ps[0].peer.hwm <= 0 ==> (Write(l, f).1 <==> l.e.state == Active)
    ensures 0 < ps[0].peer.hwm <= INT_MAX && NoHiccup(ls, true) ==>
              (Write(l, f).1 <==> l.e.state == Active && l.e.outActive && l.e.msgsWritten - l.e.peersMsgsRead < ps[0].peer.hwm)
  {
    RunMark(ps, ls, n);
    if ps[0].peer.hwm <= 0 {
      RunUnlimited(ps, ls, n, false);
    } else if ps[0].peer.hwm <= INT_MAX && NoHiccup(ls, true) {
      RunInWindow(ps, ls, n);
      ReportedBounds(l.e.peersMsgsRead, ps[n].toPeer, ps[n].me.msgsRead);
      hide Run, InStream, Safe, Reported, Count, Skipped;
      NoWrap(l.e);
    }
  }
}
