/** What the calls of a pipe answer, and what two users of a pair can tell from the answers alone: the
    messages that reads returned are, in order, the messages that writes accepted. */
module PipeAnswers {
  import opened Options
  import opened Ypipe
  import opened PipeStep
  import opened PipePair
  import opened PipeStream
  import opened PipeHiccup
  import opened PipeLinger
  import opened PipeTermination

  predicate IsCredential(f: Frame) {
    f.Frame? && f.credential
  }

  /** Frames that are handed to the user: neither credentials nor delimiters. */
  predicate ForUser(f: Frame) {
    f.Frame? && !f.credential
  }

  /** What a user sees of the frames that went through a ypipe. */
  function Visible(fs: seq<Frame>): seq<Frame> {
    if fs == [] then []
    else Visible(fs[..|fs| - 1]) + if ForUser(fs[|fs| - 1]) then [fs[|fs| - 1]] else []
  }

  lemma {:induction false} VisibleAppend(a: seq<Frame>, b: seq<Frame>)
    ensures Visible(a + b) == Visible(a) + Visible(b)
  {
    if b == [] {
      assert a + b == a;
    } else {
      assert (a + b)[..|a + b| - 1] == a + b[..|b| - 1];
      VisibleAppend(a, b[..|b| - 1]);
    }
  }

  lemma {:induction false} NothingVisible(fs: seq<Frame>)
    requires forall f | f in fs :: !ForUser(f)
    ensures Visible(fs) == []
  {
    if fs != [] {
      NothingVisible(fs[..|fs| - 1]);
    }
  }

  lemma VisibleOne(fs: seq<Frame>, f: Frame)
    requires forall g | g in fs :: !ForUser(g)
    ensures Visible(fs + [f]) == if ForUser(f) then [f] else []
  {
    NothingVisible(fs);
    assert (fs + [f])[..|fs|] == fs;
  }

  // ------------------------------------------------------------------------------------------
  // One call
  // ------------------------------------------------------------------------------------------

  /** The credential frames at the front. */
  function Leading(fs: seq<Frame>): (k: nat)
    ensures k <= |fs| && (k < |fs| ==> !IsCredential(fs[k]))
    ensures forall i | 0 <= i < k :: IsCredential(fs[i])
  {
    if fs == [] || !IsCredential(fs[0]) then 0 else 1 + Leading(fs[1..])
  }

  /** The endpoint took `k` credentials and what follows them: a frame for the user, the delimiter, or nothing. */
  predicate Answered(l: Local, k: nat, r: (Local, Option<Frame>))
    requires k <= |l.inq.ready|
  {
    var fs := l.inq.ready;
    if k == |fs| then
      r.1 == None && r.0.e.got == l.e.got + fs && r.0.inq == l.inq.(ready := [], asleep := true) && !r.0.e.inActive
    else
      && r.0.e.got == l.e.got + fs[..k] + [fs[k]] && r.0.inq == l.inq.(ready := fs[k + 1..])
      && r.1 == (if fs[k] == Delimiter then None else Some(fs[k]))
      && (fs[k] == Delimiter ==> !CanRead(r.0.e))
  }

  lemma FirstAnswered(l: Local)
    requires Reading(l.e) && l.inq.ready != [] && !IsCredential(l.inq.ready[0])
    ensures Answered(l, 0, ReadFrames(l))
  {
    assert l.e.got + [] + [l.inq.ready[0]] == l.e.got + [l.inq.ready[0]];
  }

  lemma NextAnswered(l: Local, k: nat, r: (Local, Option<Frame>))
    requires l.inq.ready != [] && k < |l.inq.ready| && Answered(Take(l), k, r)
    ensures Answered(l, k + 1, r)
  {
    var fs, rest := l.inq.ready, l.inq.ready[1..];
    if k == |rest| {
      assert l.e.got + [fs[0]] + rest == l.e.got + ([fs[0]] + rest);
    } else {
      assert l.e.got + [fs[0]] + rest[..k] == l.e.got + fs[..k + 1];
    }
  }

  /** What read consumes and what it answers, once it may look. */
  lemma {:induction false} FramesAnswer(l: Local)
    requires Reading(l.e)
    ensures Answered(l, Leading(l.inq.ready), ReadFrames(l))
    decreases |l.inq.ready|
  {
    hide Answered, ProcessDelimiter, CountRead, Leading;
    var fs := l.inq.ready;
    if fs == [] {
      EmptyAnswered(l);
    } else if IsCredential(fs[0]) {
      FramesAnswer(Take(l));
      NextAnswered(l, Leading(fs[1..]), ReadFrames(l));
      LeadingMore(fs);
    } else {
      FirstAnswered(l);
      LeadingMore(fs);
    }
  }

  lemma EmptyAnswered(l: Local)
    requires Reading(l.e) && l.inq.ready == []
    ensures Answered(l, Leading(l.inq.ready), ReadFrames(l))
  {
  }

  lemma LeadingMore(fs: seq<Frame>)
    requires fs != []
    ensures Leading(fs) == if IsCredential(fs[0]) then 1 + Leading(fs[1..]) else 0
  {
  }

  /** The answer of read, and what it consumed. */
  lemma ReadAnswers(l: Local)
    ensures var fs, k, r := l.inq.ready, Leading(l.inq.ready), Read(l);
            && (!CanRead(l.e) ==> r == (l, None))
            && (CanRead(l.e) && k == |fs| ==>
                  r.1 == None && r.0.e.got == l.e.got + fs && r.0.inq.ready == [] && r.0.inq.asleep && !r.0.e.inActive)
            && (CanRead(l.e) && k < |fs| ==>
                  && r.0.e.got == l.e.got + fs[..k] + [fs[k]] && r.0.inq.ready == fs[k + 1..]
                  && (r.1 == Some(fs[k]) <==> fs[k].Frame?) && (r.1 == None <==> fs[k] == Delimiter)
                  && (r.1 == None ==> !CanRead(r.0.e)))
  {
    if CanRead(l.e) {
      FramesAnswer(l);
      hide ReadFrames;
    }
  }

  /** check_read foretells read: it promises nothing in vain unless only credentials are left, and where it denies,
      read denies as well and leaves the endpoint the same. */
  lemma CheckReadForetells(l: Local)
    ensures var c, r := CheckRead(l), Read(l);
            && (r.1.Some? ==> c == (l, true))
            && (!c.1 ==> r == (c.0, None))
            && (c.1 ==> c.0 == l && CanRead(l.e) && l.inq.ready != [] && l.inq.ready[0] != Delimiter)
            && (c.1 && !IsCredential(l.inq.ready[0]) ==> r.1 == Some(l.inq.ready[0]))
  {
  }

  /** write answers true exactly if the frame was put into the outpipe, behind everything that was there. */
  lemma WriteAnswers(l: Local, f: Frame)
    requires f.Frame?
    ensures var c, w := CheckWrite(l), Write(l, f);
            && (w.1 <==> c.1)
            && (c.1 ==> c.0 == l && l.e.state == Active && l.e.outActive)
            && w.0.outq.ready == l.outq.ready
            && w.0.outq.done + w.0.outq.part == l.outq.done + l.outq.part + (if w.1 then [f] else [])
            && (w.1 && f.more ==> w.0.outq.done == l.outq.done && w.0.e.written == l.e.written)
            && (w.1 && !f.more ==> w.0.outq.part == [])
            && w.0.e.written + w.0.e.open == l.e.written + l.e.open + (if w.1 then [f] else [])
            && (!w.1 ==> w.0.outq == l.outq && w.0.e == l.e.(outActive := w.0.e.outActive))
            && (!w.1 && l.e.state == Active ==> !w.0.e.outActive)
  {
  }

  // ------------------------------------------------------------------------------------------
  // The reading user
  // ------------------------------------------------------------------------------------------

  /** What a call hands to the user. */
  function Answer(p: Pair, op: Op): seq<Frame> {
    if op.DoRead? && !Dangling(p) && Read(Load(p)).1.Some? then [Read(Load(p)).1.value] else []
  }

  /** The frames that the reads of `me` returned in the first `n` steps, since its last hiccup. */
  function Returned(ps: seq<Pair>, ls: seq<Label>, n: nat): seq<Frame>
    requires n <= |ls| && |ps| == |ls| + 1
  {
    if n == 0 then []
    else if !ls[n - 1].mine then Returned(ps, ls, n - 1)
    else if ls[n - 1].op.DoHiccup? && ps[n - 1].me.state == Active then []
    else Returned(ps, ls, n - 1) + Answer(ps[n - 1], ls[n - 1].op)
  }

  lemma ReadIsVisible(l: Local)
    ensures Visible(Read(l).0.e.got) == Visible(l.e.got) + match Read(l).1 case Some(f) => [f] case None => []
  {
    ReadAnswers(l);
    hide Read;
    var fs, k := l.inq.ready, Leading(l.inq.ready);
    if CanRead(l.e) {
      forall f | f in fs[..k]
        ensures !ForUser(f)
      {
      }
      if k < |fs| {
        VisibleOne(fs[..k], fs[k]);
        assert l.e.got + fs[..k] + [fs[k]] == l.e.got + (fs[..k] + [fs[k]]);
        VisibleAppend(l.e.got, fs[..k] + [fs[k]]);
      } else {
        assert fs[..k] == fs;
        NothingVisible(fs);
        VisibleAppend(l.e.got, fs);
      }
    }
  }

  /** Every other call consumes at most a delimiter. */
  lemma CallIsInvisible(l: Local, op: Op)
    requires Plain(op) && !op.DoRead?
    ensures Visible(Call(l, op).e.got) == Visible(l.e.got)
  {
    if op.DoCheckRead? && CanRead(l.e) {
      if l.inq.ready != [] && l.inq.ready[0] == Delimiter {
        VisibleOne([], Delimiter);
        assert [] + [Delimiter] == [Delimiter];
        VisibleAppend(l.e.got, [Delimiter]);
      }
    } else {
      CallLeavesReader(l, op);
    }
  }

  lemma DeliveryIsInvisible(p: Pair)
    requires Safe(p) && p.toMe != []
    ensures Process(p).Next? && Process(p).p.me.got == p.me.got
  {
    DeliveryKeepsSafe(p);
    hide *;
    ProcessMe(p);
    if Reacts(p.me, p.toMe[0]) {
      ReactIsInvisible(Load(p), p.toMe[0]);
      LoadIs(p);
    }
  }

  lemma ReactIsInvisible(l: Local, c: Command)
    requires Reacts(l.e, c)
    ensures React(l, c).e.got == l.e.got
  {
  }

  lemma LoadIs(p: Pair)
    requires !Dangling(p)
    ensures Load(p).e == p.me
  {
  }

  lemma CallReturns(p: Pair, op: Op)
    requires Safe(p) && Enabled(p, op) && Plain(op)
    ensures Step(p, op).Next? && Visible(Step(p, op).p.me.got) == Visible(p.me.got) + Answer(p, op)
  {
    CallStep(p, op);
    hide Safe, Step, Read, Visible, LastWord, Moves, Agree, Store, Load;
    LoadIs(p);
    StoreMe(p, Call(Load(p), op));
    if op.DoRead? {
      ReadIsVisible(Load(p));
    } else {
      CallIsInvisible(Load(p), op);
    }
  }

  /** What a step of `me` adds to the frames it consumed is what it answers. */
  lemma StepReturns(p: Pair, op: Op)
    requires Safe(p) && Enabled(p, op)
    ensures Step(p, op).Next?
    ensures Visible(Step(p, op).p.me.got)
            == if op.DoHiccup? && p.me.state == Active then [] else Visible(p.me.got) + Answer(p, op)
  {
    if op.Deliver? {
      ProcessIsStep(p);
      hide Safe, Process, Visible, Step;
      DeliveryIsInvisible(p);
    } else if op.DoHiccup? {
      HiccupEffect(p, op.address);
      hide Safe, Step;
    } else {
      hide Safe, Step, Visible, Answer;
      CallReturns(p, op);
    }
  }

  /** A step of a run as the side that moves sees it. */
  lemma RunSide(ps: seq<Pair>, ls: seq<Label>, n: nat)
    requires Run(ps, ls) && n < |ls|
    ensures |ps| == |ls| + 1
    ensures var p, q, op := Side(ps[n], ls[n].mine), Side(ps[n + 1], ls[n].mine), ls[n].op;
            Safe(p) && Enabled(p, op) && Step(p, op) == Next(q)
  {
    RunIsSafe(ps, ls, n);
    RunNext(ps, ls, n);
    FlipSafe(ps[n]);
    hide Run, Safe, Step, Enabled;
    assert Flip(Flip(ps[n + 1])) == ps[n + 1];
  }

  /** The other side stays as it is. */
  lemma RunOther(ps: seq<Pair>, ls: seq<Label>, n: nat, mine: bool)
    requires Run(ps, ls) && n < |ls| && ls[n].mine != mine
    ensures |ps| == |ls| + 1 && Side(ps[n + 1], mine).me == Side(ps[n], mine).me
  {
    RunLength(ps, ls);
    hide *;
    RunStep(ps, ls, n, mine);
  }

  lemma ReturnedNext(ps: seq<Pair>, ls: seq<Label>, n: nat)
    requires n < |ls| && |ps| == |ls| + 1
    ensures Returned(ps, ls, n + 1) ==
            if !ls[n].mine then Returned(ps, ls, n)
            else if ls[n].op.DoHiccup? && ps[n].me.state == Active then []
            else Returned(ps, ls, n) + Answer(ps[n], ls[n].op)
  {
  }

  lemma NextReturns(ps: seq<Pair>, ls: seq<Label>, n: nat)
    requires Run(ps, ls) && n < |ls| && |ps| == |ls| + 1 && Returned(ps, ls, n) == Visible(ps[n].me.got)
    ensures Returned(ps, ls, n + 1) == Visible(ps[n + 1].me.got)
  {
    ReturnedNext(ps, ls, n);
    hide Run, Safe, Step, Visible, Returned, Answer, Enabled;
    if ls[n].mine {
      RunSide(ps, ls, n);
      StepReturns(ps[n], ls[n].op);
    } else {
      RunOther(ps, ls, n, true);
    }
  }

  /** In every run, what the reads of an endpoint returned is what the endpoint consumed, in order and without the
      credentials and delimiters. */
  lemma {:induction false} ReadsReturnWhatTheyConsume(ps: seq<Pair>, ls: seq<Label>, n: nat)
    requires Run(ps, ls) && n < |ps| == |ls| + 1
    ensures Returned(ps, ls, n) == Visible(ps[n].me.got)
  {
    if n > 0 {
      hide *;
      ReadsReturnWhatTheyConsume(ps, ls, n - 1);
      NextReturns(ps, ls, n - 1);
    }
  }

  // ------------------------------------------------------------------------------------------
  // The writing user
  // ------------------------------------------------------------------------------------------

  predicate Partial(f: Frame) {
    f.Frame? && f.more
  }

  /** The frames up to the end of the last finished message. */
  function Complete(fs: seq<Frame>): seq<Frame> {
    if fs == [] || !Partial(fs[|fs| - 1]) then fs else Complete(fs[..|fs| - 1])
  }

  lemma {:induction false} CompleteDropsTail(fs: seq<Frame>, open: seq<Frame>)
    requires forall f | f in open :: Partial(f)
    ensures Complete(fs + open) == Complete(fs)
  {
    if open == [] {
      assert fs + open == fs;
    } else {
      assert (fs + open)[..|fs + open| - 1] == fs + open[..|open| - 1];
      CompleteDropsTail(fs, open[..|open| - 1]);
    }
  }

  lemma {:induction false} CompleteTwice(fs: seq<Frame>)
    ensures Complete(Complete(fs)) == Complete(fs)
  {
    if fs != [] && Partial(fs[|fs| - 1]) {
      CompleteTwice(fs[..|fs| - 1]);
    }
  }

  /** The frames of accepted writes after a call: rollback and terminate take back an unfinished message, and a
      hiccup of the peer takes back everything. */
  function Accept(p: Pair, op: Op, fs: seq<Frame>): seq<Frame> {
    match op
    case DoWrite(f) => if f.Frame? && !Dangling(p) && Write(Load(p), f).1 then fs + [f] else fs
    case DoRollback => Complete(fs)
    case DoTerminate(_) => Complete(fs)
    case Deliver => if HiccupNext(p) then [] else fs
    case _ => fs
  }

  /** The frames that one side's writes accepted in the first `n` steps. */
  function Accepted(ps: seq<Pair>, ls: seq<Label>, n: nat, mine: bool): seq<Frame>
    requires n <= |ls| && |ps| == |ls| + 1
  {
    if n == 0 then []
    else if ls[n - 1].mine != mine then Accepted(ps, ls, n - 1, mine)
    else Accept(Side(ps[n - 1], mine), ls[n - 1].op, Accepted(ps, ls, n - 1, mine))
  }

  /** `fs` is what the endpoint has written, and not taken back, into its outpipe. */
  predicate Holds(e: Endpoint, fs: seq<Frame>) {
    && e.written == Complete(fs) && Complete(e.written) == e.written
    && (e.outpipe.Some? ==> fs == e.written + e.open)
    && (SentTerm(e) ==> e.open == [])
    && forall f | f in e.open :: Partial(f)
  }

  lemma AddHolds(e: Endpoint, e': Endpoint, f: Frame, fs: seq<Frame>)
    requires Holds(e, fs) && e.outpipe.Some? && f.Frame? && e'.outpipe == e.outpipe && !SentTerm(e')
    requires if f.more then e'.written == e.written && e'.open == e.open + [f]
             else e'.written == e.written + e.open + [f] && e'.open == []
    ensures Holds(e', fs + [f])
  {
    if f.more {
      assert fs + [f] == e.written + (e.open + [f]);
      CompleteDropsTail(e.written, e.open + [f]);
    } else {
      assert e'.written + [] == fs + [f];
    }
  }

  lemma WriteHolds(l: Local, f: Frame, fs: seq<Frame>)
    requires f.Frame? && Holds(l.e, fs) && (l.e.state == Active ==> l.e.outpipe.Some?)
    ensures Holds(Write(l, f).0.e, if Write(l, f).1 then fs + [f] else fs)
  {
    hide CheckHwm, Complete;
    var w := Write(l, f);
    assert w.0.e.outpipe == l.e.outpipe && w.0.e.state == l.e.state;
    if w.1 {
      assert !SentTerm(l.e);
      hide Write, Holds;
      AddHolds(l.e, w.0.e, f, fs);
    }
  }

  /** What a call that writes nothing leaves in the outpipe. */
  predicate Keeps(e: Endpoint, f: Endpoint, back: bool) {
    && f.written == e.written && f.outpipe in {None, e.outpipe}
    && (f.open == e.open || f.open == [])
    && (f.outpipe.Some? ==> if back then f.open == [] else f.open == e.open)
    && (SentTerm(f) ==> SentTerm(e) || f.open == [])
  }

  lemma KeepsHolds(e: Endpoint, f: Endpoint, fs: seq<Frame>, back: bool)
    requires Holds(e, fs) && Keeps(e, f, back)
    ensures Holds(f, if back then Complete(fs) else fs)
  {
    CompleteTwice(fs);
    assert e.written + [] == e.written;
  }

  lemma TerminateKeeps(l: Local, delay: bool)
    requires !l.e.freed && (l.e.outpipe == None <==> SentAck(l.e)) && (SentTerm(l.e) ==> l.e.open == [])
    ensures Keeps(l.e, Terminate(l, delay).e, true)
  {
  }

  lemma CallKeeps(l: Local, op: Op)
    requires Plain(op) && !op.DoWrite? && !l.e.freed
    requires (l.e.outpipe == None <==> SentAck(l.e)) && (SentTerm(l.e) ==> l.e.open == [])
    ensures Keeps(l.e, Call(l, op).e, op.DoRollback? || op.DoTerminate?)
  {
    hide ReadFrames, Terminate;
    if op.DoTerminate? {
      TerminateKeeps(l, op.delay);
    } else if op.DoRead? && CanRead(l.e) {
      ReadLeavesWriter(l);
    }
  }

  lemma CallHolds(p: Pair, op: Op, fs: seq<Frame>)
    requires Safe(p) && Enabled(p, op) && Plain(op) && Holds(p.me, fs)
    ensures Step(p, op).Next? && Holds(Step(p, op).p.me, Accept(p, op, fs))
  {
    CallStep(p, op);
    OutOrAck(p.me);
    assert !p.me.freed;
    hide Safe, Step, Complete, LastWord, Moves, Agree, Store, Load, Dangling, Write, Keeps;
    LoadIs(p);
    StoreMe(p, Call(Load(p), op));
    if op.DoWrite? {
      WriteHolds(Load(p), op.frame, fs);
    } else {
      CallKeeps(Load(p), op);
      hide Call;
      KeepsHolds(p.me, Call(Load(p), op).e, fs, op.DoRollback? || op.DoTerminate?);
    }
  }

  lemma IdleKeeps(e: Endpoint, f: Endpoint)
    requires WriterIdle(e, f) && f.outpipe in {None, e.outpipe}
    ensures Keeps(e, f, false)
  {
  }

  lemma ReactKeepsAt(p: Pair)
    requires p.toMe != [] && !Dangling(p) && Process(p).Next? && Reacts(p.me, p.toMe[0])
    requires Process(p).p.me == React(Load(p), p.toMe[0]).e
    ensures Keeps(p.me, Process(p).p.me, false)
  {
    LoadIs(p);
    hide *;
    ReactKeeps(Load(p), p.toMe[0]);
  }

  lemma ReactKeeps(l: Local, c: Command)
    requires Reacts(l.e, c)
    ensures Keeps(l.e, React(l, c).e, false)
  {
    ReactIsQuiet(l, c);
    hide *;
    IdleKeeps(l.e, React(l, c).e);
  }

  lemma DeliveryKeeps(p: Pair)
    requires Safe(p) && p.toMe != [] && !HiccupNext(p)
    ensures Process(p).Next? && Keeps(p.me, Process(p).p.me, false)
  {
    DeliveryKeepsSafe(p);
    if p.toMe[0] == PipeTermAck {
      AckStep(p);
      var q := Process(p).p;
      SafeParts(q);
      OutOrAck(q.me);
      assert q.me.outpipe == None;
      hide *;
      AckKeeps(p.me, q.me, p, q);
    } else {
      DeliveryReacts(p);
      hide *;
      ProcessMe(p);
      ReactKeepsAt(p);
    }
  }

  lemma DeliveryReacts(p: Pair)
    requires Safe(p) && p.toMe != [] && !HiccupNext(p) && p.toMe[0] != PipeTermAck
    ensures Reacts(p.me, p.toMe[0])
  {
    SafeParts(p);
    if p.toMe[0] == PipeTerm {
      TermIsExpected(p);
    }
  }

  lemma AckKeeps(e: Endpoint, f: Endpoint, p: Pair, q: Pair)
    requires p.toMe != [] && LastDelivered(p, q) && e == p.me && f == q.me && f.outpipe == None
    ensures Keeps(e, f, false)
  {
  }

  lemma DeliveryHolds(p: Pair, fs: seq<Frame>)
    requires Safe(p) && p.toMe != [] && Holds(p.me, fs)
    ensures Process(p).Next? && Holds(Process(p).p.me, if HiccupNext(p) then [] else fs)
  {
    if HiccupNext(p) {
      HiccupTaken(p);
      var f := Process(p).p.me;
      SentTermIs(p.me, f);
      hide Safe, Process;
    } else {
      DeliveryKeeps(p);
      hide *;
      KeepsHolds(p.me, Process(p).p.me, fs, false);
    }
  }

  lemma SentTermIs(e: Endpoint, f: Endpoint)
    requires f.state == e.state
    ensures SentTerm(f) == SentTerm(e)
  {
  }

  lemma StepHolds(p: Pair, op: Op, fs: seq<Frame>)
    requires Safe(p) && Enabled(p, op) && Holds(p.me, fs)
    ensures Step(p, op).Next? && Holds(Step(p, op).p.me, Accept(p, op, fs))
  {
    if op.Deliver? {
      ProcessIsStep(p);
      hide Safe, Process, Step, Holds;
      DeliveryHolds(p, fs);
    } else if op.DoHiccup? {
      HiccupEffect(p, op.address);
      hide Safe, Step, Complete;
    } else {
      hide Safe, Step, Holds, Accept;
      CallHolds(p, op, fs);
    }
  }

  lemma AcceptedNext(ps: seq<Pair>, ls: seq<Label>, n: nat, mine: bool)
    requires n < |ls| && |ps| == |ls| + 1
    ensures Accepted(ps, ls, n + 1, mine) ==
            if ls[n].mine != mine then Accepted(ps, ls, n, mine)
            else Accept(Side(ps[n], mine), ls[n].op, Accepted(ps, ls, n, mine))
  {
  }

  lemma NextHolds(ps: seq<Pair>, ls: seq<Label>, n: nat, mine: bool)
    requires Run(ps, ls) && n < |ls| && |ps| == |ls| + 1 && Holds(Side(ps[n], mine).me, Accepted(ps, ls, n, mine))
    ensures Holds(Side(ps[n + 1], mine).me, Accepted(ps, ls, n + 1, mine))
  {
    AcceptedNext(ps, ls, n, mine);
    hide *;
    if ls[n].mine == mine {
      RunSide(ps, ls, n);
      StepHolds(Side(ps[n], mine), ls[n].op, Accepted(ps, ls, n, mine));
    } else {
      RunOther(ps, ls, n, mine);
    }
  }

  /** In every run, the complete messages of an outpipe are those that the accepted writes completed. */
  lemma {:induction false} WritesKeepWhatTheyAccept(ps: seq<Pair>, ls: seq<Label>, n: nat, mine: bool)
    requires Run(ps, ls) && n < |ps| == |ls| + 1
    ensures Holds(Side(ps[n], mine).me, Accepted(ps, ls, n, mine))
  {
    if n > 0 {
      hide *;
      WritesKeepWhatTheyAccept(ps, ls, n - 1, mine);
      NextHolds(ps, ls, n - 1, mine);
    }
  }

  // ------------------------------------------------------------------------------------------
  // From user to user
  // ------------------------------------------------------------------------------------------

  lemma DelimitersAreInvisible(n: nat)
    ensures Visible(Delimiters(n)) == []
  {
    NothingVisible(Delimiters(n));
  }

  lemma {:induction false} VisiblePrefix(a: seq<Frame>, b: seq<Frame>)
    requires a <= b
    ensures Visible(a) <= Visible(b)
  {
    assert b == a + b[|a|..];
    VisibleAppend(a, b[|a|..]);
  }

  /** In every run, hiccups included: what one user's reads returned since its last hiccup is, in order, a beginning of
      the messages that the other user's accepted writes completed since it took that hiccup.  While the hiccup is under way,
      or if it crossed terminate, reads return nothing. */
  lemma ReadsReturnWhatWasWritten(ps: seq<Pair>, ls: seq<Label>, n: nat)
    requires Run(ps, ls) && n < |ps| == |ls| + 1 && !ps[n].me.freed
    ensures if Cut(ps[n]) then Returned(ps, ls, n) == []
            else Returned(ps, ls, n) <= Visible(Complete(Accepted(ps, ls, n, false)))
  {
    var p := ps[n];
    RunFlows(ps, ls, n);
    ReadsReturnWhatTheyConsume(ps, ls, n);
    WritesKeepWhatTheyAccept(ps, ls, n, false);
    hide Run, Safe, Stream, Returned, Accepted;
    if !Cut(p) {
      GotIsPrefix(p.me, p.peer, p.heap[p.me.inpipe], p.toMe);
      VisiblePrefix(p.me.got, p.peer.written + Delimiters(p.peer.closed));
      VisibleAppend(p.peer.written, Delimiters(p.peer.closed));
      DelimitersAreInvisible(p.peer.closed);
    }
  }

  /** A patient user that is asked to terminate gets every message: when its endpoint acknowledges, its reads have
      returned exactly the messages that its peer's accepted writes completed. */
  lemma PatientUserGetsEverything(ps: seq<Pair>, ls: seq<Label>, n: nat)
    requires Run(ps, ls) && n < |ps| == |ls| + 1 && Patient(ls)
    requires PipeTermAck in ps[n].me.sent
    ensures Returned(ps, ls, n) == Visible(Complete(Accepted(ps, ls, n, false)))
  {
    LingeringDelivery(ps, ls, n);
    ReadsReturnWhatTheyConsume(ps, ls, n);
    WritesKeepWhatTheyAccept(ps, ls, n, false);
    VisibleAppend(ps[n].peer.written, [Delimiter]);
    VisibleOne([], Delimiter);
    assert [] + [Delimiter] == [Delimiter];
  }
}
