/** One endpoint of a pipe pair (`pipe.cpp`).

    The functions on `Local` say what each public method and each command handler does to an
    endpoint and to the two queues it holds. */
module PipeStep {
  import opened Options
  import opened Ypipe

  datatype State =
    | Active
    | DelimiterReceived
    | WaitingForDelimiter
    | TermAckSent
    | TermReqSent1
    | TermReqSent2

  datatype Frame =
    | Frame(body: nat, more: bool, identity: bool, credential: bool)
    | Delimiter

  /** Commands from one endpoint to its peer.  A hiccup carries the address of a ypipe. */
  datatype Command =
    | ActivateRead
    | ActivateWrite(msgsRead: nat)
    | Hiccup(pipe: nat)
    | PipeTerm
    | PipeTermAck

  /** The fields of pipe_t, plus what is needed to speak about runs: the commands sent so far, the
      frames taken from the current inpipe, and the complete messages, unfinished frames and
      delimiters put into the current outpipe. */
  datatype Endpoint = Endpoint(
    state: State, delay: bool, inActive: bool, outActive: bool,
    hwm: int, lwm: int, msgsRead: nat, msgsWritten: int, peersMsgsRead: nat,
    inpipe: nat, outpipe: Option<nat>, freed: bool,
    sent: seq<Command>, got: seq<Frame>, written: seq<Frame>, open: seq<Frame>, closed: nat)

  /** An endpoint together with the queues behind its two pointers. */
  datatype Local = Local(e: Endpoint, inq: Queue<Frame>, outq: Queue<Frame>)

  const TWO_64 := 0x1_0000_0000_0000_0000

  /** int division truncates toward zero. */
  function ComputeLwm(hwm: int): int {
    if hwm + 1 >= 0 then (hwm + 1) / 2 else -(-(hwm + 1) / 2)
  }

  /** The difference is taken in uint64_t. */
  function CheckHwm(e: Endpoint): bool {
    !(e.hwm > 0 && (e.msgsWritten - e.peersMsgsRead) % TWO_64 >= e.hwm)
  }

  /** pipe_t::pipe_t */
  function Create(inpipe: nat, outpipe: nat, inhwm: int, outhwm: int): Endpoint {
    Endpoint(Active, true, true, true, outhwm, ComputeLwm(inhwm), 0, 0, 0, inpipe, Some(outpipe), false, [], [], [], [], 0)
  }

  function Send(l: Local, c: Command): Local {
    l.(e := l.e.(sent := l.e.sent + [c]))
  }

  function SetState(l: Local, s: State): Local {
    l.(e := l.e.(state := s))
  }

  /** outpipe = NULL; send_pipe_term_ack (peer) */
  function AckAndDropOut(l: Local): Local {
    Send(l.(e := l.e.(outpipe := None), outq := Fresh()), PipeTermAck)
  }

  function ProcessDelimiter(l: Local): Local {
    if l.e.state == Active then SetState(l, DelimiterReceived) else SetState(AckAndDropOut(l), TermAckSent)
  }

  predicate CanRead(e: Endpoint) {
    e.inActive && (e.state == Active || e.state == WaitingForDelimiter)
  }

  /** The endpoint after taking one frame out of its inpipe. */
  function Take(l: Local): Local
    requires l.inq.ready != []
  {
    l.(inq := l.inq.Pop(), e := l.e.(got := l.e.got + [l.inq.ready[0]]))
  }

  function Starve(l: Local): Local {
    l.(inq := l.inq.Look(), e := l.e.(inActive := false))
  }

  function CheckRead(l: Local): (Local, bool) {
    if !CanRead(l.e) then (l, false)
    else if l.inq.ready == [] then (Starve(l), false)
    else if l.inq.ready[0] == Delimiter then (ProcessDelimiter(Take(l)), false)
    else (l, true)
  }

  /** Counting a received frame and telling the writer about it. */
  function CountRead(l: Local, f: Frame): Local
    requires f.Frame?
  {
    var l1 := if !f.more && !f.identity then l.(e := l.e.(msgsRead := l.e.msgsRead + 1)) else l;
    if l1.e.lwm > 0 && l1.e.msgsRead % l1.e.lwm == 0 then Send(l1, ActivateWrite(l1.e.msgsRead)) else l1
  }

  function ReadFrames(l: Local): (Local, Option<Frame>)
    decreases |l.inq.ready|
  {
    if l.inq.ready == [] then (Starve(l), None)
    else
      var f := l.inq.ready[0];
      var l1 := Take(l);
      if f == Delimiter then (ProcessDelimiter(l1), None)
      else if f.credential then ReadFrames(l1)
      else (CountRead(l1, f), Some(f))
  }

  function Read(l: Local): (Local, Option<Frame>) {
    if CanRead(l.e) then ReadFrames(l) else (l, None)
  }

  function CheckWrite(l: Local): (Local, bool) {
    if !l.e.outActive || l.e.state != Active then (l, false)
    else if !CheckHwm(l.e) then (l.(e := l.e.(outActive := false)), false)
    else (l, true)
  }

  function Write(l: Local, f: Frame): (Local, bool)
    requires f.Frame?
  {
    var (l1, ok) := CheckWrite(l);
    if !ok then (l1, false)
    else if f.more then (l1.(outq := l1.outq.Write(f, true), e := l1.e.(open := l1.e.open + [f])), true)
    else
      (l1.(outq := l1.outq.Write(f, false),
           e := l1.e.(written := l1.e.written + l1.e.open + [f], open := [],
                      msgsWritten := if f.identity then l1.e.msgsWritten else l1.e.msgsWritten + 1)), true)
  }

  function Rollback(l: Local): Local {
    if l.e.outpipe == None then l else l.(outq := l.outq.Rollback(), e := l.e.(open := []))
  }

  function Flush(l: Local): Local {
    if l.e.state == TermAckSent || l.e.outpipe == None then l
    else if l.outq.FlushOk() then l.(outq := l.outq.Flush())
    else Send(l.(outq := l.outq.Flush()), ActivateRead)
  }

  function SetNodelay(l: Local): Local {
    l.(e := l.e.(delay := false))
  }

  /** The tail of pipe_t::terminate: stop the outbound flow and write the delimiter. */
  function CloseOut(l: Local): Local {
    var l1 := l.(e := l.e.(outActive := false));
    if l1.e.outpipe == None then l1
    else
      var l2 := Rollback(l1);
      Flush(l2.(outq := l2.outq.Write(Delimiter, false), e := l2.e.(closed := l2.e.closed + 1)))
  }

  /** pipe_t::terminate up to its tail, in the states that do not ignore the call. */
  function StartTerminate(l: Local, delay: bool): Local {
    var l1 := l.(e := l.e.(delay := delay));
    if l.e.state == Active || l.e.state == DelimiterReceived then SetState(Send(l1, PipeTerm), TermReqSent1)
    else if delay then l1
    else SetState(AckAndDropOut(l1), TermAckSent)
  }

  function Terminate(l: Local, delay: bool): Local {
    if l.e.state == TermReqSent1 || l.e.state == TermReqSent2 || l.e.state == TermAckSent
    then l.(e := l.e.(delay := delay))
    else CloseOut(StartTerminate(l, delay))
  }

  function ProcessActivateRead(l: Local): Local {
    if !l.e.inActive && (l.e.state == Active || l.e.state == WaitingForDelimiter)
    then l.(e := l.e.(inActive := true)) else l
  }

  function ProcessActivateWrite(l: Local, msgsRead: nat): Local {
    var l1 := l.(e := l.e.(peersMsgsRead := msgsRead));
    if !l1.e.outActive && l1.e.state == Active then l1.(e := l1.e.(outActive := true)) else l1
  }

  /** The assertion at the head of pipe_t::process_pipe_term. */
  predicate TermExpected(e: Endpoint) {
    e.state == Active || e.state == DelimiterReceived || e.state == TermReqSent1
  }

  function ProcessPipeTerm(l: Local): Local
    requires TermExpected(l.e)
  {
    match l.e.state
    case Active =>
      if l.e.delay then SetState(l, WaitingForDelimiter) else AckAndDropOut(SetState(l, TermAckSent))
    case DelimiterReceived => AckAndDropOut(SetState(l, TermAckSent))
    case TermReqSent1 => AckAndDropOut(SetState(l, TermReqSent2))
  }

  /** The assertion of pipe_t::process_pipe_term_ack. */
  predicate AckExpected(e: Endpoint) {
    e.state == TermReqSent1 || e.state == TermAckSent || e.state == TermReqSent2
  }

  function ProcessPipeTermAck(l: Local): Local
    requires AckExpected(l.e)
  {
    var l1 := if l.e.state == TermReqSent1 then AckAndDropOut(l) else l;
    l1.(e := l1.e.(freed := true), inq := Fresh())
  }

  /** Frames that end a message, as pipe_t::process_hiccup counts them. */
  function CountEnds(fs: seq<Frame>): nat {
    if fs == [] then 0
    else CountEnds(fs[..|fs| - 1]) + if fs[|fs| - 1].Frame? && fs[|fs| - 1].more then 0 else 1
  }

  function PlugOut(l: Local, ends: nat, pipe: nat, q: Queue<Frame>): Local {
    l.(e := l.e.(msgsWritten := l.e.msgsWritten - ends, outActive := true, outpipe := Some(pipe),
                 written := [], open := [], closed := 0),
       outq := q)
  }

  /** The assertion of pipe_t::process_hiccup is that there is an outpipe to replace. */
  function ProcessHiccup(l: Local, pipe: nat, q: Queue<Frame>): Local
    requires l.e.outpipe.Some?
  {
    PlugOut(l, CountEnds(l.outq.Flush().ready), pipe, q)
  }

  /** pipe_t::hiccup: `pipe` is the address of the new inpipe. */
  function HiccupIn(l: Local, pipe: nat): Local {
    if l.e.state != Active then l
    else Send(l.(e := l.e.(inpipe := pipe, inActive := true, got := []), inq := Fresh()), Hiccup(pipe))
  }
}
