/** Histories of the fair queue: messages are never interleaved, and nobody waits for long. */
module FqRun {
  import opened Options
  import opened MsgStep
  import opened Arrays
  import opened RingStep
  import opened FqStep

  type Pipe = nat
  type Queue = Fq<Pipe, nat>
  type Result = Outcome<Pipe, nat>

  /** `Arrive` is another thread publishing complete messages into a pipe, `Close` the socket terminating a pipe, which
      refuses to be read from then on. */
  datatype Op =
    | RecvOp
    | HasInOp
    | ArriveOp(p: Pipe, frames: seq<Handle<nat>>)
    | AttachOp(p: Pipe, c: Content<nat>)
    | ActivatedOp(i: nat)
    | TerminatedOp(i: nat)
    | CloseOp(p: Pipe)

  /** A passive pipe is activated; a pipe that terminates in the middle of a message does not disturb the turn; the
      pipe that a message is being read from is not closed. */
  predicate Enabled(f: Queue, op: Op) {
    match op
    case RecvOp => true
    case HasInOp => true
    case ArriveOp(p, frames) => Whole(frames)
    case AttachOp(p, c) => p !in f.ring.pipes && Whole(c.inbox)
    case ActivatedOp(i) => f.ring.active <= i < |f.ring.pipes|
    case TerminatedOp(i) => i < |f.ring.pipes| && (f.more ==> KeepsTurn(f.ring, i))
    case CloseOp(p) => p in f.ring.pipes && !(f.more && Usable(f) && f.ring.active > 0 && p == Current(f))
  }

  function Arrive(f: Queue, p: Pipe, frames: seq<Handle<nat>>): Queue {
    if p in f.conts then f.(conts := f.conts[p := f.conts[p].(inbox := f.conts[p].inbox + frames)]) else f
  }

  function Close(f: Queue, p: Pipe): Queue {
    if p in f.conts then f.(conts := f.conts[p := f.conts[p].(refuses := true)]) else f
  }

  ghost function Step(f: Queue, op: Op): (Queue, Result)
    requires Valid(f) && Enabled(f, op)
  {
    match op
    case RecvOp => Recv(f)
    case HasInOp => (HasIn(f).0, Nothing)
    case ArriveOp(p, frames) => (Arrive(f, p, frames), Nothing)
    case AttachOp(p, c) => (f.(ring := Attach(f.ring, p), conts := f.conts[p := c]), Nothing)
    case ActivatedOp(i) => (f.(ring := Activate(f.ring, i)), Nothing)
    case TerminatedOp(i) => (f.(ring := Terminate(f.ring, i)), Nothing)
    case CloseOp(p) => (Close(f, p), Nothing)
  }

  lemma {:induction false} HasInKeepsValid(f: Queue)
    requires Valid(f)
    ensures Valid(HasIn(f).0) && HasIn(f).0.more == f.more && (f.more ==> HasIn(f).0 == f)
    ensures HasIn(f).1 <==> Recv(f).1.Got?
    decreases f.ring.active
  {
    if f.ring.active > 0 {
      DeactivateOk(f.ring);
    }
    if f.ring.active > 0 && !f.conts[Current(f)].HasFrame() {
      HasInKeepsValid(f.(ring := Deactivate(f.ring)));
    }
  }

  lemma StepKeepsValid(f: Queue, op: Op)
    requires Valid(f) && Enabled(f, op)
    ensures Valid(Step(f, op).0) && Step(f, op).1 != Fault
    ensures f.more && !op.RecvOp? ==> Step(f, op).0.more && Current(Step(f, op).0) == Current(f)
    ensures !op.RecvOp? ==> Step(f, op).0.more == f.more && Step(f, op).1 == Nothing
  {
    match op
    case RecvOp => RecvKeepsValid(f);
    case HasInOp => HasInKeepsValid(f);
    case ArriveOp(p, frames) =>
    case AttachOp(p, c) => AttachIsValid(f, p, c);
    case ActivatedOp(i) => ActivateIsValid(f, i);
    case TerminatedOp(i) =>
      TerminateIsValid(f, i, f.conts);
      if f.more {
        TurnStays(f.ring, i);
      }
    case CloseOp(p) =>
  }

  /** In the middle of a message the condition on terminating pipes is exact: without it the next frame would
      be read from another pipe. */
  lemma TerminatingMidMessage(f: Queue, i: nat)
    requires Valid(f) && f.more && i < |f.ring.pipes|
    ensures var r := Terminate(f.ring, i);
            (r.active > 0 && r.pipes[r.current] == Current(f)) <==> Enabled(f, TerminatedOp(i))
  {
    TurnStays(f.ring, i);
  }

  /** The assertion in recvpipe fails exactly if the pipe that was closed is the one a message is being read from. */
  lemma ClosingMidMessage(f: Queue, p: Pipe)
    requires Valid(f) && p in f.ring.pipes
    ensures Usable(Close(f, p))
    ensures Recv(Close(f, p)).1 == Fault <==> !Enabled(f, CloseOp(p))
  {
    if Enabled(f, CloseOp(p)) {
      StepKeepsValid(f, CloseOp(p));
      RecvKeepsValid(Close(f, p));
    }
  }

  ghost predicate Runs(f: Queue, ops: seq<Op>)
    requires Valid(f)
    decreases |ops|
  {
    ops == [] || (Enabled(f, ops[0]) && (StepKeepsValid(f, ops[0]); Runs(Step(f, ops[0]).0, ops[1..])))
  }

  /** The frames that recv returned, with the pipes they came from. */
  ghost function Received(f: Queue, ops: seq<Op>): seq<(Pipe, Handle<nat>)>
    requires Valid(f) && Runs(f, ops)
    decreases |ops|
  {
    if ops == [] then []
    else
      StepKeepsValid(f, ops[0]);
      var (g, out) := Step(f, ops[0]);
      (if out.Got? then [(out.pipe, out.frame)] else []) + Received(g, ops[1..])
  }

  /** The frames of a message come from one pipe, one after the other. */
  ghost predicate Grouped(out: seq<(Pipe, Handle<nat>)>) {
    forall k | 0 < k < |out| && out[k - 1].1.more :: out[k].0 == out[k - 1].0
  }

  lemma {:induction false} ReceivedIsGrouped(f: Queue, ops: seq<Op>)
    requires Valid(f) && Runs(f, ops)
    ensures Grouped(Received(f, ops))
    ensures f.more && Received(f, ops) != [] ==> Received(f, ops)[0].0 == Current(f)
    decreases |ops|
  {
    if ops != [] {
      StepKeepsValid(f, ops[0]);
      RecvKeepsValid(f);
      ReceivedIsGrouped(Step(f, ops[0]).0, ops[1..]);
    }
  }

  /** In every history of the queue the assertion in recvpipe holds and messages are not interleaved,
      although pipes are attached, activated and terminated in between. */
  lemma MessagesAreNotInterleaved(ops: seq<Op>)
    requires Runs(Fq(Ring([], 0, 0), false, map[]), ops)
    ensures Grouped(Received(Fq(Ring([], 0, 0), false, map[]), ops))
  {
    ReceivedIsGrouped(Fq(Ring([], 0, 0), false, map[]), ops);
  }

  // ------------------------------------------------------------------------------------------
  // Fairness
  // ------------------------------------------------------------------------------------------

  /** The number of complete messages among the frames. */
  ghost function Messages(out: seq<(Pipe, Handle<nat>)>): nat {
    if out == [] then 0 else Messages(out[1..]) + if out[0].1.more then 0 else 1
  }

  ghost predicate Waiting(f: Queue, i: nat, p: Pipe) {
    Valid(f) && i < f.ring.active && f.ring.pipes[i] == p && f.conts[p].HasFrame()
  }

  lemma {:induction false} RecvIsFair(f: Queue, i: nat, p: Pipe) returns (j: nat)
    requires Waiting(f, i, p)
    ensures Recv(f).1.Got?
    ensures Recv(f).1.pipe != p ==> Waiting(Recv(f).0, j, p)
    ensures Recv(f).1.pipe != p ==> Distance(Recv(f).0.ring, j) + (if Recv(f).1.frame.more then 0 else 1) <= Distance(f.ring, i)
    decreases f.ring.active
  {
    DeactivateOk(f.ring);
    RecvKeepsValid(f);
    j := i;
    if !f.conts[Current(f)].HasFrame() {
      var k := SkippingIsFair(f.ring, i);
      j := RecvIsFair(f.(ring := Deactivate(f.ring)), k, p);
    } else if i != f.ring.current {
      AdvancingIsFair(f.ring, i);
    }
  }

  lemma {:induction false} HasInIsFair(f: Queue, i: nat, p: Pipe) returns (j: nat)
    requires Waiting(f, i, p)
    ensures Waiting(HasIn(f).0, j, p) && Distance(HasIn(f).0.ring, j) <= Distance(f.ring, i)
    decreases f.ring.active
  {
    DeactivateOk(f.ring);
    HasInKeepsValid(f);
    j := i;
    if !f.more && !f.conts[Current(f)].HasFrame() {
      var k := SkippingIsFair(f.ring, i);
      j := HasInIsFair(f.(ring := Deactivate(f.ring)), k, p);
    }
  }

  /** While an active pipe has something to read and no pipe is attached, activated or terminated, at most as
      many complete messages of others are received before its next frame as there are pipes ahead of it,
      even if pipes run empty, are swapped out or are polled on the way. */
  lemma {:induction false} NobodyWaitsForLong(f: Queue, ops: seq<Op>, i: nat, p: Pipe)
    requires Waiting(f, i, p) && Runs(f, ops)
    requires forall op | op in ops :: op.RecvOp? || op.HasInOp? || op.ArriveOp?
    requires forall out | out in Received(f, ops) :: out.0 != p
    ensures Messages(Received(f, ops)) <= Distance(f.ring, i) == (i - f.ring.current) % f.ring.active
    decreases |ops|
  {
    assert ops != [] ==> ops == [ops[0]] + ops[1..];
    DistanceIsModular(f.ring, i);
    if ops != [] {
      hide Valid, Ok, Distance, Waiting;
      assert ops[0] in ops;
      var j := OneStep(f, ops[0], i, p, ops[1..]);
      var g := Step(f, ops[0]).0;
      assert forall o | o in Received(g, ops[1..]) :: o in Received(f, ops);
      NobodyWaitsForLong(g, ops[1..], j, p);
    }
  }

  /** The first step of a history, and what the others receive. */
  lemma OneStep(f: Queue, op: Op, i: nat, p: Pipe, rest: seq<Op>) returns (j: nat)
    requires Waiting(f, i, p) && Valid(f) && Runs(f, [op] + rest) && (op.RecvOp? || op.HasInOp? || op.ArriveOp?)
    requires forall out | out in Received(f, [op] + rest) :: out.0 != p
    ensures Enabled(f, op) && Valid(Step(f, op).0) && Runs(Step(f, op).0, rest) && Waiting(Step(f, op).0, j, p)
    ensures i < f.ring.active && j < Step(f, op).0.ring.active
    ensures Messages(Received(f, [op] + rest)) - Messages(Received(Step(f, op).0, rest))
         <= Distance(f.ring, i) - Distance(Step(f, op).0.ring, j)
    ensures Received(f, [op] + rest) == Received(Step(f, op).0, rest)
         || (Received(f, [op] + rest) != [] && Received(f, [op] + rest)[1..] == Received(Step(f, op).0, rest))
  {
    var ops := [op] + rest;
    assert ops[0] == op && ops[1..] == rest;
    StepKeepsValid(f, op);
    var (g, out) := Step(f, op);
    j := i;
    match op {
      case RecvOp =>
        j := RecvIsFair(f, i, p);
        assert Received(f, ops)[0].0 != p;
        assert Received(f, ops)[1..] == Received(g, rest);
      case HasInOp =>
        j := HasInIsFair(f, i, p);
        assert Received(f, ops) == Received(g, rest);
      case ArriveOp(q, frames) =>
        assert Received(f, ops) == Received(g, rest);
    }
  }

  lemma DistanceIsModular(r: Ring<Pipe>, i: nat)
    requires Ok(r) && i < r.active
    ensures Distance(r, i) == (i - r.current) % r.active
  {
  }
}
