/** Histories of the load balancer: a message goes into one pipe as a whole or not at all. */
module LbRun {
  import opened Options
  import opened MsgStep
  import opened Arrays
  import opened RingStep
  import opened LbStep

  type Pipe = nat
  type Balancer = Lb<Pipe, nat>

  datatype Op =
    | SendOp(frame: Handle<nat>)
    | HasOutOp
    | AttachOp(p: Pipe, c: Content<nat>)
    | ActivatedOp(i: nat)
    | TerminatedOp(i: nat)
    | RoomOp(p: Pipe, answers: seq<bool>)

  /** A message was begun and its pipe is still there. */
  predicate Midway(f: Balancer) {
    f.more && !f.dropping
  }

  /** Everything complete is published, and nothing else. */
  predicate Tidy(c: Content<nat>) {
    Whole(c.log) && c.flushed == |c.log|
  }

  /** The published frames are the complete messages, and after them comes an unfinished one. */
  predicate Unfinished(c: Content<nat>) {
    c.log != [] && !Whole(c.log) && c.flushed == |Complete(c.log)|
  }

  /** At most one attached pipe holds an unfinished message: the current one, in the middle of a message. */
  ghost predicate Atomic(f: Balancer) {
    && Ok(f.ring) && Usable(f) && (f.dropping ==> f.more) && (Midway(f) ==> f.ring.active > 0)
    && forall i | 0 <= i < |f.ring.pipes| ::
         if Midway(f) && i == f.ring.current then Unfinished(f.conts[f.ring.pipes[i]]) else Tidy(f.conts[f.ring.pipes[i]])
  }

  /** The pipe that leaves has the turn, in which case the rest is dropped, or does not disturb it. */
  predicate Harmless(r: Ring<Pipe>, i: nat) {
    i == r.current || KeepsTurn(r, i)
  }

  predicate Enabled(f: Balancer, op: Op) {
    match op
    case SendOp(frame) => true
    case HasOutOp => true
    case AttachOp(p, c) => p !in f.ring.pipes && Tidy(c)
    case ActivatedOp(i) => f.ring.active <= i < |f.ring.pipes|
    case TerminatedOp(i) => i < |f.ring.pipes| && (Midway(f) ==> Harmless(f.ring, i))
    case RoomOp(p, answers) => true
  }

  /** `RoomOp` is the reader of a pipe making room. */
  function Step(f: Balancer, op: Op): Balancer
    requires Usable(f) && Enabled(f, op)
  {
    match op
    case SendOp(frame) => Send(f, frame).0
    case HasOutOp => HasOut(f).0
    case AttachOp(p, c) => f.(ring := Attach(f.ring, p), conts := f.conts[p := c])
    case ActivatedOp(i) => f.(ring := Activate(f.ring, i))
    case TerminatedOp(i) => PipeTerminated(f, i)
    case RoomOp(p, answers) => if p in f.conts then f.(conts := f.conts[p := f.conts[p].(answers := answers)]) else f
  }

  lemma {:induction false} CompleteIsWhole(log: seq<Handle<nat>>)
    ensures Whole(Complete(log)) && Complete(log) <= log
    ensures forall frame: Handle<nat> | frame.more :: Complete(log + [frame]) == Complete(log)
    ensures Whole(log) ==> Complete(log) == log
  {
    forall frame: Handle<nat> | frame.more
      ensures Complete(log + [frame]) == Complete(log)
    {
      assert (log + [frame])[..|log + [frame]| - 1] == log;
    }
    if !Whole(log) {
      CompleteIsWhole(log[..|log| - 1]);
    }
  }

  lemma TakenContent(c: Content<nat>, frame: Handle<nat>)
    requires (Tidy(c) || Unfinished(c)) && c.HasRoom()
    ensures if frame.more then Unfinished(c.Offer(frame)) else Tidy(c.Offer(frame).Flushed())
  {
    CompleteIsWhole(c.log);
  }

  lemma TakeIsAtomic(f: Balancer, frame: Handle<nat>)
    requires Atomic(f) && !f.dropping && f.ring.active > 0 && f.conts[Current(f)].HasRoom()
    ensures Atomic(Take(f, frame))
  {
    hide Tidy, Unfinished;
    TakenContent(f.conts[Current(f)], frame);
  }

  lemma GiveUpIsAtomic(f: Balancer, frame: Handle<nat>)
    requires Atomic(f) && !f.dropping && f.ring.active > 0 && !f.conts[Current(f)].HasRoom()
    ensures Atomic(GiveUp(f, frame))
  {
    CompleteIsWhole(f.conts[Current(f)].log);
  }

  lemma SkipIsAtomic(f: Balancer, c: Content<nat>)
    requires Atomic(f) && !f.more && f.ring.active > 0 && Tidy(c)
    ensures Atomic(Skip(f, c))
  {
    DeactivateOk(f.ring);
    var s := Skip(f, c);
    forall i | 0 <= i < |s.ring.pipes|
      ensures s.ring.pipes[i] in f.ring.pipes && s.ring.pipes[i] in s.conts && Tidy(s.conts[s.ring.pipes[i]])
    {
    }
  }

  lemma {:induction false} SendIsAtomic(f: Balancer, frame: Handle<nat>)
    requires Atomic(f)
    ensures Atomic(Send(f, frame).0)
    decreases f.ring.active
  {
    if f.dropping || f.ring.active == 0 {
    } else if f.conts[Current(f)].HasRoom() {
      TakeIsAtomic(f, frame);
    } else if f.more {
      GiveUpIsAtomic(f, frame);
    } else {
      SkipIsAtomic(f, f.conts[Current(f)].Offer(frame));
      SendIsAtomic(Skip(f, f.conts[Current(f)].Offer(frame)), frame);
    }
  }

  lemma {:induction false} HasOutIsAtomic(f: Balancer)
    requires Atomic(f)
    ensures Atomic(HasOut(f).0)
    decreases f.ring.active
  {
    if !f.more && f.ring.active > 0 && !f.conts[Current(f)].HasRoom() {
      SkipIsAtomic(f, f.conts[Current(f)].Ask());
      HasOutIsAtomic(Skip(f, f.conts[Current(f)].Ask()));
    }
  }

  /** When a pipe leaves in the middle of a message, exactly the harmless departures keep the message in one piece. */
  lemma TerminatedIsAtomic(f: Balancer, i: nat)
    requires Atomic(f) && i < |f.ring.pipes|
    ensures Atomic(PipeTerminated(f, i)) <==> (Midway(f) ==> Harmless(f.ring, i))
  {
    TerminateOk(f.ring, i);
    var t := PipeTerminated(f, i);
    forall j | 0 <= j < |t.ring.pipes|
      ensures t.ring.pipes[j] in f.ring.pipes
    {
    }
    if f.ring.active > 0 {
      TurnStays(f.ring, i);
    }
  }

  lemma StepIsAtomic(f: Balancer, op: Op)
    requires Atomic(f) && Enabled(f, op)
    ensures Atomic(Step(f, op))
  {
    match op
    case SendOp(frame) => SendIsAtomic(f, frame);
    case HasOutOp => HasOutIsAtomic(f);
    case AttachOp(p, c) => AttachOk(f.ring, p);
    case ActivatedOp(i) => ActivateOk(f.ring, i);
    case TerminatedOp(i) => TerminatedIsAtomic(f, i);
    case RoomOp(p, answers) =>
  }

  predicate Runs(f: Balancer, ops: seq<Op>)
    requires Usable(f)
    decreases |ops|
  {
    ops == [] || (Enabled(f, ops[0]) && Usable(Step(f, ops[0])) && Runs(Step(f, ops[0]), ops[1..]))
  }

  function After(f: Balancer, ops: seq<Op>): Balancer
    requires Usable(f) && Runs(f, ops)
    decreases |ops|
  {
    if ops == [] then f else After(Step(f, ops[0]), ops[1..])
  }

  lemma {:induction false} RunIsAtomic(f: Balancer, ops: seq<Op>)
    requires Atomic(f) && Runs(f, ops)
    ensures Atomic(After(f, ops))
    decreases |ops|
  {
    if ops != [] {
      StepIsAtomic(f, ops[0]);
      RunIsAtomic(Step(f, ops[0]), ops[1..]);
    }
  }

  /** In every history: what any attached pipe has published are complete messages, and the only pipe with an
      unfinished one is the current pipe, in the middle of a message that is not being dropped. */
  lemma MessagesAreAtomic(ops: seq<Op>)
    requires Runs(Lb(Ring([], 0, 0), false, false, map[]), ops)
    ensures var f := After(Lb(Ring([], 0, 0), false, false, map[]), ops);
            && Usable(f)
            && (forall i | 0 <= i < |f.ring.pipes| :: f.conts[f.ring.pipes[i]].flushed == |Complete(f.conts[f.ring.pipes[i]].log)|)
            && (forall i | 0 <= i < |f.ring.pipes| ::
                  !Whole(f.conts[f.ring.pipes[i]].log) <==> Midway(f) && i == f.ring.current)
  {
    RunIsAtomic(Lb(Ring([], 0, 0), false, false, map[]), ops);
    var f := After(Lb(Ring([], 0, 0), false, false, map[]), ops);
    forall i | 0 <= i < |f.ring.pipes|
      ensures f.conts[f.ring.pipes[i]].flushed == |Complete(f.conts[f.ring.pipes[i]].log)|
    {
      CompleteIsWhole(f.conts[f.ring.pipes[i]].log);
    }
  }

  /** A later frame that finds no room fails, and takes back exactly the frames of its message. */
  lemma RefusalRollsBack(f: Balancer, frame: Handle<nat>)
    requires Atomic(f) && Midway(f) && !f.conts[Current(f)].HasRoom()
    ensures var (g, ok) := Send(f, frame);
            && !ok && !g.more && g.ring == f.ring && g.conts.Keys == f.conts.Keys
            && g.conts[Current(f)].log == Complete(f.conts[Current(f)].log)
            && g.conts[Current(f)].flushed == f.conts[Current(f)].flushed == |g.conts[Current(f)].log|
            && forall p | p in f.conts && p != Current(f) :: g.conts[p] == f.conts[p]
  {
    CompleteIsWhole(f.conts[Current(f)].log);
  }

  /** After the pipe of an unfinished message left, the rest of the message goes nowhere. */
  lemma {:induction false} RestIsDropped(f: Balancer, frames: seq<Handle<nat>>)
    requires Usable(f) && f.dropping && frames != []
    requires forall k | 0 <= k < |frames| :: frames[k].more <==> k < |frames| - 1
    ensures SendAll(f, frames) == (f.(more := false, dropping := false), true)
    decreases |frames|
  {
    if |frames| > 1 {
      RestIsDropped(Send(f, frames[0]).0, frames[1..]);
    } else {
      assert frames[1..] == [];
    }
  }

  /** The frames one after the other, as long as they are taken. */
  function SendAll(f: Balancer, frames: seq<Handle<nat>>): (Balancer, bool)
    requires Usable(f)
    decreases |frames|
  {
    if frames == [] then (f, true)
    else
      var (g, ok) := Send(f, frames[0]);
      if !ok || !Usable(g) then (g, false) else SendAll(g, frames[1..])
  }

  /** The frames of a message after its first go into the pipe of the first, one after the other, and the last
      publishes them. */
  lemma {:induction false} RestGoesToTheSamePipe(f: Balancer, frames: seq<Handle<nat>>)
    requires Atomic(f) && Midway(f) && frames != [] && SendAll(f, frames).1
    requires forall k | 0 <= k < |frames| :: frames[k].more <==> k < |frames| - 1
    ensures var (g, ok) := SendAll(f, frames); var p := Current(f);
            && !g.more && g.conts.Keys == f.conts.Keys
            && g.conts[p].log == f.conts[p].log + frames && g.conts[p].flushed == |g.conts[p].log|
            && forall q | q in f.conts && q != p :: g.conts[q] == f.conts[q]
    decreases |frames|
  {
    var p := Current(f);
    SendIsAtomic(f, frames[0]);
    var g := Send(f, frames[0]).0;
    assert g == Take(f, frames[0]);
    hide Ok, Complete, Whole;
    if |frames| > 1 {
      RestGoesToTheSamePipe(g, frames[1..]);
      assert f.conts[p].log + frames == f.conts[p].log + [frames[0]] + frames[1..];
    } else {
      assert frames[1..] == [] && frames == [frames[0]];
    }
  }
}
