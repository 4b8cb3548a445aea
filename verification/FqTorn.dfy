/** What the fair queue does when a termination disturbs the turn in the middle of a message. */
module FqTorn {
  import opened Options
  import opened MsgStep
  import opened Arrays
  import opened RingStep
  import opened FqStep
  import opened FqRun

  ghost function After(f: Queue, ops: seq<Op>): (g: Queue)
    requires Valid(f) && Runs(f, ops)
    ensures Valid(g)
    decreases |ops|
  {
    if ops == [] then f else StepKeepsValid(f, ops[0]); After(Step(f, ops[0]).0, ops[1..])
  }

  function FrameOf(more: bool): Handle<nat> {
    Handle(Vsm, false, more, None)
  }

  function Box(frames: seq<Handle<nat>>): Content<nat> {
    Content([], 0, [], 0, frames, false)
  }

  /** Behind the first frame, the first pipe has `rest`, the second nothing, and the third the end of a message. */
  function Others(i: nat, rest: seq<Handle<nat>>): seq<Handle<nat>> {
    if i == 0 then rest else if i == 1 then [] else [FrameOf(false)]
  }

  /** What is in the pipe at position `i` after the first `k` pipes were read from. */
  function Slot(k: nat, i: nat, rest: seq<Handle<nat>>): Content<nat> {
    Box(if k > i then Others(i, rest) else [FrameOf(i == 2)] + Others(i, rest))
  }

  /** Three pipes; the first `k` of them were read from, and the third has begun a message when k is 3. */
  function Served(k: nat, rest: seq<Handle<nat>>): Queue {
    Fq(Ring([1, 2, 3], 3, if k < 2 then k else 2), k >= 3, map[1 := Slot(k, 0, rest), 2 := Slot(k, 1, rest), 3 := Slot(k, 2, rest)])
  }

  lemma RunsOn(f: Queue, op: Op, ops: seq<Op>)
    requires Valid(f) && Enabled(f, op) && Valid(Step(f, op).0) && Runs(Step(f, op).0, ops)
    ensures Runs(f, [op] + ops) && After(f, [op] + ops) == After(Step(f, op).0, ops)
  {
    assert ([op] + ops)[0] == op && ([op] + ops)[1..] == ops;
  }

  lemma SlotFacts(k: nat, i: nat, rest: seq<Handle<nat>>)
    requires Whole(rest) && i < 3
    ensures Whole(Slot(k, i, rest).inbox) && (k == 3 && i == 2 ==> Slot(k, i, rest).HasFrame())
  {
  }

  lemma ServedIsValid(k: nat, rest: seq<Handle<nat>>)
    requires k <= 3 && Whole(rest)
    ensures Valid(Served(k, rest))
  {
    hide Slot, Whole;
    SlotFacts(k, 0, rest);
    SlotFacts(k, 1, rest);
    SlotFacts(k, 2, rest);
  }

  lemma RecvFirst(f: Queue, p: Pipe, frame: Handle<nat>, others: seq<Handle<nat>>)
    requires Valid(f) && f.ring.active > 0 && f.ring.pipes[f.ring.current] == p && f.conts[p] == Box([frame] + others)
    ensures Step(f, RecvOp).0 == Fq(if frame.more then f.ring else Advance(f.ring), frame.more, f.conts[p := Box(others)])
  {
    assert ([frame] + others)[1..] == others;
  }

  lemma ServedNext(k: nat, rest: seq<Handle<nat>>)
    requires k < 3
    ensures var f := Served(k, rest);
            && f.ring.active == 3 && f.ring.pipes[f.ring.current] == k + 1 && f.conts[k + 1] == Box([FrameOf(k == 2)] + Others(k, rest))
            && (if k == 2 then f.ring else Advance(f.ring)) == Served(k + 1, rest).ring
            && f.conts[k + 1 := Box(Others(k, rest))] == Served(k + 1, rest).conts
  {
    hide Box, FrameOf, Others;
  }

  lemma ServeNext(k: nat, rest: seq<Handle<nat>>)
    requires k < 3 && Whole(rest)
    ensures Valid(Served(k, rest)) && Step(Served(k, rest), RecvOp).0 == Served(k + 1, rest)
  {
    ServedIsValid(k, rest);
    hide Valid, Step, Box, Others, Slot;
    ServedNext(k, rest);
    RecvFirst(Served(k, rest), k + 1, FrameOf(k == 2), Others(k, rest));
  }

  lemma RunsNone(f: Queue)
    requires Valid(f)
    ensures Runs(f, []) && After(f, []) == f
  {
  }

  lemma {:induction false} ServeAll(k: nat, rest: seq<Handle<nat>>)
    requires k <= 3 && Whole(rest)
    ensures Valid(Served(k, rest)) && Runs(Served(k, rest), seq(3 - k, _ => RecvOp))
    ensures After(Served(k, rest), seq(3 - k, _ => RecvOp)) == Served(3, rest)
    decreases 3 - k
  {
    hide Served, Valid, Step, Runs, Whole;
    ServedIsValid(k, rest);
    if k < 3 {
      ServeNext(k, rest);
      ServeAll(k + 1, rest);
      assert seq(3 - k, _ => RecvOp) == [RecvOp] + seq(3 - (k + 1), _ => RecvOp);
      RunsOn(Served(k, rest), RecvOp, seq(3 - (k + 1), _ => RecvOp));
    } else {
      assert seq(3 - k, _ => RecvOp) == [];
      RunsNone(Served(k, rest));
    }
  }

  /** The first `k` pipes are attached. */
  function Attached(k: nat, rest: seq<Handle<nat>>): Queue
    requires k <= 3
  {
    if k == 0 then Fq(Ring([], 0, 0), false, map[])
    else Fq(Ring([1, 2, 3][..k], k, 0), false, Attached(k - 1, rest).conts[k := Slot(0, k - 1, rest)])
  }

  function AttachNext(k: nat, rest: seq<Handle<nat>>): Op
    requires k < 3
  {
    AttachOp(k + 1, Slot(0, k, rest))
  }

  lemma {:induction false} AttachedIsValid(k: nat, rest: seq<Handle<nat>>)
    requires k <= 3 && Whole(rest)
    ensures Valid(Attached(k, rest))
  {
    if k > 0 {
      AttachedIsValid(k - 1, rest);
      AttachedNext(k - 1, rest);
    }
  }

  lemma AttachedNext(k: nat, rest: seq<Handle<nat>>)
    requires k < 3 && Whole(rest) && Valid(Attached(k, rest))
    ensures Enabled(Attached(k, rest), AttachNext(k, rest)) && Valid(Attached(k + 1, rest))
    ensures Step(Attached(k, rest), AttachNext(k, rest)).0 == Attached(k + 1, rest)
  {
    hide Slot, Whole, Valid;
    SlotFacts(0, k, rest);
    var f := Attached(k, rest);
    assert f.ring.pipes == [1, 2, 3][..k];
    assert [1, 2, 3][..k] + [k + 1] == [1, 2, 3][..k + 1];
    assert Swapped([1, 2, 3][..k + 1], k, k) == [1, 2, 3][..k + 1];
    AttachIsValid(f, k + 1, Slot(0, k, rest));
  }

  /** A reached state in which the last active pipe is in the middle of a message. */
  lemma MidMessageIsReached(rest: seq<Handle<nat>>) returns (ops: seq<Op>)
    requires Whole(rest)
    ensures Runs(Fq(Ring([], 0, 0), false, map[]), ops) && After(Fq(Ring([], 0, 0), false, map[]), ops) == Served(3, rest)
  {
    var a, b, c := AttachNext(0, rest), AttachNext(1, rest), AttachNext(2, rest);
    AllAttached(rest);
    ServeAll(0, rest);
    ops := seq(3, _ => RecvOp);
    hide Attached, Served, AttachNext, Step, Enabled, Valid, Runs;
    AttachedIsValid(0, rest);
    AttachedNext(0, rest);
    AttachedNext(1, rest);
    AttachedNext(2, rest);
    RunsOn(Attached(2, rest), c, ops);
    ops := [c] + ops;
    RunsOn(Attached(1, rest), b, ops);
    ops := [b] + ops;
    RunsOn(Attached(0, rest), a, ops);
    ops := [a] + ops;
  }

  lemma AllAttached(rest: seq<Handle<nat>>)
    ensures Attached(0, rest) == Fq(Ring([], 0, 0), false, map[]) && Attached(3, rest) == Served(0, rest)
  {
    hide Slot;
    assert [1, 2, 3][..3] == [1, 2, 3];
    assert Attached(3, rest).conts == Attached(2, rest).conts[3 := Slot(0, 2, rest)];
    assert Attached(2, rest).conts == Attached(1, rest).conts[2 := Slot(0, 1, rest)];
    assert Attached(1, rest).conts == map[1 := Slot(0, 0, rest)];
  }

  /** A termination that disturbs the turn tears a message apart: pipe 3 has begun a message, pipe 2 terminates, and
      the next frame is read from pipe 1; if pipe 1 has none, the assertion in recvpipe fails. */
  lemma TornMessage(rest: seq<Handle<nat>>) returns (ops: seq<Op>, f: Queue)
    requires Whole(rest)
    ensures Runs(Fq(Ring([], 0, 0), false, map[]), ops) && f == After(Fq(Ring([], 0, 0), false, map[]), ops)
    ensures f.more && Usable(f) && f.ring.active > 0 && Current(f) == 3 && f.ring.pipes == [1, 2, 3] && f.conts[3].HasFrame()
    ensures var g := f.(ring := Terminate(f.ring, 1));
            Usable(g) && Recv(g).1 == if rest == [] then Fault else Got(1, rest[0])
  {
    ops := MidMessageIsReached(rest);
    f := Served(3, rest);
    assert Swapped([1, 2, 3], 1, 2) == [1, 3, 2];
    assert Swapped([1, 3, 2], 2, 2)[..2] == [1, 3];
    assert Terminate(f.ring, 1) == Ring([1, 3], 2, 0);
  }
}
