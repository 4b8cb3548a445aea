/** No pipe receives a message with missing initial parts, whatever is attached, activated, terminated
    or refused on the way. */
module DistRun {
  import opened DistStep

  type Pipe = nat

  datatype Style = All | Matching

  /** `frames` counts the frames of the current message sent so far, `accepted` who took which of them. */
  datatype State = State(v: View<Pipe>, frames: nat, style: Style, accepted: map<Pipe, set<nat>>)

  datatype Op =
    | AttachOp(p: Pipe)
    | MatchOp(p: Pipe)
    | UnmatchOp
    | ReverseMatchOp
    | TerminatedOp(p: Pipe)
    | ActivatedOp(p: Pipe)
    | SendOp(style: Style, msgMore: bool, refused: set<Pipe>)

  /** The pipes that a frame is offered to. */
  function Offered(v: View<Pipe>, style: Style): set<Pipe> {
    if style.All? then v.active else v.matching
  }

  /** Matching changes between messages only, and one message is sent in one style. */
  predicate Enabled(s: State, op: Op) {
    match op
    case AttachOp(p) => p !in s.v.all
    case MatchOp(p) => p in s.v.all && !s.v.more
    case UnmatchOp => !s.v.more
    case ReverseMatchOp => !s.v.more
    case TerminatedOp(p) => p in s.v.all
    case ActivatedOp(p) => p in s.v.all - s.v.eligible
    case SendOp(style, msgMore, refused) => refused <= Offered(s.v, style) && (s.v.more ==> style == s.style)
  }

  function Got(accepted: map<Pipe, set<nat>>, p: Pipe): set<nat> {
    if p in accepted then accepted[p] else {}
  }

  /** `takers` accept frame `k`. */
  function Accept(accepted: map<Pipe, set<nat>>, takers: set<Pipe>, k: nat): map<Pipe, set<nat>> {
    map p | p in accepted.Keys + takers :: if p in takers then Got(accepted, p) + {k} else accepted[p]
  }

  function Step(s: State, op: Op): State
    requires Enabled(s, op)
  {
    match op
    case AttachOp(p) => s.(v := Attach(s.v, p))
    case MatchOp(p) => s.(v := Match(s.v, p))
    case UnmatchOp => s.(v := Unmatch(s.v))
    case ReverseMatchOp => s.(v := ReverseMatch(s.v))
    case TerminatedOp(p) => s.(v := PipeTerminated(s.v, p))
    case ActivatedOp(p) => s.(v := Activated(s.v, p))
    case SendOp(style, msgMore, refused) =>
      var first := !s.v.more;
      var k := if first then 0 else s.frames;
      State(if style.All? then SendToAll(s.v, msgMore, refused) else SendToMatching(s.v, msgMore, refused),
            k + 1, style, Accept(if first then map[] else s.accepted, Offered(s.v, style) - refused, k))
  }

  /** Nobody has a later frame of the message without the earlier ones, and whoever is offered the next one has all. */
  ghost predicate NoGaps(s: State) {
    && Ok(s.v)
    && (forall p: Pipe, j: nat {:trigger j in Got(s.accepted, p)} | j in Got(s.accepted, p) ::
          j < s.frames && forall i: nat | i < j :: i in Got(s.accepted, p))
    && (s.v.more ==> forall p | p in Offered(s.v, s.style) :: forall i: nat | i < s.frames :: i in Got(s.accepted, p))
  }

  lemma AcceptGot(accepted: map<Pipe, set<nat>>, takers: set<Pipe>, k: nat, p: Pipe)
    ensures Got(Accept(accepted, takers, k), p) == Got(accepted, p) + if p in takers then {k} else {}
  {
  }

  lemma SendHasNoGaps(s: State, op: Op)
    requires NoGaps(s) && Enabled(s, op) && op.SendOp?
    ensures NoGaps(Step(s, op))
  {
    var t := Step(s, op);
    var first := !s.v.more;
    var k := if first then 0 else s.frames;
    var before := if first then map[] else s.accepted;
    var takers := Offered(s.v, op.style) - op.refused;
    forall p: Pipe
      ensures Got(t.accepted, p) == Got(before, p) + if p in takers then {k} else {}
    {
      AcceptGot(before, takers, k, p);
    }
    hide Accept, Got;
    assert forall p | p in Offered(t.v, t.style) && t.v.more :: p in takers;
  }

  lemma StepHasNoGaps(s: State, op: Op)
    requires NoGaps(s) && Enabled(s, op)
    ensures NoGaps(Step(s, op))
  {
    if op.SendOp? {
      SendHasNoGaps(s, op);
    }
  }

  predicate Runs(s: State, ops: seq<Op>)
    decreases |ops|
  {
    ops == [] || (Enabled(s, ops[0]) && Runs(Step(s, ops[0]), ops[1..]))
  }

  function After(s: State, ops: seq<Op>): State
    requires Runs(s, ops)
    decreases |ops|
  {
    if ops == [] then s else After(Step(s, ops[0]), ops[1..])
  }

  lemma {:induction false} RunHasNoGaps(s: State, ops: seq<Op>)
    requires NoGaps(s) && Runs(s, ops)
    ensures NoGaps(After(s, ops))
    decreases |ops|
  {
    if ops != [] {
      StepHasNoGaps(s, ops[0]);
      RunHasNoGaps(Step(s, ops[0]), ops[1..]);
    }
  }

  /** From an empty distributor on: the partition is ordered, and a pipe that accepted frame `j` of the
      current message accepted every frame before it. */
  lemma MessagesStartAtTheBeginning(ops: seq<Op>, p: Pipe, i: nat, j: nat)
    requires Runs(State(View({}, {}, {}, {}, false), 0, All, map[]), ops)
    ensures var s := After(State(View({}, {}, {}, {}, false), 0, All, map[]), ops);
            Ok(s.v) && (j in Got(s.accepted, p) && i < j ==> i in Got(s.accepted, p))
  {
    RunHasNoGaps(State(View({}, {}, {}, {}, false), 0, All, map[]), ops);
  }
}
