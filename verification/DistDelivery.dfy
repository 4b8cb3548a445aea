/** Who gets a message: the pipes that a distributor sends to, told from its history alone. */
module DistDelivery {
  import opened DistStep
  import opened DistRun

  function Start(): State {
    State(View({}, {}, {}, {}, false), 0, All, map[])
  }

  // ------------------------------------------------------------------------------------------
  // Histories
  // ------------------------------------------------------------------------------------------

  /** `p` is attached or told that it has room again. */
  predicate Joins(op: Op, p: Pipe) {
    op == AttachOp(p) || op == ActivatedOp(p)
  }

  /** `p` goes away or has no room. */
  predicate Leaves(op: Op, p: Pipe) {
    op == TerminatedOp(p) || (op.SendOp? && p in op.refused)
  }

  predicate StaysFrom(ops: seq<Op>, i: nat, p: Pipe) {
    forall j | i <= j < |ops| :: !Leaves(ops[j], p)
  }

  /** Before step `n`, `p` was attached or activated, and since then it neither left nor refused a frame. */
  predicate Willing(ops: seq<Op>, n: nat, p: Pipe)
    requires n <= |ops|
  {
    exists i :: 0 <= i < n && Joins(ops[i], p) && StaysFrom(ops, i + 1, p)
  }

  lemma WillingOn(ops: seq<Op>, op: Op, n: nat, p: Pipe)
    requires n <= |ops|
    ensures Willing(ops + [op], n, p) <==> Willing(ops, n, p) && !Leaves(op, p)
    ensures n == |ops| ==> (Willing(ops + [op], n + 1, p) <==> Joins(op, p) || (Willing(ops, n, p) && !Leaves(op, p)))
  {
    var all := ops + [op];
    assert forall i | 0 <= i < |ops| :: all[i] == ops[i];
    if Willing(ops, n, p) && !Leaves(op, p) {
      var i :| 0 <= i < n && Joins(ops[i], p) && StaysFrom(ops, i + 1, p);
      assert Joins(all[i], p) && StaysFrom(all, i + 1, p);
    }
    if Willing(all, n, p) {
      var i :| 0 <= i < n && Joins(all[i], p) && StaysFrom(all, i + 1, p);
      assert StaysFrom(ops, i + 1, p) && !Leaves(all[|ops|], p);
    }
    if n == |ops| && Joins(op, p) {
      assert Joins(all[n], p) && StaysFrom(all, n + 1, p);
    }
  }

  lemma {:induction false} RunsOn(s: State, ops: seq<Op>, op: Op)
    ensures Runs(s, ops + [op]) <==> Runs(s, ops) && Enabled(After(s, ops), op)
    ensures Runs(s, ops + [op]) ==> After(s, ops + [op]) == Step(After(s, ops), op)
    decreases |ops|
  {
    if ops == [] {
      assert ops + [op] == [op] && [op][1..] == [];
    } else {
      assert (ops + [op])[0] == ops[0] && (ops + [op])[1..] == ops[1..] + [op];
      if Enabled(s, ops[0]) {
        RunsOn(Step(s, ops[0]), ops[1..], op);
      }
    }
  }

  lemma StartHasNoGaps()
    ensures NoGaps(Start())
  {
  }

  /** In the middle of a message: more frames of it were announced. */
  predicate Mid(ops: seq<Op>) {
    ops != [] && (var op := ops[|ops| - 1]; if op.SendOp? then op.msgMore else Mid(ops[..|ops| - 1]))
  }

  /** The step in which the current message begins; in between messages, the next step. */
  function MessageStart(ops: seq<Op>): (n: nat)
    ensures n <= |ops|
  {
    if Mid(ops) then
      (if Mid(ops[..|ops| - 1]) then MessageStart(ops[..|ops| - 1]) else |ops| - 1)
    else |ops|
  }

  /** Before the end, `p` was attached, and it did not terminate since. */
  predicate Attached(ops: seq<Op>, p: Pipe) {
    exists i :: 0 <= i < |ops| && ops[i] == AttachOp(p) && forall j | i < j < |ops| :: ops[j] != TerminatedOp(p)
  }

  lemma AttachedOn(ops: seq<Op>, op: Op, p: Pipe)
    ensures Attached(ops + [op], p) <==> op == AttachOp(p) || (Attached(ops, p) && op != TerminatedOp(p))
  {
    var all := ops + [op];
    if Attached(ops, p) && op != TerminatedOp(p) {
      var i :| 0 <= i < |ops| && ops[i] == AttachOp(p) && forall j | i < j < |ops| :: ops[j] != TerminatedOp(p);
      assert all[i] == AttachOp(p);
    }
    if Attached(all, p) {
      var i :| 0 <= i < |all| && all[i] == AttachOp(p) && forall j | i < j < |all| :: all[j] != TerminatedOp(p);
      assert i < |ops| ==> ops[i] == AttachOp(p) && all[|ops|] != TerminatedOp(p);
      assert forall j | i < j < |ops| :: ops[j] == all[j];
    }
    assert op == AttachOp(p) ==> all[|ops|] == AttachOp(p);
  }

  /** What the history says about one pipe. */
  predicate Tells(v: View<Pipe>, ops: seq<Op>, p: Pipe) {
    && (v.more <==> Mid(ops))
    && (p in v.all <==> Attached(ops, p))
    && (p in v.eligible <==> Willing(ops, |ops|, p))
    && (p in v.active <==> Willing(ops, MessageStart(ops), p))
  }

  /** One step, told pipe by pipe. */
  lemma StepMembers(s: State, op: Op, p: Pipe)
    requires NoGaps(s) && Enabled(s, op)
    ensures var v, w := s.v, Step(s, op).v;
            && w.more == (if op.SendOp? then op.msgMore else v.more)
            && (p in w.all <==> op == AttachOp(p) || (p in v.all && op != TerminatedOp(p)))
            && (p in w.eligible <==> Joins(op, p) || (p in v.eligible && !Leaves(op, p)))
            && (p in w.active <==> if w.more then p in v.active && !Leaves(op, p) else p in w.eligible)
  {
    hide Accept;
    StepHasNoGaps(s, op);
  }

  lemma StartOn(ops: seq<Op>, op: Op)
    ensures Mid(ops + [op]) <==> if op.SendOp? then op.msgMore else Mid(ops)
    ensures MessageStart(ops + [op]) == if !Mid(ops + [op]) then |ops| + 1 else if Mid(ops) then MessageStart(ops) else |ops|
    ensures !Mid(ops) ==> MessageStart(ops) == |ops|
  {
    assert (ops + [op])[..|ops + [op]| - 1] == ops;
  }

  lemma StepTells(s: State, ops: seq<Op>, op: Op, p: Pipe)
    requires NoGaps(s) && Enabled(s, op) && Tells(s.v, ops, p)
    ensures Tells(Step(s, op).v, ops + [op], p)
  {
    hide NoGaps, Enabled, Step, Willing, Mid, MessageStart, Attached, Joins, Leaves;
    StepMembers(s, op, p);
    AttachedOn(ops, op, p);
    WillingOn(ops, op, |ops|, p);
    WillingOn(ops, op, MessageStart(ops), p);
    StartOn(ops, op);
  }

  /** From an empty distributor on: the eligible pipes are those that are willing, and the active ones those that were
      willing when the current message began and still are. */
  lemma {:induction false} HistoryTells(ops: seq<Op>, p: Pipe)
    requires Runs(Start(), ops)
    ensures NoGaps(After(Start(), ops)) && Tells(After(Start(), ops).v, ops, p)
    decreases |ops|
  {
    StartHasNoGaps();
    RunHasNoGaps(Start(), ops);
    if ops != [] {
      var rest, op := ops[..|ops| - 1], ops[|ops| - 1];
      assert ops == rest + [op];
      RunsOn(Start(), rest, op);
      HistoryTells(rest, p);
      hide NoGaps, Tells, Step, Enabled;
      StepTells(After(Start(), rest), rest, op, p);
    }
  }

  // ------------------------------------------------------------------------------------------
  // Delivery
  // ------------------------------------------------------------------------------------------

  /** match marks the pipe exactly if it is eligible, and leaves every other pipe where it is. */
  lemma MatchIs(v: View<Pipe>, p: Pipe, q: Pipe)
    requires Ok(v)
    ensures var w := Match(v, p);
            && (q in w.matching <==> q in v.matching || (q == p && p in v.eligible))
            && (q in w.active <==> q in v.active) && (q in w.eligible <==> q in v.eligible) && (q in w.all <==> q in v.all)
            && w.more == v.more
  {
  }

  function Matches(ps: seq<Pipe>): seq<Op> {
    if ps == [] then [] else Matches(ps[..|ps| - 1]) + [MatchOp(ps[|ps| - 1])]
  }

  lemma {:induction false} Matched(s: State, ps: seq<Pipe>)
    requires NoGaps(s) && !s.v.more && s.v.matching == {} && Runs(s, Matches(ps))
    ensures var v := After(s, Matches(ps)).v;
            && v == s.v.(matching := v.matching)
            && forall p: Pipe :: p in v.matching <==> p in ps && p in s.v.eligible
    decreases |ps|
  {
    if ps != [] {
      var rest, p := ps[..|ps| - 1], ps[|ps| - 1];
      assert ps == rest + [p];
      RunsOn(s, Matches(rest), MatchOp(p));
      Matched(s, rest);
      RunHasNoGaps(s, Matches(rest));
      var v := After(s, Matches(rest)).v;
      forall q: Pipe
        ensures q in Match(v, p).matching <==> q in ps && q in s.v.eligible
      {
        MatchIs(v, p, q);
      }
    }
  }

  /** The first frame of a message goes to exactly the pipes it is offered to that have room. */
  lemma FirstFrame(s: State, style: Style, msgMore: bool, refused: set<Pipe>, p: Pipe)
    requires NoGaps(s) && !s.v.more && Enabled(s, SendOp(style, msgMore, refused))
    ensures Got(Step(s, SendOp(style, msgMore, refused)).accepted, p)
         == if p in Offered(s.v, style) && p !in refused then {0} else {}
  {
    AcceptGot(map[], Offered(s.v, style) - refused, 0, p);
  }

  lemma {:induction false} RunsConcat(s: State, a: seq<Op>, b: seq<Op>)
    ensures Runs(s, a + b) <==> Runs(s, a) && Runs(After(s, a), b)
    ensures Runs(s, a + b) ==> After(s, a + b) == After(After(s, a), b)
    decreases |a|
  {
    if a == [] {
      assert a + b == b;
    } else {
      assert (a + b)[0] == a[0] && (a + b)[1..] == a[1..] + b;
      if Enabled(s, a[0]) {
        RunsConcat(Step(s, a[0]), a[1..], b);
      }
    }
  }

  /** The calls that choose the pipes of a message. */
  function Choose(ps: seq<Pipe>, reverse: bool): seq<Op> {
    [UnmatchOp] + Matches(ps) + if reverse then [ReverseMatchOp] else []
  }

  lemma Chosen(s: State, ps: seq<Pipe>, reverse: bool)
    requires NoGaps(s) && Runs(s, Choose(ps, reverse))
    ensures var t := After(s, Choose(ps, reverse));
            && NoGaps(t) && !t.v.more && !s.v.more && t.v.eligible == s.v.eligible
            && forall p: Pipe :: p in t.v.matching <==> p in s.v.eligible && (p in ps) != reverse
  {
    var last := if reverse then [ReverseMatchOp] else [];
    RunHasNoGaps(s, Choose(ps, reverse));
    RunsConcat(s, [UnmatchOp] + Matches(ps), last);
    RunsConcat(s, [UnmatchOp], Matches(ps));
    assert [UnmatchOp][0] == UnmatchOp && [UnmatchOp][1..] == [];
    var u := Step(s, UnmatchOp);
    assert After(s, [UnmatchOp]) == u;
    StepHasNoGaps(s, UnmatchOp);
    Matched(u, ps);
    hide NoGaps;
    if reverse {
      assert [ReverseMatchOp][0] == ReverseMatchOp && [ReverseMatchOp][1..] == [];
    }
  }

  /** unmatch, any matches, possibly reverse_match, send_to_matching: the message begins at exactly the pipes
      that were matched (or were not), that are willing and that have room. */
  lemma MatchedDelivery(ops: seq<Op>, ps: seq<Pipe>, reverse: bool, msgMore: bool, refused: set<Pipe>, p: Pipe)
    requires Runs(Start(), ops + Choose(ps, reverse) + [SendOp(Matching, msgMore, refused)])
    ensures var s := After(Start(), ops + Choose(ps, reverse) + [SendOp(Matching, msgMore, refused)]);
            Got(s.accepted, p) == if (p in ps) != reverse && Willing(ops, |ops|, p) && p !in refused then {0} else {}
  {
    var send := SendOp(Matching, msgMore, refused);
    RunsOn(Start(), ops + Choose(ps, reverse), send);
    RunsConcat(Start(), ops, Choose(ps, reverse));
    HistoryTells(ops, p);
    var s := After(Start(), ops);
    hide Willing, Mid, MessageStart, Attached, Accept, Runs, Choose, NoGaps, Start;
    Chosen(s, ps, reverse);
    FirstFrame(After(s, Choose(ps, reverse)), Matching, msgMore, refused, p);
  }

  /** send_to_all: the message begins at exactly the willing pipes that have room. */
  lemma DeliveryToAll(ops: seq<Op>, msgMore: bool, refused: set<Pipe>, p: Pipe)
    requires Runs(Start(), ops + [SendOp(All, msgMore, refused)]) && !Mid(ops)
    ensures Got(After(Start(), ops + [SendOp(All, msgMore, refused)]).accepted, p)
         == if Willing(ops, |ops|, p) && p !in refused then {0} else {}
  {
    var send := SendOp(All, msgMore, refused);
    RunsOn(Start(), ops, send);
    HistoryTells(ops, p);
    var s := After(Start(), ops);
    assert Ok(s.v);
    hide Willing, Mid, MessageStart, Attached, Accept, Runs, NoGaps, Start;
    FirstFrame(s, All, msgMore, refused, p);
  }

  /** Whoever took the last frame of an unfinished message is offered the next one. */
  lemma TakersAreOffered(s: State, style: Style, refused: set<Pipe>, p: Pipe)
    requires NoGaps(s) && Enabled(s, SendOp(style, true, refused))
    ensures var t := Step(s, SendOp(style, true, refused));
            && t.v.more && t.style == style && t.frames > 0 && (p in Offered(t.v, style) <==> t.frames - 1 in Got(t.accepted, p))
  {
    var k := if s.v.more then s.frames else 0;
    AcceptGot(if s.v.more then s.accepted else map[], Offered(s.v, style) - refused, k, p);
    hide Accept;
  }

  lemma {:induction false} OfferedLater(s: State, between: seq<Op>, p: Pipe)
    requires NoGaps(s) && s.v.more && Runs(s, between) && forall op | op in between :: !op.SendOp?
    ensures var t := After(s, between);
            && NoGaps(t) && t.v.more && t.style == s.style && t.frames == s.frames && t.accepted == s.accepted
            && (p in Offered(t.v, s.style) <==> p in Offered(s.v, s.style) && TerminatedOp(p) !in between)
    decreases |between|
  {
    if between != [] {
      assert between == [between[0]] + between[1..];
      StepHasNoGaps(s, between[0]);
      hide NoGaps, Accept;
      OfferedLater(Step(s, between[0]), between[1..], p);
    }
  }

  /** A later frame of a message is accepted by exactly the pipes that accepted the frame before it, did not
      terminate in between and have room. */
  lemma RestOfMessage(s: State, between: seq<Op>, style: Style, first: set<Pipe>, msgMore: bool, refused: set<Pipe>, p: Pipe)
    requires NoGaps(s) && Enabled(s, SendOp(style, true, first)) && forall op | op in between :: !op.SendOp?
    requires var t := Step(s, SendOp(style, true, first));
             Runs(t, between) && Enabled(After(t, between), SendOp(style, msgMore, refused))
    ensures var t := Step(s, SendOp(style, true, first)); var u := Step(After(t, between), SendOp(style, msgMore, refused));
            && t.frames > 0 && u.frames == t.frames + 1
            && (t.frames in Got(u.accepted, p) <==> t.frames - 1 in Got(t.accepted, p) && TerminatedOp(p) !in between && p !in refused)
  {
    var t := Step(s, SendOp(style, true, first));
    StepHasNoGaps(s, SendOp(style, true, first));
    TakersAreOffered(s, style, first, p);
    OfferedLater(t, between, p);
    var m := After(t, between);
    AcceptGot(m.accepted, Offered(m.v, style) - refused, m.frames, p);
    hide Accept;
    assert t.frames !in Got(m.accepted, p);
  }

  // ------------------------------------------------------------------------------------------
  // Who matches
  // ------------------------------------------------------------------------------------------

  /** Whether the next send_to_matching is offered to `p`, told from the history: the last choice made by match,
      unmatch and reverse_match, or by sending to all, as far as `p` is still willing. */
  predicate Selected(ops: seq<Op>, p: Pipe) {
    ops != []
    && (var rest, op := ops[..|ops| - 1], ops[|ops| - 1];
        match op
        case MatchOp(q) => Selected(rest, p) || (q == p && Willing(rest, |rest|, p))
        case UnmatchOp => false
        case ReverseMatchOp => Willing(rest, |rest|, p) && !Selected(rest, p)
        case SendOp(style, _, refused) =>
          (if style.All? then Willing(rest, MessageStart(rest), p) else Selected(rest, p)) && p !in refused
        case TerminatedOp(q) => Selected(rest, p) && q != p
        case _ => Selected(rest, p))
  }

  lemma StepMatches(s: State, op: Op, p: Pipe)
    requires NoGaps(s) && Enabled(s, op)
    ensures var v, w := s.v, Step(s, op).v;
            p in w.matching <==>
            match op
            case MatchOp(q) => p in v.matching || (q == p && p in v.eligible)
            case UnmatchOp => false
            case ReverseMatchOp => p in v.eligible && p !in v.matching
            case SendOp(style, _, refused) => p in Offered(v, style) && p !in refused
            case TerminatedOp(q) => p in v.matching && q != p
            case _ => p in v.matching
  {
    hide Accept;
  }

  /** From an empty distributor on, the matching pipes are those that the history selects. */
  lemma {:induction false} HistorySelects(ops: seq<Op>, p: Pipe)
    requires Runs(Start(), ops)
    ensures p in After(Start(), ops).v.matching <==> Selected(ops, p)
    decreases |ops|
  {
    if ops != [] {
      var rest, op := ops[..|ops| - 1], ops[|ops| - 1];
      assert ops == rest + [op];
      RunsOn(Start(), rest, op);
      HistorySelects(rest, p);
      HistoryTells(rest, p);
      hide NoGaps, Step, Enabled, Willing, Mid, MessageStart, Attached;
      StepMatches(After(Start(), rest), op, p);
    }
  }
}
