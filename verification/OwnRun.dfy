/** Whole runs of the ownership tree: nothing goes wrong, and shutdown completes. */
module OwnRun {
  import opened Options
  import opened OwnStep
  import opened OwnTree
  import opened OwnLaunch
  import opened OwnTerm

  /** No step of a good tree fails an assertion or reaches a destroyed object. */
  lemma StepKeepsGood(s: Tree, op: Op)
    requires Good(s) && Enabled(s, op)
    ensures Step(s, op).Next? && Good(Step(s, op).s)
  {
    hide Good;
    match op
    case CreateRoot(o) => RootKeepsGood(s, o);
    case Launch(o, child) => LaunchKeepsGood(s, o, child);
    case Terminate(o) => TerminateKeepsGood(s, o);
    case TermChild(o, child) => TermReqKeepsGood(s, o, child);
    case Promise(o) => PromiseKeepsGood(s, op);
    case SendCounted(o) => PromiseKeepsGood(s, op);
    case DeliverCounted(o) => CountedKeepsGood(s, op);
    case Register(o, count) => PromiseKeepsGood(s, op);
    case Unregister(o) => CountedKeepsGood(s, op);
    case DeliverSelf(o) => OwnKeepsGood(s, o);
    case DeliverDown(o) => if s[o].down[0] == Plug { PlugKeepsGood(s, o); } else { TermDeliveryKeepsGood(s, o); }
    case DeliverUp(o) => if s[o].up[0] == TermReq { RequestKeepsGood(s, o); } else { AckKeepsGood(s, o); }
  }

  lemma {:induction false} RunIsGood(ss: seq<Tree>, ops: seq<Op>, i: nat)
    requires Run(ss, ops) && i < |ss|
    ensures Good(ss[i])
  {
    if i > 0 {
      RunIsGood(ss, ops, i - 1);
      StepKeepsGood(ss[i - 1], ops[i - 1]);
    }
  }

  /** Whatever is called and delivered, and in whatever order: no assertion fails, no command is sent or
      delivered to a destroyed object, and an object is only destroyed after every counted command was
      processed and every child it ever launched was destroyed and its acknowledgement taken. */
  lemma TreesAreSafe(ss: seq<Tree>, ops: seq<Op>, i: nat)
    requires Run(ss, ops) && i < |ss|
    ensures forall op: Op | Enabled(ss[i], op) :: Step(ss[i], op).Next?
    ensures forall o | o in ss[i] && ss[i][o].node.destroyed ::
              && ss[i][o].node.processedSeqnum == ss[i][o].node.sentSeqnum && ss[i][o].node.owned == {}
              && ss[i][o].down == [] && ss[i][o].self == [] && ss[i][o].promised == 0 && ss[i][o].bound == 0 && ss[i][o].extra == 0
    ensures forall o, c | o in ss[i] && ss[i][o].node.destroyed && c in ss[i] && ss[i][c].node.owner == Some(o) ::
              ss[i][c].node.destroyed && ss[i][c].up == []
  {
    RunIsGood(ss, ops, i);
    hide Good, Step;
    forall op: Op | Enabled(ss[i], op)
      ensures Step(ss[i], op).Next?
    {
      StepKeepsGood(ss[i], op);
    }
    forall o | o in ss[i] && ss[i][o].node.destroyed
      ensures ss[i][o].node.processedSeqnum == ss[i][o].node.sentSeqnum && ss[i][o].node.owned == {}
      ensures ss[i][o].down == [] && ss[i][o].self == [] && ss[i][o].promised == 0 && ss[i][o].bound == 0 && ss[i][o].extra == 0
      ensures forall c | c in ss[i] && ss[i][c].node.owner == Some(o) :: ss[i][c].node.destroyed && ss[i][c].up == []
    {
      DestroyedIsQuiet(ss[i], o);
    }
  }

  /** `op` makes `o` run process_term. */
  predicate RunsTerm(s: Tree, op: Op, o: Id) {
    o in s && (   (op == DeliverDown(o) && s[o].down != [] && s[o].down[0] == Term)
               || (op == Terminate(o) && !s[o].node.terminating && s[o].node.owner == None))
  }

  lemma StepKeepsTerminating(s: Tree, op: Op, o: Id)
    requires Enabled(s, op) && Step(s, op).Next? && o in s
    ensures o in Step(s, op).s
    ensures s[o].node.terminating || RunsTerm(s, op, o) ==> Step(s, op).s[o].node.terminating
    ensures RunsTerm(s, op, o) ==> !s[o].node.terminating
  {
    hide LastWords;
    match op
    case DeliverUp(_) =>
      hide OwnAt, TermAt, LaunchAt;
    case DeliverDown(_) =>
      hide OwnAt, TermReqAt, AckAt, LaunchAt;
    case _ =>
      hide AckAt;
  }

  lemma RunStep(ss: seq<Tree>, ops: seq<Op>, i: nat)
    requires Run(ss, ops) && i < |ops|
    ensures Enabled(ss[i], ops[i]) && Step(ss[i], ops[i]) == Next(ss[i + 1])
  {
    hide Step, Enabled;
  }

  lemma {:induction false} TerminatingStays(ss: seq<Tree>, ops: seq<Op>, i: nat, j: nat, o: Id)
    requires Run(ss, ops) && i <= j < |ss| && o in ss[i] && ss[i][o].node.terminating
    ensures o in ss[j] && ss[j][o].node.terminating
  {
    if i < j {
      hide Step;
      TerminatingStays(ss, ops, i, j - 1, o);
      RunStep(ss, ops, j - 1);
      StepKeepsTerminating(ss[j - 1], ops[j - 1], o);
    }
  }

  /** In no run does an object process a second term. */
  lemma TermOnce(ss: seq<Tree>, ops: seq<Op>, i: nat, j: nat, o: Id)
    requires Run(ss, ops) && i < |ops| && j < |ops| && RunsTerm(ss[i], ops[i], o) && RunsTerm(ss[j], ops[j], o)
    ensures i == j
  {
    hide Step;
    var a, b := if i < j then i else j, if i < j then j else i;
    if a < b {
      RunStep(ss, ops, a);
      StepKeepsTerminating(ss[a], ops[a], o);
      TerminatingStays(ss, ops, a + 1, b, o);
      RunStep(ss, ops, b);
      StepKeepsTerminating(ss[b], ops[b], o);
    }
  }

  // ------------------------------------------------------------------------------------------
  // No deadlock
  // ------------------------------------------------------------------------------------------

  /** No command under way or promised, and no acknowledgement owed to a subclass. */
  predicate Quiet(s: Tree) {
    forall o | o in s :: s[o].self == [] && s[o].up == [] && s[o].down == [] && s[o].promised == 0 && s[o].bound == 0 && s[o].extra == 0
  }

  lemma WaitsForAChild(ob: Obj)
    requires NodeOk(ob) && !ob.node.destroyed && ob.node.terminating
    requires ob.self == [] && ob.down == [] && ob.promised == 0 && ob.bound == 0 && ob.extra == 0
    ensures ob.pending != {} && ob.launched == {} && ob.node.owned == {}
  {
    assert |multiset(ob.self)| == |multiset(ob.launched)| == |ob.launched|;
  }

  /** The objects further from the root than `o`. */
  ghost function Below(s: Tree, o: Id): set<Id>
    requires o in s
  {
    set x | x in s && s[x].rank > s[o].rank
  }

  /** A terminating object that is still there waits for a living, terminating child, so there is none. */
  lemma {:induction false} TerminatingIsDestroyed(s: Tree, o: Id)
    requires Good(s) && Quiet(s) && o in s && s[o].node.terminating
    ensures s[o].node.destroyed
    decreases Below(s, o)
  {
    if !s[o].node.destroyed {
      AliveHasNotAcked(s, o);
      WaitsForAChild(s[o]);
      var c :| c in s[o].pending;
      FamilyMember(s, o, c);
      assert Term !in s[c].down && TermAck !in s[c].up;
      assert c in Below(s, o) && c !in Below(s, c);
      TerminatingIsDestroyed(s, c);
    }
  }

  /** `o` hangs under `root`. */
  ghost predicate Under(s: Tree, root: Id, o: Id)
    requires o in s
    decreases s[o].rank
  {
    o == root || (s[o].node.owner.Some? && s[o].node.owner.value in s && s[s[o].node.owner.value].rank < s[o].rank && Under(s, root, s[o].node.owner.value))
  }

  lemma {:induction false} DestroyedBelow(s: Tree, root: Id, o: Id)
    requires Good(s) && root in s && s[root].node.destroyed && o in s && Under(s, root, o)
    ensures s[o].node.destroyed
    decreases s[o].rank
  {
    hide NodeOk, LinkOk;
    if o != root {
      DestroyedBelow(s, root, s[o].node.owner.value);
      DestroyedIsQuiet(s, s[o].node.owner.value);
    }
  }

  /** Shutdown has no deadlock: once the root terminates and nothing is under way any more, its whole
      tree has been destroyed. */
  lemma ShutdownCompletes(ss: seq<Tree>, ops: seq<Op>, i: nat, root: Id)
    requires Run(ss, ops) && i < |ss| && root in ss[i] && ss[i][root].node.terminating && Quiet(ss[i])
    ensures forall o | o in ss[i] && Under(ss[i], root, o) :: ss[i][o].node.destroyed
  {
    RunIsGood(ss, ops, i);
    TerminatingIsDestroyed(ss[i], root);
    forall o | o in ss[i] && Under(ss[i], root, o)
      ensures ss[i][o].node.destroyed
    {
      DestroyedBelow(ss[i], root, o);
    }
  }
}
