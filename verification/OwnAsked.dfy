/** Who is asked to terminate goes away, and who owns whom is what launch_child said.

    A request is only lost if it overtakes the command that gives the object to its owner. */
module OwnAsked {
  import opened Options
  import opened OwnStep
  import opened OwnTree
  import opened OwnLaunch
  import opened OwnTerm
  import opened OwnRun

  // ------------------------------------------------------------------------------------------
  // What a step leaves of an object
  // ------------------------------------------------------------------------------------------

  /** The object kept its owner and its commands, and did not stop terminating. */
  predicate Grows(a: Obj, b: Obj) {
    && b.node.owner == a.node.owner && (a.node.terminating ==> b.node.terminating)
    && a.down <= b.down && a.up <= b.up
  }

  /** Every object of `s` grows into one of `t`, and there are no others. */
  ghost predicate AllGrow(s: Tree, t: Tree) {
    t.Keys == s.Keys && forall x | x in s :: Grows(s[x], t[x])
  }

  lemma GrowTwice(s: Tree, t: Tree, u: Tree)
    requires AllGrow(s, t) && AllGrow(t, u)
    ensures AllGrow(s, u)
  {
    forall x | x in s
      ensures Grows(s[x], u[x])
    {
      assert Grows(s[x], t[x]) && Grows(t[x], u[x]);
    }
  }

  lemma PutGrows(s: Tree, o: Id, ob: Obj)
    requires o in s && Grows(s[o], ob) && Put(s, o, ob).Next?
    ensures AllGrow(s, Put(s, o, ob).s) && Put(s, o, ob).s[o].node == ob.node
  {
  }

  lemma AskGrows(s: Tree, cs: set<Id>)
    ensures AllGrow(s, Ask(s, cs)) && forall c | c in cs && c in s :: Term in Ask(s, cs)[c].down
  {
    forall c | c in cs && c in s
      ensures Term in Ask(s, cs)[c].down
    {
      assert Ask(s, cs)[c].down[|s[c].down|] == Term;
    }
  }

  lemma TermAtGrows(s: Tree, o: Id)
    requires o in s && TermAt(s, o).Next?
    ensures AllGrow(s, TermAt(s, o).s) && TermAt(s, o).s[o].node.terminating
  {
    var ob := s[o];
    var t := Ask(s, ob.node.owned);
    AskGrows(s, ob.node.owned);
    assert Grows(s[o], t[o]);
    PutKeepsOwner(t, o, t[o].(node := ProcessTerm(ob.node), pending := ob.pending + ob.node.owned));
    hide Ask, Put;
    PutGrows(t, o, t[o].(node := ProcessTerm(ob.node), pending := ob.pending + ob.node.owned));
    GrowTwice(s, t, TermAt(s, o).s);
  }

  lemma PutKeepsOwner(s: Tree, o: Id, ob: Obj)
    requires o in s && ob == s[o].(node := ob.node, self := ob.self, launched := ob.launched, pending := ob.pending)
    requires ob.node.owner == s[o].node.owner && (s[o].node.terminating ==> ob.node.terminating)
    ensures Grows(s[o], ob)
  {
  }

  lemma TermReqAtGrows(s: Tree, o: Id, child: Id)
    requires o in s && TermReqAt(s, o, child).Next?
    ensures AllGrow(s, TermReqAt(s, o, child).s)
    ensures !s[o].node.terminating && child in s[o].node.owned && child in s ==> Term in TermReqAt(s, o, child).s[child].down
  {
    var ob := s[o];
    if !ob.node.terminating && child in ob.node.owned {
      var t := Ask(s, {child});
      AskGrows(s, {child});
      assert Grows(s[o], t[o]);
      var ob' := t[o].(node := ProcessTermReq(ob.node, child), pending := ob.pending + {child});
      PutKeepsOwner(t, o, ob');
      hide Ask, Put;
      PutGrows(t, o, ob');
      var u := TermReqAt(s, o, child).s;
      GrowTwice(s, t, u);
      if child in s {
        assert Grows(t[child], u[child]);
      }
    }
  }

  lemma OwnAtGrows(s: Tree, o: Id)
    requires o in s && s[o].self != [] && OwnAt(s, o).Next?
    ensures AllGrow(s, OwnAt(s, o).s)
  {
    var ob, child := s[o], s[o].self[0];
    var n := ProcessSeqnum(ProcessOwn(ob.node, child));
    if !ob.node.terminating {
      hide Put;
      PutGrows(s, o, ob.(self := ob.self[1..], launched := ob.launched - {child}, node := n));
    } else {
      var t := Ask(s, {child});
      AskGrows(s, {child});
      assert Grows(s[o], t[o]);
      var ob' := t[o].(self := ob.self[1..], launched := ob.launched - {child}, node := n, pending := ob.pending + {child});
      PutKeepsOwner(t, o, ob');
      hide Ask, Put;
      PutGrows(t, o, ob');
      GrowTwice(s, t, OwnAt(s, o).s);
    }
  }

  lemma AckAtGrows(s: Tree, o: Id, child: Id)
    requires o in s && AckAt(s, o, child).Next?
    ensures AllGrow(s, AckAt(s, o, child).s)
  {
    hide Put;
    PutGrows(s, o, s[o].(node := UnregisterTermAck(s[o].node), pending := s[o].pending - {child}));
  }

  /** The object whose command a step delivers, with that command taken out. */
  function Popped(s: Tree, op: Op): Tree {
    match op
    case DeliverDown(o) => if o in s && s[o].down != [] then s[o := s[o].(down := s[o].down[1..])] else s
    case DeliverUp(o) => if o in s && s[o].up != [] then s[o := s[o].(up := s[o].up[1..])] else s
    case _ => s
  }

  predicate New(op: Op, x: Id) {
    op == CreateRoot(x) || (op.Launch? && op.child == x)
  }

  /** After a step everybody is there who was, and has what was not delivered. */
  ghost predicate Kept(s: Tree, t: Tree, op: Op) {
    && (forall x :: x in t <==> x in s || New(op, x))
    && forall x | x in s && x in t :: x in Popped(s, op) && Grows(Popped(s, op)[x], t[x])
  }

  lemma KeptIfGrown(s: Tree, t: Tree, op: Op)
    requires AllGrow(Popped(s, op), t) && !op.CreateRoot? && !op.Launch?
    ensures Kept(s, t, op)
  {
    assert Popped(s, op).Keys == s.Keys;
  }

  lemma UpStep(s: Tree, op: Op)
    requires op.DeliverUp? && Enabled(s, op) && Step(s, op).Next?
    ensures Kept(s, Step(s, op).s, op)
  {
    var rest := Popped(s, op);
    var p := s[op.o].node.owner.value;
    hide TermReqAt, AckAt, TermAt, OwnAt, Put, Ask;
    if s[op.o].up[0] == TermReq {
      TermReqAtGrows(rest, p, op.o);
    } else {
      AckAtGrows(rest, p, op.o);
    }
    KeptIfGrown(s, Step(s, op).s, op);
  }

  lemma DownStep(s: Tree, op: Op)
    requires op.DeliverDown? && Enabled(s, op) && Step(s, op).Next?
    ensures Kept(s, Step(s, op).s, op)
  {
    var rest := Popped(s, op);
    hide TermReqAt, AckAt, TermAt, OwnAt, Put, Ask;
    if s[op.o].down[0] == Plug {
      PutGrows(rest, op.o, rest[op.o].(node := ProcessSeqnum(rest[op.o].node)));
    } else {
      TermAtGrows(rest, op.o);
    }
    KeptIfGrown(s, Step(s, op).s, op);
  }

  lemma CallStep(s: Tree, op: Op)
    requires op.Terminate? || op.TermChild? || op.DeliverSelf?
    requires Enabled(s, op) && Step(s, op).Next?
    ensures Kept(s, Step(s, op).s, op)
  {
    hide TermReqAt, AckAt, TermAt, OwnAt, Put, Ask;
    match op
    case Terminate(o) =>
      if !s[o].node.terminating && s[o].node.owner == None {
        TermAtGrows(s, o);
      } else {
        assert s[o].up <= s[o].up + [TermReq];
      }
    case TermChild(o, child) => TermReqAtGrows(s, o, child);
    case DeliverSelf(o) => OwnAtGrows(s, o);
    KeptIfGrown(s, Step(s, op).s, op);
  }

  lemma CountStep(s: Tree, op: Op)
    requires op.DeliverCounted? || op.Unregister? || op.Promise? || op.SendCounted? || op.Register?
    requires Enabled(s, op) && Step(s, op).Next?
    ensures Kept(s, Step(s, op).s, op)
  {
    hide Put;
    match op {
      case DeliverCounted(o) => PutGrows(s, o, s[o].(bound := s[o].bound - 1, node := ProcessSeqnum(s[o].node)));
      case Unregister(o) => PutGrows(s, o, s[o].(extra := s[o].extra - 1, node := UnregisterTermAck(s[o].node)));
      case _ =>
    }
    KeptIfGrown(s, Step(s, op).s, op);
  }

  lemma StepKeeps(s: Tree, op: Op)
    requires Enabled(s, op) && Step(s, op).Next?
    ensures Kept(s, Step(s, op).s, op)
  {
    hide Kept, Step;
    match op
    case DeliverUp(_) => UpStep(s, op);
    case DeliverDown(_) => DownStep(s, op);
    case Terminate(_) => CallStep(s, op);
    case TermChild(_, _) => CallStep(s, op);
    case DeliverSelf(_) => CallStep(s, op);
    case CreateRoot(_) => NewStep(s, op);
    case Launch(_, _) => NewStep(s, op);
    case _ => CountStep(s, op);
  }

  lemma NewStep(s: Tree, op: Op)
    requires (op.CreateRoot? || op.Launch?) && Enabled(s, op) && Step(s, op).Next?
    ensures Kept(s, Step(s, op).s, op)
  {
  }

  // ------------------------------------------------------------------------------------------
  // Requests
  // ------------------------------------------------------------------------------------------

  /** The object terminates, or is bound to: a request or a term is under way, or its owner terminates. */
  predicate Doomed(s: Tree, o: Id) {
    && o in s
    && (   s[o].node.terminating || Term in s[o].down || TermReq in s[o].up
        || (s[o].node.owner.Some? && s[o].node.owner.value in s && s[s[o].node.owner.value].node.terminating))
  }

  /** `op` asks that `o` terminate: it is called on `o` itself, or by the owner on an object that it owns. */
  predicate Asks(s: Tree, op: Op, o: Id) {
    op == Op.Terminate(o) || (op.TermChild? && op.child == o && op.o in s && o in s[op.o].node.owned)
  }

  /** A request of `o` reaches its owner before the owner has processed the own command for `o`. */
  predicate Overtakes(s: Tree, op: Op, o: Id) {
    && op == DeliverUp(o) && o in s && s[o].up != [] && s[o].up[0] == TermReq
    && s[o].node.owner.Some? && s[o].node.owner.value in s && o in s[s[o].node.owner.value].launched
  }

  lemma InPrefix<T>(a: seq<T>, b: seq<T>, x: T)
    requires a <= b && x in a
    ensures x in b
  {
  }

  lemma InTail<T>(a: seq<T>, x: T)
    requires x in a
    ensures x == a[0] || x in a[1..]
  {
  }

  /** Delivering the request of an object that is owned or was asked already leaves it doomed. */
  lemma RequestDooms(s: Tree, o: Id)
    requires Good(s) && Enabled(s, DeliverUp(o)) && s[o].up[0] == TermReq && !Overtakes(s, DeliverUp(o), o)
    ensures Step(s, DeliverUp(o)).Next? && Doomed(Step(s, DeliverUp(o)).s, o)
  {
    var op := DeliverUp(o);
    StepKeepsGood(s, op);
    StepKeeps(s, op);
    OwnerIsAlive(s, o);
    assert ObjOk(s, o);
    var p, t := s[o].node.owner.value, Step(s, op).s;
    var rest := Popped(s, op);
    assert Grows(rest[o], t[o]) && Grows(rest[p], t[p]);
    if !s[o].node.terminating && !s[p].node.terminating {
      if o in s[p].node.owned {
        hide TermAt, OwnAt, AckAt, Put, Ask, NodeOk, LinkOk, Good;
        TermReqAtGrows(rest, p, o);
      } else {
        assert Term in s[o].down;
        InPrefix(s[o].down, t[o].down, Term);
      }
    }
  }

  lemma AskingDooms(s: Tree, op: Op, o: Id)
    requires Good(s) && Enabled(s, op) && Asks(s, op, o)
    ensures Step(s, op).Next? && Doomed(Step(s, op).s, o)
  {
    StepKeepsGood(s, op);
    StepKeepsTerminating(s, op, if op.Terminate? then o else op.o);
    assert ObjOk(s, if op.Terminate? then o else op.o);
    hide Good, Put, Ask, OwnAt, AckAt;
    if op.TermChild? {
      TermReqAtGrows(s, op.o, o);
    } else if !s[o].node.terminating && s[o].node.owner.Some? {
      assert (s[o].up + [TermReq])[|s[o].up|] == TermReq;
    }
  }

  /** Nothing but an overtaking request saves a doomed object. */
  lemma StepKeepsDoomed(s: Tree, op: Op, o: Id)
    requires Good(s) && Enabled(s, op) && Doomed(s, o) && !Overtakes(s, op, o)
    ensures Step(s, op).Next? && Doomed(Step(s, op).s, o)
  {
    StepKeepsGood(s, op);
    StepKeeps(s, op);
    StepKeepsTerminating(s, op, o);
    var t := Step(s, op).s;
    hide Good, Step, Overtakes;
    if s[o].node.terminating {
    } else if s[o].node.owner.Some? && s[o].node.owner.value in s && s[s[o].node.owner.value].node.terminating {
      assert Grows(Popped(s, op)[o], t[o]);
      StepKeepsTerminating(s, op, s[o].node.owner.value);
    } else if Term in s[o].down {
      assert Grows(Popped(s, op)[o], t[o]);
      if op == DeliverDown(o) {
        InTail(s[o].down, Term);
      }
      if Term in Popped(s, op)[o].down {
        InPrefix(Popped(s, op)[o].down, t[o].down, Term);
      }
    } else {
      assert Grows(Popped(s, op)[o], t[o]);
      if op == DeliverUp(o) {
        if s[o].up[0] == TermReq {
          RequestDooms(s, o);
        } else {
          InTail(s[o].up, TermReq);
          InPrefix(Popped(s, op)[o].up, t[o].up, TermReq);
        }
      } else {
        InPrefix(Popped(s, op)[o].up, t[o].up, TermReq);
      }
    }
  }

  /** An overtaking request does nothing; unless the owner terminates or there is a second request, the object is safe
      again. */
  lemma OvertakingIsIgnored(s: Tree, op: Op, o: Id)
    requires Good(s) && Enabled(s, op) && Overtakes(s, op, o)
    ensures Step(s, op) == Next(Popped(s, op)) && o in Popped(s, op)
    ensures Doomed(Popped(s, op), o) <==> TermReq in s[o].up[1..] || s[s[o].node.owner.value].node.terminating
  {
    var p := s[o].node.owner.value;
    OwnerIsAlive(s, o);
    FamilyMember(s, p, o);
    assert NodeOk(s[p]);
    hide Good, NodeOk, TermAt, OwnAt, AckAt;
    DisjointLaunched(s[p], o);
  }

  lemma DisjointLaunched(ob: Obj, c: Id)
    requires NodeOk(ob) && c in ob.launched
    ensures c !in ob.node.owned
  {
  }

  predicate Overtaken(ss: seq<Tree>, ops: seq<Op>, i: nat, j: nat, o: Id)
    requires i <= j <= |ops| && |ss| == |ops| + 1
  {
    exists k :: i <= k < j && Overtakes(ss[k], ops[k], o)
  }

  lemma {:induction false} StaysDoomed(ss: seq<Tree>, ops: seq<Op>, i: nat, j: nat, o: Id)
    requires Run(ss, ops) && i <= j < |ss| == |ops| + 1 && Doomed(ss[i], o) && !Overtaken(ss, ops, i, j, o)
    ensures Doomed(ss[j], o)
  {
    hide Doomed, Overtakes, Step, Enabled, Good;
    if i < j {
      assert !Overtaken(ss, ops, i, j - 1, o);
      assert !Overtakes(ss[j - 1], ops[j - 1], o);
      StaysDoomed(ss, ops, i, j - 1, o);
      RunIsGood(ss, ops, j - 1);
      RunStep(ss, ops, j - 1);
      StepKeepsDoomed(ss[j - 1], ops[j - 1], o);
    }
  }

  lemma DoomedIsDestroyed(s: Tree, o: Id)
    requires Good(s) && Quiet(s) && Doomed(s, o)
    ensures s[o].node.destroyed
  {
    if s[o].node.terminating {
      TerminatingIsDestroyed(s, o);
    } else {
      var p := s[o].node.owner.value;
      TerminatingIsDestroyed(s, p);
      DestroyedIsQuiet(s, p);
    }
  }

  /** Whoever is asked to terminate, by its own call or by its owner, is destroyed by the time nothing is under way any
      more, unless its request overtakes the command that gives it to its owner. */
  lemma RequestsAreHeeded(ss: seq<Tree>, ops: seq<Op>, i: nat, j: nat, o: Id)
    requires Run(ss, ops) && i < j < |ss| == |ops| + 1 && Asks(ss[i], ops[i], o)
    requires !Overtaken(ss, ops, i + 1, j, o) && Quiet(ss[j])
    ensures o in ss[j] && ss[j][o].node.destroyed
  {
    RunIsGood(ss, ops, i);
    RunStep(ss, ops, i);
    RunIsGood(ss, ops, j);
    hide Doomed, Good, Quiet, Asks, Overtaken, Step, Enabled, Run;
    AskingDooms(ss[i], ops[i], o);
    StaysDoomed(ss, ops, i + 1, j, o);
    DoomedIsIn(ss[j], o);
    DoomedIsDestroyed(ss[j], o);
  }

  lemma DoomedIsIn(s: Tree, o: Id)
    requires Doomed(s, o)
    ensures o in s
  {
  }

  // ------------------------------------------------------------------------------------------
  // Families
  // ------------------------------------------------------------------------------------------

  /** `p` launched `c` in the first `n` steps. */
  predicate Launched(ops: seq<Op>, n: nat, p: Id, c: Id)
    requires n <= |ops|
  {
    exists i :: 0 <= i < n && ops[i] == Op.Launch(p, c)
  }

  lemma LaunchedNext(ops: seq<Op>, n: nat, p: Id, c: Id)
    requires n < |ops|
    ensures Launched(ops, n + 1, p, c) <==> Launched(ops, n, p, c) || ops[n] == Op.Launch(p, c)
  {
  }

  lemma LaunchOwner(s: Tree, op: Op)
    requires (op.CreateRoot? || op.Launch?) && Enabled(s, op)
    ensures Step(s, op).Next?
    ensures var t := Step(s, op).s;
            if op.Launch? then op.child in t && t[op.child].node.owner == Some(op.o) else op.o in t && t[op.o].node.owner == None
  {
  }

  lemma StepOwner(s: Tree, op: Op, c: Id)
    requires Good(s) && Enabled(s, op) && Step(s, op).Next? && c in Step(s, op).s
    ensures var t := Step(s, op).s;
            if c in s then t[c].node.owner == s[c].node.owner
            else New(op, c) && t[c].node.owner == if op.Launch? then Some(op.o) else None
    ensures c in s ==> !New(op, c)
  {
    StepKeeps(s, op);
    if c in s {
      assert Grows(Popped(s, op)[c], Step(s, op).s[c]);
    } else {
      LaunchOwner(s, op);
    }
    hide Step, Good;
  }

  /** The children of an object are those that it launched, and no others. */
  lemma {:induction false} ChildrenAreLaunched(ss: seq<Tree>, ops: seq<Op>, n: nat, p: Id, c: Id)
    requires Run(ss, ops) && n < |ss| == |ops| + 1
    ensures c in ss[n] && ss[n][c].node.owner == Some(p) <==> Launched(ops, n, p, c)
  {
    hide Step, Enabled, Good, Launched;
    if n == 0 {
      NothingLaunched(ops, p, c);
    } else {
      ChildrenAreLaunched(ss, ops, n - 1, p, c);
      RunIsGood(ss, ops, n - 1);
      RunStep(ss, ops, n - 1);
      LaunchedNext(ops, n - 1, p, c);
      StepKeeps(ss[n - 1], ops[n - 1]);
      if c in ss[n] {
        StepOwner(ss[n - 1], ops[n - 1], c);
      }
    }
  }

  lemma NothingLaunched(ops: seq<Op>, p: Id, c: Id)
    ensures !Launched(ops, 0, p, c)
  {
  }

  /** When nothing is under way, a living object that does not terminate owns exactly those of its launched children that
      are still alive. */
  lemma QuietFamily(ss: seq<Tree>, ops: seq<Op>, n: nat, p: Id, c: Id)
    requires Run(ss, ops) && n < |ss| == |ops| + 1 && Quiet(ss[n]) && Alive(ss[n], p) && !ss[n][p].node.terminating
    ensures c in ss[n][p].node.owned <==> Launched(ops, n, p, c) && Alive(ss[n], c)
  {
    var s := ss[n];
    RunIsGood(ss, ops, n);
    ChildrenAreLaunched(ss, ops, n, p, c);
    hide Run, Launched;
    assert ObjOk(s, p);
    if c in s[p].node.owned {
      FamilyMember(s, p, c);
    } else if c in s && s[c].node.owner == Some(p) {
      assert ObjOk(s, c);
      NothingUnderWay(s[p]);
      if c in s[p].pending {
        TerminatingIsDestroyed(s, c);
      }
    }
  }

  lemma NothingUnderWay(ob: Obj)
    requires NodeOk(ob) && ob.self == []
    ensures ob.launched == {}
  {
    assert |multiset(ob.self)| == |multiset(ob.launched)| == |ob.launched|;
  }

  // A request that overtakes.

  /** The root 0 and, from the second state on, its child 1. */
  function Family(root: Node, self: seq<Id>, launched: set<Id>, child: Node, up: seq<Up>, down: seq<Down>): Tree {
    map[0 := Obj(root, 0, self, [], [], launched, {}, 0, 0, 0), 1 := Obj(child, 1, [], up, down, {}, {}, 0, 0, 0)]
  }

  function Lost(k: nat): Tree
    requires k <= 6
  {
    var root := Create();
    var owner := root.(sentSeqnum := 1);
    var child := root.(owner := Some(0), sentSeqnum := 1);
    var plugged := child.(processedSeqnum := 1);
    match k
    case 0 => map[]
    case 1 => map[0 := NewObj(root, 0, [])]
    case 2 => Family(owner, [1], {1}, child, [], [Plug])
    case 3 => Family(owner, [1], {1}, plugged, [], [])
    case 4 => Family(owner, [1], {1}, plugged, [TermReq], [])
    case 5 => Family(owner, [1], {1}, plugged, [], [])
    case 6 => Family(owner.(processedSeqnum := 1, owned := {1}), [], {}, plugged, [], [])
  }

  function LostOp(k: nat): Op
    requires k < 6
  {
    match k
    case 0 => CreateRoot(0)
    case 1 => Op.Launch(0, 1)
    case 2 => DeliverDown(1)
    case 3 => Op.Terminate(1)
    case 4 => DeliverUp(1)
    case 5 => DeliverSelf(0)
  }

  lemma LostStep(k: nat)
    requires k < 6
    ensures Enabled(Lost(k), LostOp(k)) && Step(Lost(k), LostOp(k)) == Next(Lost(k + 1))
  {
    var nobody: set<Id>, empty: seq<Id> := {}, [];
    assert nobody + {1} == {1} && {1} - {1} == nobody && empty + [1] == [1] && [1][1..] == empty;
    assert [TermReq][1..] == [] && [Plug][1..] == [];
    match k
    case 0 =>
    case 1 => assert LaunchAt(Lost(1), 0, 1) == Lost(2);
    case 2 =>
      var rest := Lost(2)[1 := Lost(2)[1].(down := [])];
      assert Put(rest, 1, rest[1].(node := ProcessSeqnum(rest[1].node))) == Next(Lost(3));
    case 3 =>
      var none: seq<Up> := [];
      assert none + [TermReq] == [TermReq];
      assert Lost(3)[1 := Lost(3)[1].(up := Lost(3)[1].up + [TermReq])] == Lost(4);
    case 4 =>
      var rest := Lost(4)[1 := Lost(4)[1].(up := Lost(4)[1].up[1..])];
      assert rest == Lost(5) && TermReqAt(rest, 0, 1) == Next(rest);
    case 5 =>
      var ob := Lost(5)[0];
      var done := ob.(self := [], launched := nobody, node := ob.node.(processedSeqnum := 1, owned := {1}));
      assert ProcessSeqnum(ProcessOwn(ob.node, 1)) == done.node;
      assert Put(Lost(5), 0, done) == Next(Lost(6));
  }

  /** An object that asks to terminate before its owner has processed the own command for it is not terminated: the
      request is ignored, and when nothing is under way any more the object is still alive. */
  lemma OvertakingRequestIsLost() returns (ss: seq<Tree>, ops: seq<Op>)
    ensures Run(ss, ops) && |ss| == 7 && Asks(ss[3], ops[3], 1) && Overtakes(ss[4], ops[4], 1)
    ensures Quiet(ss[6]) && Alive(ss[6], 1) && !ss[6][1].node.terminating
  {
    ss := seq(7, i requires 0 <= i < 7 => Lost(i));
    ops := seq(6, i requires 0 <= i < 6 => LostOp(i));
    forall i | 0 <= i < |ops|
      ensures Enabled(ss[i], ops[i]) && Step(ss[i], ops[i]) == Next(ss[i + 1])
    {
      LostStep(i);
    }
    assert ss[0] == map[];
    assert ss[4] == Lost(4) && ss[6] == Lost(6) && ops[3] == LostOp(3) && ops[4] == LostOp(4);
    hide Step, Enabled;
  }
}
