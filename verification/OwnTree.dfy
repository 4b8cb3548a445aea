/** The ownership tree: any number of objects that launch, ask and acknowledge each other.

    Commands travel in three FIFO channels per object: `self` (own commands to itself), `up` (to its
    owner) and `down` (from its owner).  Which channel moves next is arbitrary.  Counted commands of
    the rest of the system (attach, bind, inproc_connected) are first promised with inc_seqnum and
    then sent; further acknowledgements can be registered by subclasses. */
module OwnTree {
  import opened Options
  import opened OwnStep

  datatype Up = TermReq | TermAck
  datatype Down = Plug | Term

  /** `launched`, `node.owned` and `pending` partition the children that were not buried yet:
      their own command is under way, they are owned, or they were asked to terminate. */
  datatype Obj = Obj(
    node: Node, rank: nat, self: seq<Id>, up: seq<Up>, down: seq<Down>,
    launched: set<Id>, pending: set<Id>, promised: nat, bound: nat, extra: nat)

  type Tree = map<Id, Obj>

  /** `Fault` is a failed zmq_assert or a command to, or from a handler for, a destroyed object. */
  datatype Outcome = Next(s: Tree) | Fault

  datatype Op =
    | CreateRoot(o: Id)
    | Launch(o: Id, child: Id)
    | Terminate(o: Id)
    | TermChild(o: Id, child: Id)
    | Promise(o: Id)
    | SendCounted(o: Id)
    | DeliverCounted(o: Id)
    | Register(o: Id, count: nat)
    | Unregister(o: Id)
    | DeliverSelf(o: Id)
    | DeliverDown(o: Id)
    | DeliverUp(o: Id)

  function NewObj(n: Node, rank: nat, down: seq<Down>): Obj {
    Obj(n, rank, [], [], down, {}, {}, 0, 0, 0)
  }

  predicate Alive(s: Tree, o: Id) {
    o in s && !s[o].node.destroyed
  }

  /** What the source asks of callers: calls on living objects, and fresh addresses. */
  predicate Enabled(s: Tree, op: Op) {
    match op
    case CreateRoot(o) => o !in s
    case Launch(o, child) => Alive(s, o) && child !in s
    case Terminate(o) => Alive(s, o)
    case TermChild(o, child) => Alive(s, o)
    case Promise(o) => Alive(s, o)
    case SendCounted(o) => o in s && s[o].promised > 0
    case DeliverCounted(o) => o in s && s[o].bound > 0
    case Register(o, count) => Alive(s, o)
    case Unregister(o) => o in s && s[o].extra > 0
    case DeliverSelf(o) => o in s && s[o].self != []
    case DeliverDown(o) => o in s && s[o].down != []
    case DeliverUp(o) => o in s && s[o].up != [] && s[o].node.owner.Some?
  }

  /** Replace object `o`; if it goes away now, acknowledge to its owner. */
  function Put(s: Tree, o: Id, ob: Obj): Outcome
    requires o in s
  {
    var words := LastWords(s[o].node, ob.node);
    if words == [] then Next(s[o := ob])
    else if !Alive(s, words[0].dest) then Fault
    else Next(s[o := ob.(up := ob.up + [TermAck])])
  }

  /** send_term to every object in `cs`. */
  function Ask(s: Tree, cs: set<Id>): Tree {
    map x | x in s :: if x in cs then s[x].(down := s[x].down + [Term]) else s[x]
  }

  predicate AllAlive(s: Tree, cs: set<Id>) {
    forall c | c in cs :: Alive(s, c)
  }

  function TermAt(s: Tree, o: Id): Outcome
    requires o in s
  {
    var ob := s[o];
    if ob.node.terminating || !AllAlive(s, ob.node.owned) then Fault
    else Put(Ask(s, ob.node.owned), o, Ask(s, ob.node.owned)[o].(node := ProcessTerm(ob.node), pending := ob.pending + ob.node.owned))
  }

  function TermReqAt(s: Tree, o: Id, child: Id): Outcome
    requires o in s
  {
    var ob := s[o];
    if ob.node.terminating || child !in ob.node.owned then Next(s)
    else if !Alive(s, child) then Fault
    else Put(Ask(s, {child}), o, Ask(s, {child})[o].(node := ProcessTermReq(ob.node, child), pending := ob.pending + {child}))
  }

  function OwnAt(s: Tree, o: Id): Outcome
    requires o in s && s[o].self != []
  {
    var ob, child := s[o], s[o].self[0];
    var n := ProcessSeqnum(ProcessOwn(ob.node, child));
    var rest := ob.(self := ob.self[1..], launched := ob.launched - {child}, node := n);
    if !ob.node.terminating then Put(s, o, rest)
    else if !Alive(s, child) then Fault
    else Put(Ask(s, {child}), o, Ask(s, {child})[o].(self := rest.self, launched := rest.launched, node := n, pending := ob.pending + {child}))
  }

  function AckAt(s: Tree, o: Id, child: Id): Outcome
    requires o in s
  {
    var ob := s[o];
    if ob.node.termAcks <= 0 then Fault
    else Put(s, o, ob.(node := UnregisterTermAck(ob.node), pending := ob.pending - {child}))
  }

  function LaunchAt(s: Tree, o: Id, child: Id): Tree
    requires o in s
  {
    var ob := s[o];
    s[child := NewObj(IncSeqnum(Create().(owner := Some(o))), ob.rank + 1, [Plug])]
     [o := ob.(node := IncSeqnum(ob.node), self := ob.self + [child], launched := ob.launched + {child})]
  }

  function Step(s: Tree, op: Op): Outcome
    requires Enabled(s, op)
  {
    match op
    case CreateRoot(o) => Next(s[o := NewObj(Create(), 0, [])])
    case Launch(o, child) => Next(LaunchAt(s, o, child))
    case Terminate(o) =>
      var ob := s[o];
      if ob.node.terminating then Next(s)
      else if ob.node.owner == None then TermAt(s, o)
      else if !Alive(s, ob.node.owner.value) then Fault
      else Next(s[o := ob.(up := ob.up + [TermReq])])
    case TermChild(o, child) => TermReqAt(s, o, child)
    case Promise(o) => Next(s[o := s[o].(node := IncSeqnum(s[o].node), promised := s[o].promised + 1)])
    case SendCounted(o) => if !Alive(s, o) then Fault else Next(s[o := s[o].(promised := s[o].promised - 1, bound := s[o].bound + 1)])
    case DeliverCounted(o) =>
      if !Alive(s, o) then Fault
      else Put(s, o, s[o].(bound := s[o].bound - 1, node := ProcessSeqnum(s[o].node)))
    case Register(o, count) => Next(s[o := s[o].(extra := s[o].extra + count, node := s[o].node.(termAcks := s[o].node.termAcks + count))])
    case Unregister(o) =>
      if !Alive(s, o) || s[o].node.termAcks <= 0 then Fault
      else Put(s, o, s[o].(extra := s[o].extra - 1, node := UnregisterTermAck(s[o].node)))
    case DeliverSelf(o) => if !Alive(s, o) then Fault else OwnAt(s, o)
    case DeliverDown(o) =>
      if !Alive(s, o) then Fault
      else
        var rest := s[o := s[o].(down := s[o].down[1..])];
        if s[o].down[0] == Plug then Put(rest, o, rest[o].(node := ProcessSeqnum(rest[o].node))) else TermAt(rest, o)
    case DeliverUp(o) =>
      var p := s[o].node.owner.value;
      if !Alive(s, p) then Fault
      else
        var rest := s[o := s[o].(up := s[o].up[1..])];
        if s[o].up[0] == TermReq then TermReqAt(rest, p, o) else AckAt(rest, p, o)
  }

  ghost predicate Run(ss: seq<Tree>, ops: seq<Op>) {
    && |ss| == |ops| + 1
    && ss[0] == map[]
    && forall i | 0 <= i < |ops| :: Enabled(ss[i], ops[i]) && Step(ss[i], ops[i]) == Next(ss[i + 1])
  }

  // ------------------------------------------------------------------------------------------
  // The invariant
  // ------------------------------------------------------------------------------------------

  predicate Plugs(down: seq<Down>) {
    down == [] || down == [Plug] || down == [Term] || down == [Plug, Term]
  }

  /** What holds of one object on its own. */
  ghost predicate NodeOk(ob: Obj) {
    var n := ob.node;
    && ob.launched !! n.owned !! ob.pending
    && multiset(ob.self) == multiset(ob.launched)
    && (n.terminating ==> n.owned == {})
    && n.termAcks == ob.extra + |ob.pending|
    && n.sentSeqnum == n.processedSeqnum + ob.promised + ob.bound + |ob.launched| + (if Plug in ob.down then 1 else 0)
    && (n.destroyed <==> Finished(n))
    && Plugs(ob.down) && (Term in ob.down ==> !n.terminating)
    && (forall i | 0 <= i < |ob.up| :: ob.up[i] == TermAck ==> i == |ob.up| - 1)
    && (TermAck in ob.up ==> n.destroyed)
    && (n.owner == None ==> ob.up == [] && ob.down == [])
  }

  /** What holds between an object `p` and its child `c`. */
  predicate LinkOk(p: Obj, c: Id, ch: Obj) {
    if c in p.launched || c in p.node.owned then !ch.node.terminating && Term !in ch.down && !ch.node.destroyed
    else if c in p.pending then (Term in ch.down <==> !ch.node.terminating) && (TermAck in ch.up <==> ch.node.destroyed)
    else ch.node.destroyed && ch.up == []
  }

  ghost predicate Children(s: Tree, o: Id)
    requires o in s
  {
    forall c | c in s[o].launched || c in s[o].node.owned || c in s[o].pending :: c in s && s[c].node.owner == Some(o)
  }

  predicate OwnerOk(s: Tree, c: Id)
    requires c in s
  {
    s[c].node.owner.Some? ==>
      s[c].node.owner.value in s && s[s[c].node.owner.value].rank < s[c].rank && LinkOk(s[s[c].node.owner.value], c, s[c])
  }

  ghost predicate ObjOk(s: Tree, o: Id)
    requires o in s
  {
    NodeOk(s[o]) && Children(s, o) && OwnerOk(s, o)
  }

  ghost predicate Good(s: Tree) {
    forall o {:trigger ObjOk(s, o)} | o in s :: ObjOk(s, o)
  }

  lemma DestroyedNode(ob: Obj)
    requires NodeOk(ob) && ob.node.destroyed
    ensures ob.down == [] && ob.self == [] && ob.promised == 0 && ob.bound == 0 && ob.extra == 0
    ensures ob.node.processedSeqnum == ob.node.sentSeqnum
    ensures ob.node.owned == {} && ob.launched == {} && ob.pending == {}
  {
    assert |ob.pending| == 0 && |ob.launched| == 0;
    assert |multiset(ob.self)| == |ob.self|;
  }

  /** Nothing is under way to a destroyed object, and its children are destroyed and acknowledged. */
  lemma DestroyedIsQuiet(s: Tree, o: Id)
    requires Good(s) && o in s && s[o].node.destroyed
    ensures s[o].down == [] && s[o].self == [] && s[o].promised == 0 && s[o].bound == 0 && s[o].extra == 0
    ensures s[o].node.processedSeqnum == s[o].node.sentSeqnum && s[o].node.owned == {}
    ensures forall c | c in s && s[c].node.owner == Some(o) :: s[c].node.destroyed && s[c].up == []
  {
    assert ObjOk(s, o);
    DestroyedNode(s[o]);
    hide NodeOk;
    forall c | c in s && s[c].node.owner == Some(o)
      ensures s[c].node.destroyed && s[c].up == []
    {
      assert ObjOk(s, c);
    }
  }

  /** The owner of a living object, or of one whose commands are under way, is alive. */
  lemma OwnerIsAlive(s: Tree, c: Id)
    requires Good(s) && c in s && s[c].node.owner.Some? && (!s[c].node.destroyed || s[c].up != [])
    ensures Alive(s, s[c].node.owner.value) && ObjOk(s, s[c].node.owner.value)
    ensures s[c].node.owner.value != c && LinkOk(s[s[c].node.owner.value], c, s[c])
    ensures c in s[s[c].node.owner.value].launched + s[s[c].node.owner.value].node.owned + s[s[c].node.owner.value].pending
  {
    var p := s[c].node.owner.value;
    assert ObjOk(s, c) && ObjOk(s, p);
    if s[p].node.destroyed {
      DestroyedNode(s[p]);
    }
  }

  /** Replacing one object. */
  lemma ReplaceOne(s: Tree, o: Id, ob: Obj)
    requires Good(s) && o in s && NodeOk(ob)
    requires ob.node.owner == s[o].node.owner && ob.rank == s[o].rank
    requires ob.launched + ob.node.owned + ob.pending <= s[o].launched + s[o].node.owned + s[o].pending
    requires ob.node.owner.Some? ==> ob.node.owner.value in s && LinkOk(s[ob.node.owner.value], o, ob)
    requires forall c {:trigger LinkOk(ob, c, s[c])} | c in s && s[c].node.owner == Some(o) && c != o :: LinkOk(ob, c, s[c])
    ensures Good(s[o := ob])
  {
    var t := s[o := ob];
    hide NodeOk, LinkOk;
    assert ObjOk(s, o);
    forall x | x in t
      ensures ObjOk(t, x)
    {
      assert ObjOk(s, x);
    }
  }

  /** `ob` and `ch` can take the places of the objects `o` and `child` of the same family. */
  ghost predicate Replaceable(s: Tree, o: Id, ob: Obj, child: Id, ch: Obj) {
    && o in s && child in s && s[child].node.owner == Some(o) && NodeOk(ob) && NodeOk(ch)
    && ob.node.owner == s[o].node.owner && ob.rank == s[o].rank
    && ch.node.owner == s[child].node.owner && ch.rank == s[child].rank
    && ob.launched + ob.node.owned + ob.pending <= s[o].launched + s[o].node.owned + s[o].pending
    && ch.launched == s[child].launched && ch.node.owned == s[child].node.owned && ch.pending == s[child].pending
    && (ob.node.owner.Some? ==> ob.node.owner.value in s && LinkOk(s[ob.node.owner.value], o, ob))
    && LinkOk(ob, child, ch)
    && forall c {:trigger LinkOk(ob, c, s[c])} | c in s && s[c].node.owner == Some(o) && c != child && c != o :: LinkOk(ob, c, s[c])
  }

  lemma MakeReplaceable(s: Tree, o: Id, ob: Obj, child: Id, ch: Obj)
    requires o in s && child in s && s[child].node.owner == Some(o) && NodeOk(ob) && NodeOk(ch)
    requires ob.node.owner == s[o].node.owner && ob.rank == s[o].rank
    requires ch.node.owner == s[child].node.owner && ch.rank == s[child].rank
    requires ob.launched + ob.node.owned + ob.pending <= s[o].launched + s[o].node.owned + s[o].pending
    requires ch.launched == s[child].launched && ch.node.owned == s[child].node.owned && ch.pending == s[child].pending
    requires ob.node.owner.Some? ==> ob.node.owner.value in s && LinkOk(s[ob.node.owner.value], o, ob)
    requires LinkOk(ob, child, ch)
    requires forall c {:trigger LinkOk(ob, c, s[c])} | c in s && s[c].node.owner == Some(o) && c != child && c != o :: LinkOk(ob, c, s[c])
    ensures Replaceable(s, o, ob, child, ch)
  {
    hide NodeOk, LinkOk;
  }

  lemma ReplacedParent(s: Tree, o: Id, ob: Obj, child: Id, ch: Obj)
    requires Good(s) && Replaceable(s, o, ob, child, ch)
    ensures o != child && ob.node.owner != Some(child)
    ensures ObjOk(s[child := ch][o := ob], o)
  {
    hide NodeOk, LinkOk;
    assert ObjOk(s, child) && ObjOk(s, o);
  }

  lemma ReplacedChild(s: Tree, o: Id, ob: Obj, child: Id, ch: Obj)
    requires Good(s) && Replaceable(s, o, ob, child, ch) && o != child
    ensures ObjOk(s[child := ch][o := ob], child)
  {
    hide NodeOk, LinkOk;
    assert ObjOk(s, child);
  }

  lemma SameFamily(p: Obj, q: Obj, c: Id, ch: Obj)
    requires (c in q.launched <==> c in p.launched) && (c in q.node.owned <==> c in p.node.owned) && (c in q.pending <==> c in p.pending)
    ensures LinkOk(p, c, ch) == LinkOk(q, c, ch)
  {
  }

  /** Moving one child within the family of its parent, both objects being replaced. */
  lemma ReplaceTwo(s: Tree, o: Id, ob: Obj, child: Id, ch: Obj)
    requires Good(s) && Replaceable(s, o, ob, child, ch)
    ensures o != child && Good(s[child := ch][o := ob])
  {
    hide NodeOk, LinkOk;
    var t := s[child := ch][o := ob];
    ReplacedParent(s, o, ob, child, ch);
    ReplacedChild(s, o, ob, child, ch);
    forall x | x in t && x != o && x != child
      ensures ObjOk(t, x)
    {
      assert ObjOk(s, x);
      SameFamily(s[child], ch, x, s[x]);
    }
  }
}
