/** The steps of the ownership tree that count a command, launch a child or ask one child to terminate. */
module OwnLaunch {
  import opened Options
  import opened OwnStep
  import opened OwnTree

  // Steps that only touch one object.

  /** An object whose counters changed, with the acknowledgement it sends if that finishes it. */
  function Settled(ob: Obj, n: Node): Obj {
    var done := ob.(node := CheckTermAcks(n));
    if Finished(n) && n.owner.Some? then done.(up := done.up + [TermAck]) else done
  }

  lemma SettledOk(ob: Obj, ob': Obj, n: Node)
    requires NodeOk(ob) && !ob.node.destroyed && !n.destroyed
    requires n.owner == ob.node.owner && n.owned == ob.node.owned && n.terminating == ob.node.terminating
    requires ob' == ob.(bound := ob'.bound, extra := ob'.extra, down := ob'.down, pending := ob'.pending)
    requires ob'.pending <= ob.pending && n.termAcks == ob'.extra + |ob'.pending|
    requires n.sentSeqnum == n.processedSeqnum + ob'.promised + ob'.bound + |ob'.launched| + (if Plug in ob'.down then 1 else 0)
    requires Plugs(ob'.down) && (Term in ob'.down <==> Term in ob.down) && (n.owner == None ==> ob'.down == [])
    ensures NodeOk(Settled(ob', n))
    ensures n.owner.Some? ==> forall p: Obj, o: Id {:trigger LinkOk(p, o, ob)} | LinkOk(p, o, ob) :: LinkOk(p, o, Settled(ob', n))
  {
    assert TermAck in (ob'.up + [TermAck]);
  }

  /** The counting steps: plug, attach or bind delivered, an acknowledgement unregistered. */
  lemma SettleKeepsGood(s: Tree, o: Id, ob: Obj, n: Node)
    requires Good(s) && Alive(s, o) && NodeOk(s[o]) && !n.destroyed
    requires n.owner == s[o].node.owner && n.owned == s[o].node.owned && n.terminating == s[o].node.terminating
    requires ob == s[o].(bound := ob.bound, extra := ob.extra, down := ob.down)
    requires n.termAcks == ob.extra + |ob.pending|
    requires n.sentSeqnum == n.processedSeqnum + ob.promised + ob.bound + |ob.launched| + (if Plug in ob.down then 1 else 0)
    requires Plugs(ob.down) && (Term in ob.down <==> Term in s[o].down) && (n.owner == None ==> ob.down == [])
    ensures Good(s[o := Settled(ob, n)])
    ensures Put(s, o, ob.(node := CheckTermAcks(n))) == Next(s[o := Settled(ob, n)])
  {
    assert ObjOk(s, o);
    SettledOk(s[o], ob, n);
    if n.owner.Some? {
      OwnerIsAlive(s, o);
    }
    hide NodeOk;
    forall c | c in s && s[c].node.owner == Some(o) && c != o
      ensures LinkOk(Settled(ob, n), c, s[c])
    {
      assert ObjOk(s, c);
      SameFamily(s[o], Settled(ob, n), c, s[c]);
    }
    hide LinkOk;
    ReplaceOne(s, o, Settled(ob, n));
  }

  /** Steps that change counters without finishing anything: promises, sends and registrations. */
  lemma CountKeepsGood(s: Tree, o: Id, ob: Obj)
    requires Good(s) && Alive(s, o) && NodeOk(ob)
    requires ob == s[o].(node := ob.node, promised := ob.promised, bound := ob.bound, extra := ob.extra, up := ob.up)
    requires ob.node.owner == s[o].node.owner && ob.node.owned == s[o].node.owned
    requires ob.node.terminating == s[o].node.terminating && !ob.node.destroyed
    requires TermAck !in ob.up && TermAck !in s[o].up
    ensures Good(s[o := ob])
  {
    hide NodeOk;
    assert ObjOk(s, o);
    forall c | c in s && s[c].node.owner == Some(o) && c != o
      ensures LinkOk(ob, c, s[c])
    {
      assert ObjOk(s, c);
      SameFamily(s[o], ob, c, s[c]);
    }
    ReplaceOne(s, o, ob);
  }

  lemma AliveHasNotAcked(s: Tree, o: Id)
    requires Good(s) && Alive(s, o)
    ensures NodeOk(s[o]) && TermAck !in s[o].up && !Finished(s[o].node)
  {
    assert ObjOk(s, o);
  }

  lemma PromiseKeepsGood(s: Tree, op: Op)
    requires Good(s) && Enabled(s, op) && (op.Promise? || op.SendCounted? || op.Register?)
    ensures Step(s, op).Next? && Good(Step(s, op).s)
  {
    var o := op.o;
    if op.SendCounted? && s[o].node.destroyed {
      DestroyedIsQuiet(s, o);
    }
    AliveHasNotAcked(s, o);
    CountKeepsGood(s, o, Step(s, op).s[o]);
  }

  lemma CountedKeepsGood(s: Tree, op: Op)
    requires Good(s) && Enabled(s, op) && (op.DeliverCounted? || op.Unregister?)
    ensures Step(s, op).Next? && Good(Step(s, op).s)
  {
    var o := op.o;
    if s[o].node.destroyed {
      DestroyedIsQuiet(s, o);
    }
    AliveHasNotAcked(s, o);
    var n := s[o].node;
    if op.DeliverCounted? {
      SettleKeepsGood(s, o, s[o].(bound := s[o].bound - 1), n.(processedSeqnum := n.processedSeqnum + 1));
    } else {
      SettleKeepsGood(s, o, s[o].(extra := s[o].extra - 1), n.(termAcks := n.termAcks - 1));
    }
  }

  lemma PutElsewhere(s: Tree, o: Id, ob: Obj, ob': Obj)
    requires o in s && ob.node == s[o].node && ob'.node.owner == ob.node.owner && ob.node.owner != Some(o)
    ensures Put(s[o := ob], o, ob') == Put(s, o, ob')
  {
    assert s[o := ob][o := ob'] == s[o := ob'];
    var acked := ob'.(up := ob'.up + [TermAck]);
    assert s[o := ob][o := acked] == s[o := acked];
  }

  lemma PlugKeepsGood(s: Tree, o: Id)
    requires Good(s) && o in s && s[o].down != [] && s[o].down[0] == Plug
    ensures Step(s, DeliverDown(o)).Next? && Good(Step(s, DeliverDown(o)).s)
  {
    if s[o].node.destroyed {
      DestroyedIsQuiet(s, o);
    }
    AliveHasNotAcked(s, o);
    var n := s[o].node;
    var ob := s[o].(down := s[o].down[1..]);
    SettleKeepsGood(s, o, ob, n.(processedSeqnum := n.processedSeqnum + 1));
    hide NodeOk, LinkOk, Good, Put;
    if n.owner.Some? {
      OwnerIsAlive(s, o);
    }
    PutElsewhere(s, o, ob, ob.(node := ProcessSeqnum(n)));
  }

  // Launching.

  lemma FreshRoot()
    ensures var ob := NewObj(Create(), 0, []);
            NodeOk(ob) && ob.node.owner == None && ob.launched == {} && ob.node.owned == {} && ob.pending == {}
  {
  }

  lemma RootKeepsGood(s: Tree, o: Id)
    requires Good(s) && o !in s
    ensures Good(s[o := NewObj(Create(), 0, [])])
  {
    hide NodeOk, LinkOk, NewObj;
    var ob := NewObj(Create(), 0, []);
    var t := s[o := ob];
    FreshRoot();
    forall x | x in s
      ensures ObjOk(t, x)
    {
      assert ObjOk(s, x);
    }
    assert ObjOk(t, o);
  }

  lemma LaunchNodes(ob: Obj, child: Id)
    requires NodeOk(ob) && !ob.node.destroyed && child !in ob.launched + ob.node.owned + ob.pending
    ensures NodeOk(ob.(node := IncSeqnum(ob.node), self := ob.self + [child], launched := ob.launched + {child}))
    ensures forall o: Id, rank: nat :: NodeOk(NewObj(IncSeqnum(Create().(owner := Some(o))), rank, [Plug]))
  {
  }

  lemma LaunchedMap(s: Tree, o: Id, child: Id)
    requires o in s && child !in s
    ensures var ob, t := s[o], LaunchAt(s, o, child);
            && t.Keys == s.Keys + {child}
            && t[o] == ob.(node := IncSeqnum(ob.node), self := ob.self + [child], launched := ob.launched + {child})
            && t[child] == NewObj(IncSeqnum(Create().(owner := Some(o))), ob.rank + 1, [Plug])
            && forall x | x in s && x != o :: t[x] == s[x]
  {
  }

  lemma LaunchedParent(s: Tree, o: Id, child: Id)
    requires Good(s) && Alive(s, o) && child !in s
    ensures o in LaunchAt(s, o, child) && ObjOk(LaunchAt(s, o, child), o)
  {
    hide NodeOk, LinkOk, LaunchAt;
    AliveHasNotAcked(s, o);
    assert ObjOk(s, o);
    LaunchNodes(s[o], child);
    LaunchedMap(s, o, child);
    var t := LaunchAt(s, o, child);
    assert Children(t, o);
    if s[o].node.owner.Some? {
      SameChild(s[s[o].node.owner.value], o, s[o], t[o]);
    }
    assert OwnerOk(t, o);
  }

  lemma LaunchedChild(s: Tree, o: Id, child: Id)
    requires Good(s) && Alive(s, o) && child !in s
    ensures child in LaunchAt(s, o, child) && ObjOk(LaunchAt(s, o, child), child)
  {
    hide NodeOk, LinkOk, LaunchAt;
    AliveHasNotAcked(s, o);
    assert child !in s[o].launched + s[o].node.owned + s[o].pending by {
      assert ObjOk(s, o);
    }
    LaunchNodes(s[o], child);
    LaunchedMap(s, o, child);
    var t := LaunchAt(s, o, child);
    LaunchedLink(t[o], child, t[child]);
  }

  lemma LaunchKeepsGood(s: Tree, o: Id, child: Id)
    requires Good(s) && Alive(s, o) && child !in s
    ensures Good(LaunchAt(s, o, child))
  {
    hide NodeOk, LinkOk, LaunchAt;
    var t := LaunchAt(s, o, child);
    LaunchedParent(s, o, child);
    LaunchedChild(s, o, child);
    LaunchedMap(s, o, child);
    forall x | x in s && x != o
      ensures ObjOk(t, x)
    {
      assert ObjOk(s, x);
      SameFamily(s[o], t[o], x, s[x]);
    }
  }

  lemma LaunchedLink(p: Obj, c: Id, ch: Obj)
    requires c in p.launched && !ch.node.terminating && Term !in ch.down && !ch.node.destroyed
    ensures LinkOk(p, c, ch)
  {
  }

  lemma SameChild(p: Obj, c: Id, ch: Obj, ch': Obj)
    requires ch'.node.terminating == ch.node.terminating && ch'.node.destroyed == ch.node.destroyed
    requires ch'.down == ch.down && ch'.up == ch.up
    ensures LinkOk(p, c, ch) == LinkOk(p, c, ch')
  {
  }

  // Steps that ask a child to terminate.

  function Asked(ch: Obj): Obj {
    ch.(down := ch.down + [Term])
  }

  lemma AskedNode(ch: Obj)
    requires NodeOk(ch) && !ch.node.terminating && Term !in ch.down && ch.node.owner.Some?
    ensures NodeOk(Asked(ch)) && Term in Asked(ch).down
  {
    assert Term in (ch.down + [Term]);
    assert [Plug] + [Term] == [Plug, Term] && [] + [Term] == [Term];
  }

  lemma AskOne(s: Tree, o: Id, child: Id, ob: Obj)
    requires o in s && child in s && o != child
    ensures Ask(s, {child})[o := ob] == s[child := Asked(s[child])][o := ob]
    ensures o in Ask(s, {child}) && Ask(s, {child})[o] == s[o]
  {
  }

  lemma FamilyMember(s: Tree, o: Id, child: Id)
    requires Good(s) && o in s && (child in s[o].launched || child in s[o].node.owned || child in s[o].pending)
    ensures child in s && s[child].node.owner == Some(o) && child != o
    ensures LinkOk(s[o], child, s[child]) && NodeOk(s[child]) && s[o].rank < s[child].rank
  {
    hide NodeOk, LinkOk;
    assert ObjOk(s, o);
    assert ObjOk(s, child);
  }

  /** `ob` is `s[o]` with the child moved from launched or owned to pending. */
  lemma MoveToPending(s: Tree, o: Id, child: Id, ob: Obj)
    requires Good(s) && Alive(s, o) && (child in s[o].launched || child in s[o].node.owned)
    requires NodeOk(ob) && ob == s[o].(node := ob.node, self := ob.self, launched := ob.launched, pending := ob.pending)
    requires ob.node.owner == s[o].node.owner && ob.node.terminating == s[o].node.terminating && !ob.node.destroyed
    requires ob.launched == s[o].launched - {child} && ob.node.owned == s[o].node.owned - {child} && ob.pending == s[o].pending + {child}
    ensures child in s && o != child && Good(s[child := Asked(s[child])][o := ob])
  {
    hide NodeOk;
    FamilyMember(s, o, child);
    AskedNode(s[child]);
    hide LinkOk;
    AskedLink(ob, child, s[child]);
    if ob.node.owner.Some? {
      OwnerIsAlive(s, o);
      SameChild(s[ob.node.owner.value], o, s[o], ob);
    }
    forall c | c in s && s[c].node.owner == Some(o) && c != child && c != o
      ensures LinkOk(ob, c, s[c])
    {
      assert ObjOk(s, c);
      SameFamily(s[o], ob, c, s[c]);
    }
    ReplaceTwo(s, o, ob, child, Asked(s[child]));
  }

  lemma AskedLink(p: Obj, c: Id, ch: Obj)
    requires c in p.pending && c !in p.launched && c !in p.node.owned
    requires !ch.node.terminating && !ch.node.destroyed && TermAck !in ch.up
    ensures LinkOk(p, c, Asked(ch))
  {
    assert Term in (ch.down + [Term]);
  }

  lemma TermReqNode(ob: Obj, child: Id)
    requires NodeOk(ob) && !ob.node.destroyed && !ob.node.terminating && child in ob.node.owned
    ensures NodeOk(ob.(node := ProcessTermReq(ob.node, child), pending := ob.pending + {child}))
  {
  }

  lemma TermReqKeepsGood(s: Tree, o: Id, child: Id)
    requires Good(s) && Alive(s, o)
    ensures TermReqAt(s, o, child).Next? && Good(TermReqAt(s, o, child).s)
  {
    var ob := s[o];
    if !ob.node.terminating && child in ob.node.owned {
      AliveHasNotAcked(s, o);
      TermReqNode(ob, child);
      FamilyMember(s, o, child);
      hide NodeOk, Good;
      var ob' := ob.(node := ProcessTermReq(ob.node, child), pending := ob.pending + {child});
      assert child !in ob.launched && child !in ob.pending by { DisjointFamily(ob); }
      MoveToPending(s, o, child, ob');
      AskOne(s, o, child, ob');
      hide Ask;
    }
  }

  lemma DisjointFamily(ob: Obj)
    requires NodeOk(ob)
    ensures ob.launched !! ob.node.owned !! ob.pending
  {
  }

  lemma TakeLaunched(self: seq<Id>, launched: set<Id>)
    requires self != [] && multiset(self) == multiset(launched)
    ensures self[0] in launched && multiset(self[1..]) == multiset(launched - {self[0]})
  {
    assert self == [self[0]] + self[1..];
    assert multiset(self) == multiset{self[0]} + multiset(self[1..]);
    assert self[0] in multiset(self);
    assert multiset(launched - {self[0]}) == multiset(launched) - multiset{self[0]};
  }

  lemma OwnNodes(ob: Obj)
    requires NodeOk(ob) && !ob.node.destroyed && ob.self != []
    ensures ob.self[0] in ob.launched
    ensures var rest := Adopted(ob);
            && !rest.node.destroyed && rest.node.owner == ob.node.owner && LastWords(ob.node, rest.node) == []
            && NodeOk(if ob.node.terminating then rest.(pending := ob.pending + {ob.self[0]}) else rest)
  {
    TakeLaunched(ob.self, ob.launched);
  }

  /** The owner after it took an own command from its mailbox. */
  function Adopted(ob: Obj): Obj
    requires ob.self != []
  {
    ob.(self := ob.self[1..], launched := ob.launched - {ob.self[0]}, node := ProcessSeqnum(ProcessOwn(ob.node, ob.self[0])))
  }

  /** A terminating owner asks the new child at once. */
  lemma LateChild(s: Tree, o: Id)
    requires Good(s) && Alive(s, o) && s[o].self != [] && s[o].node.terminating
    ensures OwnAt(s, o).Next? && Good(OwnAt(s, o).s)
  {
    var ob, child := s[o], s[o].self[0];
    AliveHasNotAcked(s, o);
    OwnNodes(ob);
    DisjointFamily(ob);
    TerminatingOwnsNothing(ob);
    hide NodeOk;
    FamilyMember(s, o, child);
    hide LinkOk, Good;
    var ob' := Adopted(ob).(pending := ob.pending + {child});
    MoveToPending(s, o, child, ob');
    AskOne(s, o, child, ob');
    hide Ask;
  }

  lemma NewChild(s: Tree, o: Id)
    requires Good(s) && Alive(s, o) && s[o].self != [] && !s[o].node.terminating
    ensures OwnAt(s, o).Next? && Good(OwnAt(s, o).s)
  {
    var ob, child := s[o], s[o].self[0];
    AliveHasNotAcked(s, o);
    OwnNodes(ob);
    hide NodeOk;
    var rest := Adopted(ob);
    if ob.node.owner.Some? {
      OwnerIsAlive(s, o);
      SameChild(s[ob.node.owner.value], o, ob, rest);
    }
    FamilyMember(s, o, child);
    forall c | c in s && s[c].node.owner == Some(o) && c != o
      ensures LinkOk(rest, c, s[c])
    {
      assert ObjOk(s, c);
      if c != child {
        SameFamily(ob, rest, c, s[c]);
      }
    }
    hide LinkOk;
    ReplaceOne(s, o, rest);
  }

  lemma OwnKeepsGood(s: Tree, o: Id)
    requires Good(s) && o in s && s[o].self != []
    ensures Step(s, DeliverSelf(o)).Next? && Good(Step(s, DeliverSelf(o)).s)
  {
    hide NodeOk, LinkOk, Put;
    if s[o].node.destroyed {
      DestroyedIsQuiet(s, o);
    }
    hide Good, OwnAt;
    if s[o].node.terminating {
      LateChild(s, o);
    } else {
      NewChild(s, o);
    }
  }

  lemma TerminatingOwnsNothing(ob: Obj)
    requires NodeOk(ob) && ob.node.terminating
    ensures ob.node.owned == {}
  {
  }
}
