/** The steps of the ownership tree that acknowledge, and the termination of an object with all its children. */
module OwnTerm {
  import opened Options
  import opened OwnStep
  import opened OwnTree
  import opened OwnLaunch

  // Acknowledgements.

  /** The owner of `child` after it took the acknowledgement of `child`. */
  function Buried(ob: Obj, child: Id): Obj {
    Settled(ob.(pending := ob.pending - {child}), ob.node.(termAcks := ob.node.termAcks - 1))
  }

  lemma BuriedNode(ob: Obj, child: Id)
    requires NodeOk(ob) && !ob.node.destroyed && child in ob.pending
    ensures NodeOk(Buried(ob, child))
    ensures ob.node.owner.Some? ==> forall p: Obj, o: Id {:trigger LinkOk(p, o, ob)} | LinkOk(p, o, ob) :: LinkOk(p, o, Buried(ob, child))
  {
    SettledOk(ob, ob.(pending := ob.pending - {child}), ob.node.(termAcks := ob.node.termAcks - 1));
  }

  lemma BuriedLink(ob: Obj, child: Id, c: Id, ch: Obj)
    requires if c == child then c !in ob.launched + ob.node.owned && ch.node.destroyed && ch.up == [] else LinkOk(ob, c, ch)
    ensures LinkOk(Buried(ob, child), c, ch)
  {
  }

  lemma BuryChild(s: Tree, o: Id, child: Id)
    requires Good(s) && child in s && s[child].node.owner == Some(o) && s[child].up != [] && s[child].up[0] == TermAck
    ensures Alive(s, o) && o != child && s[o].node.termAcks > 0
    ensures Good(s[child := s[child].(up := [])][o := Buried(s[o], child)])
  {
    hide NodeOk, LinkOk, Buried, Replaceable;
    OwnerIsAlive(s, child);
    AliveHasNotAcked(s, o);
    AckedChild(s, child);
    var ob, ob', ch := s[o], Buried(s[o], child), s[child].(up := []);
    BuriedNode(ob, child);
    BuriedNodes(s[child]);
    BuriedFamily(ob, child);
    if ob.node.owner.Some? {
      OwnerIsAlive(s, o);
    }
    forall c | c in s && s[c].node.owner == Some(o) && c != child && c != o
      ensures LinkOk(ob', c, s[c])
    {
      assert ObjOk(s, c);
      BuriedLink(ob, child, c, s[c]);
    }
    BuriedLink(ob, child, child, ch);
    MakeReplaceable(s, o, ob', child, ch);
    ReplaceTwo(s, o, ob', child, ch);
  }

  lemma BuriedFamily(ob: Obj, child: Id)
    ensures var b := Buried(ob, child);
            && b.launched == ob.launched && b.node.owned == ob.node.owned && b.pending == ob.pending - {child}
            && b.node.owner == ob.node.owner && b.rank == ob.rank
  {
  }

  /** A child whose acknowledgement was taken out of its channel is buried. */
  lemma AckKeepsGood(s: Tree, child: Id)
    requires Good(s) && child in s && s[child].up != [] && s[child].up[0] == TermAck && s[child].node.owner.Some?
    ensures Step(s, DeliverUp(child)).Next? && Good(Step(s, DeliverUp(child)).s)
  {
    var o := s[child].node.owner.value;
    BuryChild(s, o, child);
    AckedChild(s, child);
    if s[o].node.owner.Some? {
      OwnerIsAlive(s, o);
      assert ObjOk(s, s[o].node.owner.value);
    }
    hide NodeOk, LinkOk, Good;
    var n := s[o].node.(termAcks := s[o].node.termAcks - 1);
    PutRest(s, o, child, s[child].(up := []), s[o].(pending := s[o].pending - {child}, node := CheckTermAcks(n)));
    hide Put;
  }

  lemma PutRest(s: Tree, o: Id, child: Id, ch: Obj, ob: Obj)
    requires o in s && child in s && o != child && ob.node.owner == s[o].node.owner && !s[o].node.destroyed
    requires ob.node.owner.Some? ==> ob.node.owner.value != child && Alive(s, ob.node.owner.value)
    ensures Put(s[child := ch], o, ob) ==
            Next(s[child := ch][o := if ob.node.destroyed && ob.node.owner.Some? then ob.(up := ob.up + [TermAck]) else ob])
  {
  }

  lemma BuriedNodes(ch: Obj)
    requires NodeOk(ch) && ch.node.destroyed
    ensures NodeOk(ch.(up := []))
  {
  }

  lemma AckedChild(s: Tree, child: Id)
    requires Good(s) && child in s && s[child].up != [] && s[child].up[0] == TermAck && s[child].node.owner.Some?
    requires s[child].node.owner.value in s
    ensures var ob := s[s[child].node.owner.value];
            s[child].up[1..] == [] && s[child].node.destroyed && child in ob.pending && child !in ob.launched && child !in ob.node.owned
            && |ob.pending| >= 1 && ob.node.termAcks == ob.extra + |ob.pending| && |ob.pending - {child}| == |ob.pending| - 1
            && NodeOk(s[child]) && s[s[child].node.owner.value].rank < s[child].rank
            && (ob.node.owner.Some? ==> ob.node.owner.value != child)
  {
    OwnerIsAlive(s, child);
    assert ObjOk(s, child) && ObjOk(s, s[child].node.owner.value);
    assert TermAck in s[child].up;
  }

  // Termination of an object asks all its owned children.

  /** `ob` after process_term, with the acknowledgement it sends if it has nobody to wait for. */
  function Termed(ob: Obj): Obj {
    Settled(ob.(pending := ob.pending + ob.node.owned),
            ob.node.(termAcks := ob.node.termAcks + |ob.node.owned|, owned := {}, terminating := true))
  }

  lemma TermedNode(ob: Obj, ob0: Obj)
    requires NodeOk(ob) && !ob.node.terminating && !ob.node.destroyed && ob0 == ob.(down := ob0.down)
    requires Plugs(ob0.down) && Term !in ob0.down && (Plug in ob0.down <==> Plug in ob.down) && (ob.node.owner == None ==> ob0.down == [])
    ensures NodeOk(Termed(ob0))
  {
    assert |ob.pending + ob.node.owned| == |ob.pending| + |ob.node.owned|;
  }

  lemma TermedLink(p: Obj, o: Id, ob: Obj, ob0: Obj)
    requires LinkOk(p, o, ob) && Term in ob.down && !ob.node.destroyed && ob0 == ob.(down := ob0.down) && Term !in ob0.down
    requires ob.node.owner.Some? && TermAck !in ob.up
    ensures LinkOk(p, o, Termed(ob0))
  {
    assert TermAck in (ob.up + [TermAck]);
  }

  lemma TermedFamily(ob: Obj, ob0: Obj, c: Id, ch: Obj)
    requires LinkOk(ob, c, ch) && NodeOk(ob) && NodeOk(ch) && ob0 == ob.(down := ob0.down)
    ensures LinkOk(Termed(ob0), c, if c in ob.node.owned then Asked(ch) else ch)
  {
    assert Term in (ch.down + [Term]);
  }

  /** Everybody in the tree after `o` terminated. */
  lemma TermedMap(s: Tree, o: Id, ob0: Obj, t: Tree)
    requires o in s && ob0.node == s[o].node && !ob0.node.terminating && !ob0.node.destroyed && o !in ob0.node.owned
    requires AllAlive(s, ob0.node.owned) && (ob0.node.owner.Some? ==> Alive(s, ob0.node.owner.value) && ob0.node.owner.value != o)
    requires t.Keys == s.Keys && t[o] == Termed(ob0)
    requires forall x | x in s && x != o :: t[x] == if x in ob0.node.owned then Asked(s[x]) else s[x]
    ensures TermAt(s[o := ob0], o) == Next(t)
  {
    var rest := s[o := ob0];
    var n := ob0.node.(termAcks := ob0.node.termAcks + |ob0.node.owned|, owned := {}, terminating := true);
    var mid := Ask(rest, ob0.node.owned);
    assert mid[o] == ob0;
    var ob1 := ob0.(node := CheckTermAcks(n), pending := ob0.pending + ob0.node.owned);
    assert Put(mid, o, ob1) == Next(mid[o := Termed(ob0)]);
    assert mid[o := Termed(ob0)] == t;
  }

  ghost predicate Terminable(s: Tree, o: Id, ob0: Obj) {
    && Alive(s, o) && !s[o].node.terminating && ob0 == s[o].(down := ob0.down)
    && Plugs(ob0.down) && Term !in ob0.down && (Plug in ob0.down <==> Plug in s[o].down)
    && (if s[o].node.owner == None then ob0.down == [] else Term in s[o].down)
  }

  lemma TermedFrame(ob: Obj)
    ensures var t := Termed(ob);
            && t.rank == ob.rank && t.node.owner == ob.node.owner && t.launched == ob.launched
            && t.node.owned == {} && t.pending == ob.pending + ob.node.owned
  {
  }

  lemma OwnedIsFresh(p: Obj, c: Id, ch: Obj)
    requires LinkOk(p, c, ch) && c in p.node.owned
    ensures !ch.node.terminating && Term !in ch.down && !ch.node.destroyed
  {
  }

  ghost predicate AfterTerm(s: Tree, o: Id, ob0: Obj, t: Tree) {
    && Good(s) && Terminable(s, o, ob0) && t.Keys == s.Keys && t[o] == Termed(ob0)
    && forall y | y in s && y != o :: t[y] == if y in ob0.node.owned then Asked(s[y]) else s[y]
  }

  lemma TermOthers(s: Tree, o: Id, ob0: Obj, t: Tree, x: Id)
    requires AfterTerm(s, o, ob0, t) && x in s && x != o
    ensures ObjOk(t, x)
  {
    hide NodeOk, LinkOk, Termed;
    assert ObjOk(s, x) && ObjOk(s, o);
    TermedFrame(ob0);
    if x in ob0.node.owned {
      FamilyMember(s, o, x);
      OwnedIsFresh(s[o], x, s[x]);
      AskedNode(s[x]);
    }
    if s[x].node.owner.Some? {
      var p := s[x].node.owner.value;
      if p == o {
        TermedFamily(s[o], ob0, x, s[x]);
      } else {
        SameFamily(s[p], t[p], x, s[x]);
      }
    }
  }

  lemma TermSelfOwner(s: Tree, o: Id, ob0: Obj, t: Tree)
    requires AfterTerm(s, o, ob0, t)
    ensures OwnerOk(t, o)
  {
    hide NodeOk, LinkOk, Termed;
    TermedFrame(ob0);
    if s[o].node.owner.Some? {
      assert ObjOk(s, o);
      OwnerIsAlive(s, o);
      AliveHasNotAcked(s, o);
      var p := s[o].node.owner.value;
      TermedLink(s[p], o, s[o], ob0);
      SameFamily(s[p], t[p], o, Termed(ob0));
    }
  }

  lemma TermSelf(s: Tree, o: Id, ob0: Obj, t: Tree)
    requires AfterTerm(s, o, ob0, t)
    ensures ObjOk(t, o)
  {
    hide NodeOk, OwnerOk, Termed;
    assert ObjOk(s, o);
    TermedFrame(ob0);
    AliveHasNotAcked(s, o);
    TermedNode(s[o], ob0);
    TermSelfOwner(s, o, ob0, t);
    assert Children(s, o);
  }

  lemma TermKeepsGood(s: Tree, o: Id, ob0: Obj)
    requires Good(s) && Terminable(s, o, ob0)
    ensures TermAt(s[o := ob0], o).Next? && Good(TermAt(s[o := ob0], o).s)
  {
    hide NodeOk, LinkOk, Termed, TermAt;
    var t := map x | x in s :: if x == o then Termed(ob0) else if x in ob0.node.owned then Asked(s[x]) else s[x];
    assert t.Keys == s.Keys;
    TermSelf(s, o, ob0, t);
    forall x | x in s && x != o
      ensures ObjOk(t, x)
    {
      TermOthers(s, o, ob0, t, x);
    }
    forall c | c in ob0.node.owned
      ensures c != o && Alive(s, c)
    {
      FamilyMember(s, o, c);
      OwnedIsFresh(s[o], c, s[c]);
    }
    if s[o].node.owner.Some? {
      OwnerIsAlive(s, o);
    }
    TermedMap(s, o, ob0, t);
  }

  lemma TermPopped(ob: Obj)
    requires NodeOk(ob) && ob.down != [] && ob.down[0] == Term
    ensures ob.down[1..] == [] && Plug !in ob.down && !ob.node.terminating && ob.node.owner.Some?
  {
  }

  lemma TermDeliveryKeepsGood(s: Tree, o: Id)
    requires Good(s) && o in s && s[o].down != [] && s[o].down[0] == Term
    ensures Step(s, DeliverDown(o)).Next? && Good(Step(s, DeliverDown(o)).s)
  {
    hide NodeOk, LinkOk, TermAt;
    if s[o].node.destroyed {
      DestroyedIsQuiet(s, o);
    }
    AliveHasNotAcked(s, o);
    TermPopped(s[o]);
    TermKeepsGood(s, o, s[o].(down := s[o].down[1..]));
  }

  lemma RequestedNode(ob: Obj)
    requires NodeOk(ob) && ob.node.owner.Some? && TermAck !in ob.up
    ensures NodeOk(ob.(up := ob.up + [TermReq])) && TermAck !in (ob.up + [TermReq])
  {
  }

  lemma RootNode(ob: Obj)
    requires NodeOk(ob) && ob.node.owner == None
    ensures ob.down == []
  {
  }

  lemma TerminateKeepsGood(s: Tree, o: Id)
    requires Good(s) && Alive(s, o)
    ensures Step(s, Terminate(o)).Next? && Good(Step(s, Terminate(o)).s)
  {
    hide NodeOk, LinkOk, TermAt;
    AliveHasNotAcked(s, o);
    if !s[o].node.terminating {
      if s[o].node.owner == None {
        RootNode(s[o]);
        assert s[o := s[o]] == s;
        TermKeepsGood(s, o, s[o]);
      } else {
        OwnerIsAlive(s, o);
        RequestedNode(s[o]);
        CountKeepsGood(s, o, s[o].(up := s[o].up + [TermReq]));
      }
    }
  }

  lemma PoppedRequest(ob: Obj)
    requires NodeOk(ob) && ob.up != [] && ob.up[0] == TermReq
    ensures NodeOk(ob.(up := ob.up[1..]))
    ensures forall p: Obj, o: Id {:trigger LinkOk(p, o, ob)} | LinkOk(p, o, ob) :: LinkOk(p, o, ob.(up := ob.up[1..]))
  {
    assert ob.up == [TermReq] + ob.up[1..];
  }

  lemma RequestKeepsGood(s: Tree, child: Id)
    requires Good(s) && child in s && s[child].node.owner.Some? && s[child].up != [] && s[child].up[0] == TermReq
    ensures Step(s, DeliverUp(child)).Next? && Good(Step(s, DeliverUp(child)).s)
  {
    hide NodeOk, LinkOk, TermReqAt, AckAt;
    var p := s[child].node.owner.value;
    var ob := s[child].(up := s[child].up[1..]);
    assert ObjOk(s, child);
    OwnerIsAlive(s, child);
    PoppedRequest(s[child]);
    forall c | c in s && s[c].node.owner == Some(child) && c != child
      ensures LinkOk(ob, c, s[c])
    {
      assert ObjOk(s, c);
      SameFamily(s[child], ob, c, s[c]);
    }
    ReplaceOne(s, child, ob);
    TermReqKeepsGood(s[child := ob], p, child);
  }
}
