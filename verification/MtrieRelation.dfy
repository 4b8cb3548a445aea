/** What the operations of the multi-trie do to the relation between prefixes and pipes. */
module MtrieRelation {
  import opened Bytes
  import opened Options
  import opened MtrieStep
  import opened MtrieTable

  ghost predicate Fine(v: Option<Trie>) {
    v.Some? ==> WellFormed(v.value) && !Redundant(v.value)
  }

  lemma FineChild(t: Trie, c: Byte)
    requires WellFormed(t)
    ensures Fine(Child(t, c)) && (Child(t, c).Some? ==> Child(t, c).value < t)
  {
  }

  lemma FineChildIsWellFormed(t: Trie, c: Byte)
    requires WellFormed(t)
    ensures Child(t, c).Some? ==> WellFormed(Child(t, c).value)
  {
  }

  lemma EmptyIsWellFormed()
    ensures WellFormed(Empty())
    ensures forall p: Prefix, x: Pipe :: !Has(Empty(), p, x)
  {
  }

  lemma RedundantHasNothing(t: Trie, p: Prefix, x: Pipe)
    requires WellFormed(t) && Redundant(t)
    ensures !Has(t, p, x) && t.slots == []
  {
    NoLive(t.slots);
  }

  // add

  lemma MakeWellFormed(t: Trie)
    requires t.pipes.Some? ==> t.pipes.value != {}
    requires t.min + |t.slots| <= 256 && t.live == Live(t.slots)
    requires t.slots != [] ==> t.slots[0].Some? && t.slots[|t.slots| - 1].Some?
    requires forall i {:trigger t.slots[i]} | 0 <= i < |t.slots| :: Fine(t.slots[i])
    ensures WellFormed(t)
  {
  }

  lemma WellFormedFacts(t: Trie)
    requires WellFormed(t)
    ensures t.pipes.Some? ==> t.pipes.value != {}
    ensures t.min + |t.slots| <= 256 && t.live == Live(t.slots)
    ensures t.slots != [] ==> t.slots[0].Some? && t.slots[|t.slots| - 1].Some?
    ensures forall i {:trigger t.slots[i]} | 0 <= i < |t.slots| :: Fine(t.slots[i])
  {
  }

  lemma NotRedundant(t: Trie)
    requires t.live > 0
    ensures !Redundant(t)
  {
  }

  lemma GrownTableIsFine(t: Trie, c: Byte, v: Option<Trie>)
    requires WellFormed(t) && Fine(v) && v.Some?
    ensures var g := Grow(t, c); var slots := g.slots[c - g.min := v];
            && slots[0].Some? && slots[|slots| - 1].Some?
            && forall i {:trigger slots[i]} | 0 <= i < |slots| :: Fine(slots[i])
  {
    hide *;
    WellFormedFacts(t);
    GrowEnds(t, c);
    NoneIsFine();
    var g := Grow(t, c);
    var slots := g.slots[c - g.min := v];
    forall i {:trigger slots[i]} | 0 <= i < |slots|
      ensures Fine(slots[i])
    {
      var j := g.min + i - t.min;
      if i != c - g.min && 0 <= j < |t.slots| {
        assert g.slots[i] == t.slots[j];
      }
    }
  }

  lemma NoneIsFine()
    ensures Fine(None)
  {
  }

  /** Storing a child that is fit to be one in the grown table. */
  function Stored(t: Trie, c: Byte, child: Trie): Trie {
    var g := Grow(t, c);
    g.(slots := g.slots[c - g.min := Some(child)], live := if g.slots[c - g.min].Some? then t.live else t.live + 1)
  }

  lemma StoredIsWellFormed(t: Trie, c: Byte, child: Trie)
    requires WellFormed(t) && WellFormed(child) && !Redundant(child)
    ensures WellFormed(Stored(t, c, child)) && !Redundant(Stored(t, c, child))
  {
    assert Fine(Some(child));
    hide WellFormed, Live, Grow, Redundant, Fine;
    GrowKeeps(t, c);
    var g := Grow(t, c);
    LiveUpdate(g.slots, c - g.min, Some(child));
    WellFormedFacts(t);
    NotRedundant(Stored(t, c, child));
    GrownTableIsFine(t, c, Some(child));
    MakeWellFormed(Stored(t, c, child));
  }

  lemma AddIs(t: Trie, p: Prefix, x: Pipe)
    requires p != []
    ensures var g := Grow(t, p[0]); var was := g.slots[p[0] - g.min];
            Add(t, p, x) == Stored(t, p[0], Add(if was.Some? then was.value else Empty(), p[1..], x))
  {
  }

  lemma {:induction false} AddIsWellFormed(t: Trie, p: Prefix, x: Pipe)
    requires WellFormed(t)
    ensures WellFormed(Add(t, p, x)) && !Redundant(Add(t, p, x))
    decreases |p|
  {
    if p != [] {
      hide Add, WellFormed, Live, Grow, Redundant, Stored;
      GrowKeeps(t, p[0]);
      var g := Grow(t, p[0]);
      var was := g.slots[p[0] - g.min];
      assert Child(g, p[0]) == Child(t, p[0]);
      FineChildIsWellFormed(t, p[0]);
      EmptyIsWellFormed();
      AddIsWellFormed(if was.Some? then was.value else Empty(), p[1..], x);
      StoredIsWellFormed(t, p[0], Add(if was.Some? then was.value else Empty(), p[1..], x));
      AddIs(t, p, x);
    }
  }

  lemma {:induction false} AddHas(t: Trie, p: Prefix, x: Pipe, q: Prefix, y: Pipe)
    ensures Has(Add(t, p, x), q, y) <==> Has(t, q, y) || (q == p && y == x)
    decreases |p|
  {
    if p != [] && q != [] {
      GrowKeeps(t, p[0]);
      var g := Grow(t, p[0]);
      assert Child(g, q[0]) == Child(t, q[0]);
      var was := g.slots[p[0] - g.min];
      if q[0] == p[0] {
        AddHas(if was.Some? then was.value else Empty(), p[1..], x, q[1..], y);
        EmptyIsWellFormed();
        SameTail(p, q);
      }
    }
  }

  // rm(prefix)

  lemma {:induction false} RmIsWellFormed(t: Trie, p: Prefix, x: Pipe)
    requires WellFormed(t)
    ensures WellFormed(Rm(t, p, x))
    decreases |p|
  {
    if p != [] && Child(t, p[0]).Some? {
      var i := p[0] - t.min;
      FineChild(t, p[0]);
      RmIsWellFormed(Child(t, p[0]).value, p[1..], x);
      var child := Rm(Child(t, p[0]).value, p[1..], x);
      var slots := t.slots[i := Prune(child)];
      LiveUpdate(t.slots, i, Prune(child));
      assert forall j | 0 <= j < |slots| :: Fine(slots[j]);
      if Redundant(child) {
        TrimmedIsWellFormed(t.(slots := slots, live := t.live - 1));
      }
    }
  }

  lemma TrimmedIsWellFormed(t: Trie)
    requires t.pipes.Some? ==> t.pipes.value != {}
    requires t.min + |t.slots| <= 256 && t.live == Live(t.slots)
    requires forall j | 0 <= j < |t.slots| :: Fine(t.slots[j])
    ensures WellFormed(Trim(t))
  {
    TrimKeeps(t);
    hide Trim;
    forall i {:trigger Trim(t).slots[i]} | 0 <= i < |Trim(t).slots|
      ensures Fine(Trim(t).slots[i])
    {
      assert Trim(t).slots[i] in t.slots;
    }
  }

  lemma RmIs(t: Trie, p: Prefix, x: Pipe)
    requires WellFormed(t) && p != [] && Child(t, p[0]).Some?
    ensures WellFormed(Child(t, p[0]).value)
    ensures var child := Rm(Child(t, p[0]).value, p[1..], x);
            var slots := t.slots[p[0] - t.min := Prune(child)];
            Rm(t, p, x) == if Redundant(child) then Trim(t.(slots := slots, live := t.live - 1)) else t.(slots := slots)
  {
  }

  lemma RmChild(t: Trie, p: Prefix, x: Pipe, c: Byte)
    requires WellFormed(t) && p != []
    ensures Rm(t, p, x).pipes == t.pipes && Fine(Child(t, p[0]))
    ensures Child(Rm(t, p, x), c) ==
            if c == p[0] && Child(t, c).Some? then Prune(Rm(Child(t, c).value, p[1..], x)) else Child(t, c)
  {
    hide Live, Trim, Redundant;
    FineChild(t, p[0]);
    WellFormedFacts(t);
    if Child(t, p[0]).Some? {
      RmIs(t, p, x);
      hide Rm, WellFormed, Fine;
      var child := Rm(Child(t, p[0]).value, p[1..], x);
      var u := t.(slots := t.slots[p[0] - t.min := Prune(child)], live := t.live - 1);
      TrimKeeps(u);
      assert Child(Trim(u), c) == Child(u, c);
    }
  }

  lemma {:induction false} RmHas(t: Trie, p: Prefix, x: Pipe, q: Prefix, y: Pipe)
    requires WellFormed(t)
    ensures Has(Rm(t, p, x), q, y) <==> Has(t, q, y) && !(q == p && y == x)
    decreases |p|
  {
    if p != [] {
      hide Rm, WellFormed, Child;
      RmChild(t, p, x, if q != [] then q[0] else 0);
      if q != [] && q[0] == p[0] && Child(t, p[0]).Some? {
        var was := Child(t, p[0]).value;
        RmIsWellFormed(was, p[1..], x);
        RmHas(was, p[1..], x, q[1..], y);
        SameTail(p, q);
        if Redundant(Rm(was, p[1..], x)) {
          RedundantHasNothing(Rm(was, p[1..], x), q[1..], y);
        }
      }
    }
  }

  lemma SameTail(p: Prefix, q: Prefix)
    requires p != [] && q != [] && p[0] == q[0]
    ensures q == p <==> q[1..] == p[1..]
  {
    assert q == [q[0]] + q[1..] && p == [p[0]] + p[1..];
  }

  // rm(pipe)

  lemma {:induction false} RmPipeIsWellFormed(t: Trie, x: Pipe)
    requires WellFormed(t)
    ensures WellFormed(RmPipe(t, x))
    decreases t, |t.slots| + 1
  {
    RmSlotsAreFine(t, x, |t.slots|);
    var slots := RmSlots(t, x, |t.slots|);
    TrimmedIsWellFormed(Trie(Without(t.pipes, x), t.min, Live(slots), slots));
  }

  lemma {:induction false} RmSlotsAreFine(t: Trie, x: Pipe, n: nat)
    requires WellFormed(t) && n <= |t.slots|
    ensures forall i | 0 <= i < n :: Fine(RmSlots(t, x, n)[i])
    ensures forall i | 0 <= i < n ::
              RmSlots(t, x, n)[i] == if t.slots[i].Some? then Prune(RmPipe(t.slots[i].value, x)) else None
    decreases t, n
  {
    if n > 0 {
      hide RmPipe;
      RmSlotsAreFine(t, x, n - 1);
      if t.slots[n - 1].Some? {
        RmPipeIsWellFormed(t.slots[n - 1].value, x);
      }
    }
  }

  lemma RmPipeIs(t: Trie, x: Pipe)
    requires WellFormed(t)
    ensures t.min + |t.slots| <= 256
    ensures RmPipe(t, x) == Trim(Trie(Without(t.pipes, x), t.min, Live(RmSlots(t, x, |t.slots|)), RmSlots(t, x, |t.slots|)))
  {
  }

  /** The children before trimming. */
  lemma RmPipeSlot(t: Trie, x: Pipe, u: Trie, c: Byte)
    requires WellFormed(t) && u.min == t.min && u.slots == RmSlots(t, x, |t.slots|)
    ensures Child(u, c) == if Child(t, c).Some? then Prune(RmPipe(Child(t, c).value, x)) else None
  {
    hide WellFormed, RmPipe, RmSlots, Fine, Prune;
    RmSlotsAreFine(t, x, |t.slots|);
    assert t.min <= c < t.min + |t.slots| ==> u.slots[c - t.min] == RmSlots(t, x, |t.slots|)[c - t.min];
  }

  lemma RmPipeChild(t: Trie, x: Pipe, c: Byte)
    requires WellFormed(t)
    ensures Fine(Child(t, c))
    ensures RmPipe(t, x).pipes == Without(t.pipes, x)
    ensures Child(RmPipe(t, x), c) == if Child(t, c).Some? then Prune(RmPipe(Child(t, c).value, x)) else None
  {
    RmPipeIs(t, x);
    FineChild(t, c);
    var slots := RmSlots(t, x, |t.slots|);
    var u := Trie(Without(t.pipes, x), t.min, Live(slots), slots);
    RmPipeSlot(t, x, u, c);
    hide RmPipe, RmSlots, Live, Trim, WellFormed, Without, Prune, Fine;
    TrimKeeps(u);
    assert Child(Trim(u), c) == Child(u, c);
  }

  lemma {:induction false} RmPipeHas(t: Trie, x: Pipe, q: Prefix, y: Pipe)
    requires WellFormed(t)
    ensures Has(RmPipe(t, x), q, y) <==> Has(t, q, y) && y != x
    decreases |q|
  {
    RmPipeChild(t, x, if q == [] then 0 else q[0]);
    hide RmPipe, WellFormed, Child;
    if q != [] {
      if Child(t, q[0]).Some? {
        var child := Child(t, q[0]).value;
        RmPipeHas(child, x, q[1..], y);
        RmPipeIsWellFormed(child, x);
        if Redundant(RmPipe(child, x)) {
          RedundantHasNothing(RmPipe(child, x), q[1..], y);
        }
      }
    }
  }

  // Results

  lemma {:induction false} FindHas(t: Trie, p: Prefix, x: Pipe)
    ensures Has(t, p, x) <==> Find(t, p).Some? && Find(t, p).value.pipes.Some? && x in Find(t, p).value.pipes.value
    decreases |p|
  {
    if p != [] && Child(t, p[0]).Some? {
      FindHas(Child(t, p[0]).value, p[1..], x);
    }
  }

  lemma {:induction false} FoundIsWellFormed(t: Trie, p: Prefix)
    requires WellFormed(t)
    ensures Find(t, p).Some? ==> WellFormed(Find(t, p).value)
    decreases |p|
  {
    if p != [] && Child(t, p[0]).Some? {
      FineChild(t, p[0]);
      FoundIsWellFormed(Child(t, p[0]).value, p[1..]);
    }
  }

  /** What add returns. */
  predicate IsNew(t: Trie, p: Prefix) {
    Find(t, p) == None || Find(t, p).value.pipes == None
  }

  /** What rm(prefix) returns. */
  predicate IsGone(t: Trie, p: Prefix, x: Pipe) {
    Find(t, p).Some? && Without(Find(t, p).value.pipes, x) == None
  }

  lemma FoundPipes(t: Trie, p: Prefix, x: Pipe)
    requires WellFormed(t)
    ensures Has(t, p, x) <==> x in Subscribers(t, p)
    ensures IsNew(t, p) <==> Subscribers(t, p) == {}
    ensures IsGone(t, p, x) <==> Find(t, p).Some? && Subscribers(t, p) <= {x}
  {
    FoundIsWellFormed(t, p);
    FindHas(t, p, x);
    if Find(t, p).Some? {
      WellFormedFacts(Find(t, p).value);
    }
  }

  function Subscribers(t: Trie, p: Prefix): set<Pipe> {
    if Find(t, p).Some? && Find(t, p).value.pipes.Some? then Find(t, p).value.pipes.value else {}
  }

  /** add reports a new subscription exactly for a prefix nobody was subscribed to. */
  lemma NewMeansNobody(t: Trie, p: Prefix)
    requires WellFormed(t)
    ensures IsNew(t, p) <==> forall y: Pipe :: !Has(t, p, y)
  {
    hide IsNew, Subscribers, Has;
    forall y: Pipe
      ensures Has(t, p, y) <==> y in Subscribers(t, p)
    {
      FoundPipes(t, p, y);
    }
    FoundPipes(t, p, 0);
    if Subscribers(t, p) != {} {
      var y :| y in Subscribers(t, p);
      assert Has(t, p, y);
    }
  }

  /** rm(prefix) of a subscribed pipe reports removal exactly if nobody is left at the prefix. */
  lemma GoneMeansLast(t: Trie, p: Prefix, x: Pipe)
    requires WellFormed(t) && Has(t, p, x)
    ensures IsGone(t, p, x) <==> forall y: Pipe :: !Has(Rm(t, p, x), p, y)
  {
    FindHas(t, p, x);
    hide IsGone, Subscribers, Has, Find, Rm;
    FoundPipes(t, p, x);
    forall y: Pipe
      ensures Has(Rm(t, p, x), p, y) <==> y in Subscribers(t, p) && y != x
    {
      RmHas(t, p, x, p, y);
      FoundPipes(t, p, y);
    }
    if !(Subscribers(t, p) <= {x}) {
      var y :| y in Subscribers(t, p) && y != x;
      assert Has(Rm(t, p, x), p, y);
    }
  }

  /** A node that is not redundant has a subscription at or below it. */
  lemma {:induction false} Inhabited(t: Trie) returns (q: Prefix, y: Pipe)
    requires WellFormed(t) && !Redundant(t)
    ensures Has(t, q, y)
    decreases t
  {
    if t.pipes.Some? {
      q := [];
      y :| y in t.pipes.value;
    } else {
      NoLive(t.slots);
      var rest;
      rest, y := Inhabited(t.slots[0].value);
      q := [t.min] + rest;
      assert q[1..] == rest && Child(t, q[0]) == t.slots[0];
    }
  }

  /** Below the node that `p` leads to, the relation is that of the node. */
  lemma {:induction false} HasBelow(t: Trie, p: Prefix, q: Prefix, y: Pipe)
    ensures Has(t, p + q, y) <==> Find(t, p).Some? && Has(Find(t, p).value, q, y)
    decreases |p|
  {
    if p == [] {
      assert p + q == q;
    } else {
      assert (p + q)[1..] == p[1..] + q && (p + q)[0] == p[0];
      if Child(t, p[0]).Some? {
        HasBelow(Child(t, p[0]).value, p[1..], q, y);
      }
    }
  }

  lemma {:induction false} FoundIsNotRedundant(t: Trie, p: Prefix)
    requires WellFormed(t) && p != [] && Find(t, p).Some?
    ensures !Redundant(Find(t, p).value)
    decreases |p|
  {
    FineChild(t, p[0]);
    if |p| > 1 {
      FoundIsNotRedundant(Child(t, p[0]).value, p[1..]);
    } else {
      assert p[1..] == [];
    }
  }

  /** Somebody is subscribed to a prefix that begins with `p`. */
  ghost predicate Begins(t: Trie, p: Prefix) {
    exists q: Prefix, y: Pipe :: p <= q && Has(t, q, y)
  }

  /** A prefix leads to a node exactly if it is empty or a subscribed prefix begins with it. */
  lemma FoundMeansBegins(t: Trie, p: Prefix)
    requires WellFormed(t)
    ensures Find(t, p).Some? <==> p == [] || Begins(t, p)
  {
    hide WellFormed, Has, Redundant;
    if p != [] && Find(t, p).Some? {
      FoundIsWellFormed(t, p);
      FoundIsNotRedundant(t, p);
      hide Find;
      var q, y := Inhabited(Find(t, p).value);
      HasBelow(t, p, q, y);
      assert p <= p + q;
    }
    if Begins(t, p) {
      var q, y :| p <= q && Has(t, q, y);
      assert q == p + q[|p|..];
      HasBelow(t, p, q[|p|..], y);
    }
  }

  /** The answer of rm(prefix), whoever is subscribed: a subscribed prefix begins with this one (or it is empty), and
      nobody else is subscribed to it. */
  lemma RmAnswer(t: Trie, p: Prefix, x: Pipe)
    requires WellFormed(t)
    ensures IsGone(t, p, x) <==> (p == [] || Begins(t, p)) && forall y: Pipe | Has(t, p, y) :: y == x
  {
    hide WellFormed, Has, Find, Begins, IsGone, Subscribers;
    FoundPipes(t, p, x);
    FoundMeansBegins(t, p);
    forall y: Pipe
      ensures Has(t, p, y) <==> y in Subscribers(t, p)
    {
      FoundPipes(t, p, y);
    }
    if !(Subscribers(t, p) <= {x}) {
      var y :| y in Subscribers(t, p) && y != x;
      assert Has(t, p, y);
    } else {
      assert forall y: Pipe | Has(t, p, y) :: y in {x};
    }
  }

  /** On an inner node rm(prefix) removes nothing and answers true: subscribe "ab", remove "a". */
  lemma InnerNodeAnswersTrue(x: Pipe)
    ensures var t := Add(Empty(), [97, 98], x);
            && WellFormed(t) && (forall y: Pipe :: !Has(t, [97], y))
            && IsGone(t, [97], x) && Rm(t, [97], x) == t
  {
    EmptyIsWellFormed();
    AddIsWellFormed(Empty(), [97, 98], x);
    var t := Add(Empty(), [97, 98], x);
    forall y: Pipe
      ensures !Has(t, [97], y)
    {
      AddHas(Empty(), [97, 98], x, [97], y);
    }
    AddHas(Empty(), [97, 98], x, [97, 98], x);
    assert [97] <= [97, 98];
    RmAnswer(t, [97], x);
    InnerNode(x);
  }

  lemma InnerNode(x: Pipe)
    requires WellFormed(Add(Empty(), [97, 98], x))
    ensures Rm(Add(Empty(), [97, 98], x), [97], x) == Add(Empty(), [97, 98], x)
  {
    hide WellFormed;
    var leaf := Trie(Some({x}), 0, 0, []);
    assert [97, 98][1..] == [98] && [98][1..] == [];
    assert Add(Empty(), [], x) == Add(Empty(), [98][1..], x);
  }
}
