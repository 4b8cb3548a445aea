/** Whole histories of a multi-trie, against a plain set of subscriptions. */
module MtrieRun {
  import opened Bytes
  import opened Options
  import opened MtrieStep
  import opened MtrieTable
  import opened MtrieRelation
  import opened MtrieLevels

  datatype Op = AddOp(p: Prefix, x: Pipe) | RmOp(p: Prefix, x: Pipe) | RmPipeOp(x: Pipe)

  type Subscriptions = set<(Prefix, Pipe)>

  function Apply(r: Subscriptions, op: Op): Subscriptions {
    match op
    case AddOp(p, x) => r + {(p, x)}
    case RmOp(p, x) => r - {(p, x)}
    case RmPipeOp(x) => set s | s in r && s.1 != x
  }

  /** rm(prefix) asserts that the pipe is subscribed if anybody is. */
  predicate Allowed(r: Subscriptions, op: Op) {
    op.RmOp? && (exists s :: s in r && s.0 == op.p) ==> (op.p, op.x) in r
  }

  function Exec(t: Trie, op: Op): Trie
    requires WellFormed(t)
  {
    match op
    case AddOp(p, x) => Add(t, p, x)
    case RmOp(p, x) => Rm(t, p, x)
    case RmPipeOp(x) => RmPipe(t, x)
  }

  ghost predicate Denotes(t: Trie, r: Subscriptions) {
    WellFormed(t) && forall q: Prefix, y: Pipe :: Has(t, q, y) <==> (q, y) in r
  }

  lemma StepDenotes(t: Trie, r: Subscriptions, op: Op)
    requires Denotes(t, r)
    ensures Denotes(Exec(t, op), Apply(r, op))
  {
    hide Has, WellFormed, Add, Rm, RmPipe;
    match op {
      case AddOp(p, x) => AddIsWellFormed(t, p, x);
      case RmOp(p, x) => RmIsWellFormed(t, p, x);
      case RmPipeOp(x) => RmPipeIsWellFormed(t, x);
    }
    forall q: Prefix, y: Pipe
      ensures Has(Exec(t, op), q, y) <==> (q, y) in Apply(r, op)
    {
      assert Has(t, q, y) <==> (q, y) in r;
      match op {
        case AddOp(p, x) => AddHas(t, p, x, q, y);
        case RmOp(p, x) => RmHas(t, p, x, q, y);
        case RmPipeOp(x) => RmPipeHas(t, x, q, y);
      }
    }
  }

  /** The relation after a history of operations. */
  function ApplyAll(ops: seq<Op>): Subscriptions {
    if ops == [] then {} else Apply(ApplyAll(ops[..|ops| - 1]), ops[|ops| - 1])
  }

  /** The trie after the same history. */
  ghost function ExecAll(ops: seq<Op>): (t: Trie)
    ensures WellFormed(t)
  {
    if ops == [] then EmptyIsWellFormed(); Empty()
    else
      var t := ExecAll(ops[..|ops| - 1]);
      ExecIsWellFormed(t, ops[|ops| - 1]);
      Exec(t, ops[|ops| - 1])
  }

  lemma ExecIsWellFormed(t: Trie, op: Op)
    requires WellFormed(t)
    ensures WellFormed(Exec(t, op))
  {
    match op {
      case AddOp(p, x) => AddIsWellFormed(t, p, x);
      case RmOp(p, x) => RmIsWellFormed(t, p, x);
      case RmPipeOp(x) => RmPipeIsWellFormed(t, x);
    }
  }

  /** After any history the trie is well formed and stands for exactly the subscriptions made and not removed. */
  lemma {:induction false} HistoryDenotes(ops: seq<Op>)
    ensures Denotes(ExecAll(ops), ApplyAll(ops))
  {
    if ops == [] {
      EmptyIsWellFormed();
    } else {
      HistoryDenotes(ops[..|ops| - 1]);
      hide Denotes, Exec, Apply;
      StepDenotes(ExecAll(ops[..|ops| - 1]), ApplyAll(ops[..|ops| - 1]), ops[|ops| - 1]);
    }
  }

  /** The assertion in rm(prefix) holds exactly if the pipe is subscribed or nobody is. */
  lemma RmAssertion(t: Trie, r: Subscriptions, p: Prefix, x: Pipe)
    requires Denotes(t, r)
    ensures MayRemove(t, p, x) <==> Allowed(r, RmOp(p, x))
  {
    hide Has;
    forall y: Pipe
      ensures (p, y) in r <==> y in Subscribers(t, p)
    {
      FindHas(t, p, y);
      assert Has(t, p, y) <==> (p, y) in r;
    }
    FoundIsWellFormed(t, p);
    if Subscribers(t, p) != {} {
      var y :| y in Subscribers(t, p);
      assert (p, y) in r;
    }
    forall s | s in r && s.0 == p
      ensures s.1 in Subscribers(t, p)
    {
      assert (p, s.1) == s;
    }
  }

  // ------------------------------------------------------------------------------------------
  // The shape is determined by the relation
  // ------------------------------------------------------------------------------------------

  /** The same nodes and tables; only the min of a node without children may differ. */
  ghost predicate SameShape(t: Trie, u: Trie)
    decreases t
  {
    && t.pipes == u.pipes && t.live == u.live && |t.slots| == |u.slots| && (t.slots != [] ==> t.min == u.min)
    && forall i | 0 <= i < |t.slots| ::
         t.slots[i].Some? == u.slots[i].Some? && (t.slots[i].Some? ==> SameShape(t.slots[i].value, u.slots[i].value))
  }

  ghost predicate SameRelation(t: Trie, u: Trie) {
    forall q: Prefix, y: Pipe :: Has(t, q, y) == Has(u, q, y)
  }

  lemma SameChild(t: Trie, u: Trie, c: Byte)
    requires WellFormed(t) && WellFormed(u) && SameRelation(t, u) && Child(t, c).Some?
    ensures Child(u, c).Some?
    ensures WellFormed(Child(t, c).value) && WellFormed(Child(u, c).value) && SameRelation(Child(t, c).value, Child(u, c).value)
  {
    FineChild(t, c);
    FineChild(u, c);
    hide WellFormed, Child, Redundant;
    var q, y := Inhabited(Child(t, c).value);
    assert ([c] + q)[1..] == q;
    assert Has(t, [c] + q, y);
    assert Has(u, [c] + q, y);
    forall r: Prefix, z: Pipe
      ensures Has(Child(t, c).value, r, z) == Has(Child(u, c).value, r, z)
    {
      assert ([c] + r)[1..] == r;
      assert Has(t, [c] + r, z) == Has(u, [c] + r, z);
    }
  }

  lemma SamePipes(t: Trie, u: Trie)
    requires WellFormed(t) && WellFormed(u) && SameRelation(t, u)
    ensures t.pipes == u.pipes
  {
    var a := if t.pipes.Some? then t.pipes.value else {};
    var b := if u.pipes.Some? then u.pipes.value else {};
    forall y: Pipe
      ensures y in a <==> y in b
    {
      assert Has(t, [], y) == Has(u, [], y);
    }
    assert a == b;
  }

  lemma SameEnds(t: Trie, u: Trie)
    requires WellFormed(t) && WellFormed(u) && SameRelation(t, u) && t.slots != []
    ensures u.slots != [] && t.min >= u.min && t.min + |t.slots| <= u.min + |u.slots|
  {
    WellFormedFacts(t);
    hide WellFormed;
    SameChild(t, u, t.min);
    SameChild(t, u, t.min + |t.slots| - 1);
  }

  lemma {:induction false} SameLive(a: seq<Option<Trie>>, b: seq<Option<Trie>>)
    requires |a| == |b| && forall i | 0 <= i < |a| :: a[i].Some? == b[i].Some?
    ensures Live(a) == Live(b)
  {
    if a != [] {
      SameLive(a[..|a| - 1], b[..|b| - 1]);
    }
  }

  lemma {:induction false} RelationFixesShape(t: Trie, u: Trie)
    requires WellFormed(t) && WellFormed(u) && SameRelation(t, u)
    ensures SameShape(t, u)
    decreases t
  {
    WellFormedFacts(t);
    WellFormedFacts(u);
    hide WellFormed, SameRelation, Has;
    SamePipes(t, u);
    assert SameRelation(u, t) by { FlipRelation(t, u); }
    if t.slots != [] { SameEnds(t, u); }
    if u.slots != [] { SameEnds(u, t); }
    forall i | 0 <= i < |t.slots|
      ensures t.slots[i].Some? == u.slots[i].Some? && (t.slots[i].Some? ==> SameShape(t.slots[i].value, u.slots[i].value))
    {
      var c: Byte := t.min + i;
      assert Child(t, c) == t.slots[i] && Child(u, c) == u.slots[i];
      if t.slots[i].Some? {
        SameChild(t, u, c);
        RelationFixesShape(t.slots[i].value, u.slots[i].value);
      } else if u.slots[i].Some? {
        SameChild(u, t, c);
      }
    }
    SameLive(t.slots, u.slots);
  }

  lemma FlipRelation(t: Trie, u: Trie)
    requires SameRelation(t, u)
    ensures SameRelation(u, t)
  {
  }

  /** No history leaves garbage behind: whatever was added and removed on the way, two histories with the same
      remaining subscriptions end in the same trie.  A removed subscription leaves no trace. */
  lemma HistoryLeavesNoTrace(ops: seq<Op>, other: seq<Op>)
    requires ApplyAll(ops) == ApplyAll(other)
    ensures SameShape(ExecAll(ops), ExecAll(other))
  {
    HistoryDenotes(ops);
    HistoryDenotes(other);
    hide WellFormed, Has, SameShape, ExecAll, ApplyAll;
    RelationFixesShape(ExecAll(ops), ExecAll(other));
  }
}
