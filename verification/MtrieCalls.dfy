/** Which prefixes rm(pipe) reports, and in which order. */
module MtrieCalls {
  import opened Bytes
  import opened Options
  import opened MtrieStep
  import opened MtrieTable
  import opened MtrieRelation

  /** Lexicographic order of byte strings. */
  predicate Less(a: Prefix, b: Prefix)
    decreases |a|
  {
    b != [] && (a == [] || a[0] < b[0] || (a[0] == b[0] && Less(a[1..], b[1..])))
  }

  ghost predicate Ascending(s: seq<Prefix>) {
    forall i, j | 0 <= i < j < |s| :: Less(s[i], s[j])
  }

  /** `path` followed by a character between `lo` and `hi`. */
  predicate Within(path: Prefix, lo: nat, hi: nat, c: Prefix) {
    path < c && lo <= c[|path|] < hi
  }

  predicate Reported(t: Trie, q: Prefix, x: Pipe, uniq: bool) {
    Find(t, q).Some? && Reports(Find(t, q).value, x, uniq)
  }

  lemma {:induction false} LessAfter(path: Prefix, a: Prefix, b: Prefix)
    requires path <= a && path < b && (a == path || a[|path|] < b[|path|])
    ensures Less(a, b)
    decreases |path|
  {
    if path != [] {
      assert a[0] == path[0] == b[0];
      assert path[1..] <= a[1..] && path[1..] < b[1..];
      LessAfter(path[1..], a[1..], b[1..]);
    }
  }

  lemma AscendingConcat(a: seq<Prefix>, b: seq<Prefix>)
    requires Ascending(a) && Ascending(b) && forall u, v {:trigger Less(u, v)} | u in a && v in b :: Less(u, v)
    ensures Ascending(a + b)
  {
    hide Less;
    var s := a + b;
    forall i, j | 0 <= i < j < |s|
      ensures Less(s[i], s[j])
    {
      if i < |a| <= j {
        assert s[i] in a && s[j] in b;
      }
    }
  }

  lemma {:induction false} CallsAscend(t: Trie, x: Pipe, uniq: bool, path: Prefix)
    requires WellFormed(t)
    ensures Ascending(Calls(t, x, uniq, path))
    ensures forall c | c in Calls(t, x, uniq, path) :: path <= c
    decreases t, |t.slots| + 1
  {
    SlotCallsAscend(t, x, uniq, path, |t.slots|);
    var rest := SlotCalls(t, x, uniq, path, |t.slots|);
    forall v | v in rest
      ensures Less(path, v)
    {
      LessAfter(path, path, v);
    }
    if Reports(t, x, uniq) {
      AscendingConcat([path], rest);
    }
  }

  lemma {:induction false} SlotCallsAscend(t: Trie, x: Pipe, uniq: bool, path: Prefix, n: nat)
    requires WellFormed(t) && n <= |t.slots|
    ensures Ascending(SlotCalls(t, x, uniq, path, n))
    ensures forall c | c in SlotCalls(t, x, uniq, path, n) :: Within(path, t.min, t.min + n, c)
    decreases t, n
  {
    if n > 0 {
      hide Calls, Ascending, Less;
      var first := SlotCalls(t, x, uniq, path, n - 1);
      SlotCallsAscend(t, x, uniq, path, n - 1);
      if t.slots[n - 1].Some? {
        var below := path + [t.min + n - 1];
        var child := t.slots[n - 1].value;
        CallsAscend(child, x, uniq, below);
        var last := Calls(child, x, uniq, below);
        forall v | v in last
          ensures Within(path, t.min + n - 1, t.min + n, v)
        {
          assert below <= v && path == below[..|path|];
        }
        forall u, v {:trigger Less(u, v)} | u in first && v in last
          ensures Less(u, v)
        {
          LessAfter(path, u, v);
        }
        AscendingConcat(first, last);
      }
    }
  }

  lemma {:induction false} CallsMember(t: Trie, x: Pipe, uniq: bool, path: Prefix, q: Prefix)
    requires WellFormed(t)
    ensures path + q in Calls(t, x, uniq, path) <==> Reported(t, q, x, uniq)
    decreases t, |t.slots| + 1
  {
    SlotCallsMember(t, x, uniq, path, |t.slots|, q);
    assert path + q == path <==> q == [];
    if q == [] {
      assert path + q !in SlotCalls(t, x, uniq, path, |t.slots|);
    }
  }

  predicate Below(t: Trie, n: nat, q: Prefix, x: Pipe, uniq: bool) {
    q != [] && t.min <= q[0] < t.min + n && Child(t, q[0]).Some? && Reported(Child(t, q[0]).value, q[1..], x, uniq)
  }

  lemma {:induction false} SlotCallsMember(t: Trie, x: Pipe, uniq: bool, path: Prefix, n: nat, q: Prefix)
    requires WellFormed(t) && n <= |t.slots|
    ensures path + q in SlotCalls(t, x, uniq, path, n) <==> Below(t, n, q, x, uniq)
    decreases t, n
  {
    if n > 0 {
      SlotCallsMember(t, x, uniq, path, n - 1, q);
      if t.slots[n - 1].Some? {
        var b: Byte := t.min + n - 1;
        var child := t.slots[n - 1].value;
        hide Calls, Reported;
        if q != [] && q[0] == b {
          assert path + q == path + [b] + q[1..];
          CallsMember(child, x, uniq, path + [b], q[1..]);
        } else {
          CallsAscend(child, x, uniq, path + [b]);
          assert !(path + [b] <= path + q) by {
            assert q != [] ==> (path + q)[|path|] == q[0] && (path + [b])[|path|] == b;
          }
        }
      }
    }
  }

  /** `x` is subscribed to `q`, and with `uniq` nobody else is. */
  ghost predicate Leaves(t: Trie, q: Prefix, x: Pipe, uniq: bool) {
    Has(t, q, x) && (uniq ==> forall y: Pipe :: Has(t, q, y) ==> y == x)
  }

  lemma ReportedMeansLeaves(t: Trie, q: Prefix, x: Pipe, uniq: bool)
    ensures Reported(t, q, x, uniq) <==> Leaves(t, q, x, uniq)
  {
    hide Has;
    forall y: Pipe
      ensures Has(t, q, y) <==> y in Subscribers(t, q)
    {
      FindHas(t, q, y);
    }
    if Reported(t, q, x, uniq) {
      assert Has(t, q, x);
    }
    if Leaves(t, q, x, uniq) {
      assert x in Subscribers(t, q);
      forall y | y in Subscribers(t, q)
        ensures y == x || !uniq
      {
        assert Has(t, q, y);
      }
      assert !uniq || Subscribers(t, q) == {x};
    }
  }

  ghost predicate Nobody(t: Trie, q: Prefix) {
    forall y: Pipe :: !Has(t, q, y)
  }

  lemma LeavesMeansNobody(t: Trie, u: Trie, q: Prefix, x: Pipe)
    requires Has(t, q, x) && forall y: Pipe {:trigger Has(t, q, y)} {:trigger Has(u, q, y)} :: Has(u, q, y) <==> Has(t, q, y) && y != x
    ensures Leaves(t, q, x, true) <==> Nobody(u, q)
  {
    hide Has;
  }

  /** rm(pipe) reports every prefix the pipe was subscribed to, or with call_on_uniq those it leaves without
      any pipe, and nothing else; the reports come in strictly ascending order, so each comes once. */
  lemma CallsAreExact(t: Trie, x: Pipe, uniq: bool, q: Prefix)
    requires WellFormed(t)
    ensures q in Calls(t, x, uniq, []) <==> Has(t, q, x) && (uniq ==> Nobody(RmPipe(t, x), q))
    ensures Ascending(Calls(t, x, uniq, []))
  {
    CallsAscend(t, x, uniq, []);
    var none: Prefix := [];
    assert none + q == q;
    CallsMember(t, x, uniq, none, q);
    ReportedMeansLeaves(t, q, x, uniq);
    forall y: Pipe
      ensures Has(RmPipe(t, x), q, y) <==> Has(t, q, y) && y != x
    {
      RmPipeHas(t, x, q, y);
    }
    if Has(t, q, x) {
      LeavesMeansNobody(t, RmPipe(t, x), q, x);
    }
  }
}
