/** One level of each recursive operation of the multi-trie: the value that every statement leaves behind. */
module MtrieLevels {
  import opened Bytes
  import opened Options
  import opened MtrieStep
  import opened MtrieTable
  import opened MtrieRelation

  function Ensured(t: Trie, c: Byte): Trie
    requires t.min <= c < t.min + |t.slots|
  {
    if t.slots[c - t.min].Some? then t else t.(slots := t.slots[c - t.min := Some(Empty())], live := t.live + 1)
  }

  lemma AddEmpty(t: Trie, x: Pipe)
    ensures Add(t, [], x) == t.(pipes := Some((if t.pipes.Some? then t.pipes.value else {}) + {x}))
    ensures IsNew(t, []) == t.pipes.None?
  {
  }

  /** add, one level of the recursion: the value that each statement leaves behind. */
  lemma AddStep(t: Trie, p: Prefix, x: Pipe)
    requires p != []
    ensures var g := Grow(t, p[0]); g.min <= p[0] < g.min + |g.slots|
    ensures t.min <= p[0] < t.min + |t.slots| ==> Grow(t, p[0]) == t
    ensures var e := Ensured(Grow(t, p[0]), p[0]); var i := p[0] - e.min;
            && e.min <= p[0] < e.min + |e.slots| && e.slots[i].Some?
            && Add(t, p, x) == e.(slots := e.slots[i := Some(Add(e.slots[i].value, p[1..], x))])
            && IsNew(t, p) == IsNew(e.slots[i].value, p[1..])
  {
    GrowKeeps(t, p[0]);
    var g := Grow(t, p[0]);
    assert Child(g, p[0]) == Child(t, p[0]);
    var e := Ensured(g, p[0]);
    assert e.slots[p[0] - e.min := Some(Add(e.slots[p[0] - e.min].value, p[1..], x))]
        == g.slots[p[0] - e.min := Some(Add(e.slots[p[0] - e.min].value, p[1..], x))];
  }

  /** rm(prefix) asserts that the pipe is among those of the node it finds. */
  predicate MayRemove(t: Trie, p: Prefix, x: Pipe) {
    Find(t, p).Some? && Find(t, p).value.pipes.Some? ==> x in Find(t, p).value.pipes.value
  }

  lemma RmEmpty(t: Trie, x: Pipe)
    requires WellFormed(t) && MayRemove(t, [], x)
    ensures t.pipes.Some? ==> x in t.pipes.value
    ensures Rm(t, [], x) == t.(pipes := Without(t.pipes, x)) && IsGone(t, [], x) == Without(t.pipes, x).None?
  {
  }

  /** rm(prefix), one level of the recursion. */
  lemma RmStep(t: Trie, p: Prefix, x: Pipe)
    requires WellFormed(t) && p != [] && MayRemove(t, p, x)
    ensures t.min + |t.slots| <= 256
    ensures Child(t, p[0]) == None ==> Rm(t, p, x) == t && !IsGone(t, p, x)
    ensures Child(t, p[0]).Some? ==>
              var i := p[0] - t.min; var was := t.slots[i].value;
              && WellFormed(was) && MayRemove(was, p[1..], x) && IsGone(t, p, x) == IsGone(was, p[1..], x)
              && var child := Rm(was, p[1..], x); var u := t.(slots := t.slots[i := Some(child)]);
              && u.live == Live(u.slots) && u.slots[0].Some? && u.slots[|u.slots| - 1].Some?
              && Rm(t, p, x) == if Redundant(child) then Trim(u.(slots := u.slots[i := None], live := u.live - 1)) else u
  {
    hide Trim, Live, Without;
    if Child(t, p[0]).Some? {
      var i := p[0] - t.min;
      var child := Rm(t.slots[i].value, p[1..], x);
      LiveUpdate(t.slots, i, Some(child));
      assert t.slots[i := Some(child)][i := None] == t.slots[i := None];
    }
  }

  // rm(pipe), one level of the recursion.

  lemma SameSlots(t: Trie, u: Trie, x: Pipe, uniq: bool, path: Prefix, n: nat)
    requires WellFormed(t) && WellFormed(u) && t.slots == u.slots && t.min == u.min && n <= |t.slots|
    ensures RmSlots(t, x, n) == RmSlots(u, x, n)
    ensures SlotCalls(t, x, uniq, path, n) == SlotCalls(u, x, uniq, path, n)
  {
    if n > 0 {
      SameSlots(t, u, x, uniq, path, n - 1);
    }
  }

  lemma RmPipeLevel(t: Trie, x: Pipe, uniq: bool, path: Prefix)
    requires WellFormed(t)
    ensures t.pipes.Some? ==> t.pipes.value != {}
    ensures var u := t.(pipes := Without(t.pipes, x));
            && WellFormed(u) && u.pipes == Without(u.pipes, x) && RmPipe(u, x) == RmPipe(t, x)
            && Calls(t, x, uniq, path) == (if Reports(t, x, uniq) then [path] else []) + SlotCalls(u, x, uniq, path, |u.slots|)
            && (t.slots == [] ==> RmPipe(t, x) == u && SlotCalls(u, x, uniq, path, |u.slots|) == [])
  {
    var u := t.(pipes := Without(t.pipes, x));
    assert u.pipes == Without(u.pipes, x) by {
      if u.pipes.Some? {
        assert u.pipes.value - {x} == u.pipes.value;
      }
    }
    SameSlots(t, u, x, uniq, path, |t.slots|);
    if t.slots == [] {
      TrimEmpty(u);
    }
  }

  lemma RmOneChild(t: Trie, x: Pipe, uniq: bool, path: Prefix)
    requires WellFormed(t) && |t.slots| == 1 && t.pipes == Without(t.pipes, x)
    ensures t.slots[0].Some? && WellFormed(t.slots[0].value) && t.live == Live(t.slots)
    ensures var child := RmPipe(t.slots[0].value, x);
            RmPipe(t, x) == if Redundant(child) then Trie(t.pipes, t.min, 0, []) else Trie(t.pipes, t.min, 1, [Some(child)])
    ensures Live([None]) == 0 && forall v: Trie :: Live([Some(v)]) == 1
    ensures SlotCalls(t, x, uniq, path, 1) == Calls(t.slots[0].value, x, uniq, path + [t.min])
  {
    var child := RmPipe(t.slots[0].value, x);
    var slots := RmSlots(t, x, 1);
    assert slots == [Prune(child)];
    LiveOne(None);
    forall v: Trie
      ensures Live([Some(v)]) == 1
    {
      LiveOne(Some(v));
    }
    var u := Trie(t.pipes, t.min, Live(slots), slots);
    if Redundant(child) {
      TrimEmpty(u);
    } else {
      TrimIs(u, 0, 0);
    }
  }

  /** Slots `a` and `b` are the first and the last live child. */
  ghost predicate SpansLive(ms: seq<Option<Trie>>, a: int, b: int) {
    && 0 <= a <= b < |ms| && ms[a].Some? && ms[b].Some?
    && forall i | 0 <= i < |ms| && !(a <= i <= b) :: ms[i] == None
  }

  /** What the search for the first and the last live child knows after `c` slots. */
  ghost predicate Bounds(ms: seq<Option<Trie>>, c: nat, lo: int, hi: int) {
    && c <= |ms| && 0 <= lo < |ms| && 0 <= hi < |ms|
    && (forall i | 0 <= i < c && ms[i].Some? :: lo <= i <= hi)
    && (lo == |ms| - 1 || (lo < c && ms[lo].Some?))
    && (hi == 0 || (hi < c && ms[hi].Some?))
  }

  lemma BoundsSpan(ms: seq<Option<Trie>>, lo: int, hi: int)
    requires Bounds(ms, |ms|, lo, hi)
    ensures Live(ms) > 0 ==> SpansLive(ms, lo, hi)
  {
    NoLive(ms);
  }

  /** What compacting a table leaves, when the span of its live children is known. */
  lemma TrimSpan(t: Trie, lo: int, hi: int)
    requires t.min + |t.slots| <= 256 && (Live(t.slots) > 0 ==> SpansLive(t.slots, lo, hi))
    ensures Live(t.slots) == 0 ==> Trim(t) == t.(slots := [])
    ensures Live(t.slots) > 0 ==> 0 <= lo <= hi < |t.slots| && Trim(t) == t.(min := t.min + lo, slots := t.slots[lo..hi + 1])
  {
    if Live(t.slots) == 0 {
      NoLive(t.slots);
      TrimEmpty(t);
    } else {
      TrimIs(t, lo, hi);
    }
  }

  lemma BoundsStep(ms: seq<Option<Trie>>, c: nat, lo: int, hi: int, v: Option<Trie>)
    requires Bounds(ms, c, lo, hi) && c < |ms|
    ensures Bounds(ms[c := v], c + 1, if v.Some? && c < lo then c else lo, if v.Some? && c > hi then c else hi)
  {
  }

  lemma RmTableStart(t: Trie, x: Pipe, uniq: bool, path: Prefix)
    requires WellFormed(t)
    ensures RmSlots(t, x, 0) + t.slots[0..] == t.slots && t == Trie(t.pipes, t.min, Live(t.slots), t.slots)
    ensures SlotCalls(t, x, uniq, path, 0) == []
  {
  }

  lemma SplitAt(done: seq<Option<Trie>>, slots: seq<Option<Trie>>, c: nat, v: Option<Trie>)
    requires |done| == c < |slots|
    ensures (done + slots[c..])[c] == slots[c]
    ensures (done + slots[c..])[c := v] == done + [v] + slots[c + 1..]
  {
  }

  lemma RmTableStep(t: Trie, x: Pipe, uniq: bool, path: Prefix, c: nat)
    requires WellFormed(t) && c < |t.slots|
    ensures t.slots[c].Some? ==> WellFormed(t.slots[c].value)
    ensures var v := if t.slots[c].Some? then Prune(RmPipe(t.slots[c].value, x)) else None;
            var ms := RmSlots(t, x, c) + t.slots[c..];
            ms[c] == t.slots[c] && ms[c := v] == RmSlots(t, x, c + 1) + t.slots[c + 1..]
    ensures SlotCalls(t, x, uniq, path, c + 1) ==
            SlotCalls(t, x, uniq, path, c) + if t.slots[c].Some? then Calls(t.slots[c].value, x, uniq, path + [t.min + c]) else []
  {
    hide RmPipe, Calls;
    var v := if t.slots[c].Some? then Prune(RmPipe(t.slots[c].value, x)) else None;
    assert t.slots[c].Some? ==> WellFormed(t.slots[c].value);
    var done := RmSlots(t, x, c);
    assert RmSlots(t, x, c + 1) == done + [v];
    hide RmSlots, WellFormed;
    SplitAt(done, t.slots, c, v);
  }

  lemma RmTableEnd(t: Trie, x: Pipe)
    requires WellFormed(t) && t.pipes == Without(t.pipes, x)
    ensures var slots := RmSlots(t, x, |t.slots|);
            slots + t.slots[|t.slots|..] == slots && RmPipe(t, x) == Trim(Trie(t.pipes, t.min, Live(slots), slots))
  {
  }

  // match

  /** `signals` is right for all prefixes of the data shorter than `depth`. */
  ghost predicate Upto(t: Trie, data: Prefix, depth: nat, signals: seq<(nat, Pipe)>) {
    && (forall k: nat, x: Pipe :: (k, x) in signals <==> k < depth && k <= |data| && Has(t, data[..k], x))
    && (forall i, j | 0 <= i < j < |signals| :: signals[i].0 <= signals[j].0 && signals[i] != signals[j])
  }

  lemma SignalStep(t: Trie, data: Prefix, depth: nat, signals: seq<(nat, Pipe)>, more: seq<(nat, Pipe)>)
    requires depth <= |data| && Upto(t, data, depth, signals) && Find(t, data[..depth]).Some?
    requires var pipes := Find(t, data[..depth]).value.pipes;
             forall s :: s in more <==> s.0 == depth && pipes.Some? && s.1 in pipes.value
    requires forall i, j | 0 <= i < j < |more| :: more[i] != more[j]
    ensures Upto(t, data, depth + 1, signals + more)
  {
    forall k: nat, x: Pipe
      ensures (k, x) in signals + more <==> k < depth + 1 && k <= |data| && Has(t, data[..k], x)
    {
      if k == depth {
        FindHas(t, data[..depth], x);
      }
    }
    hide Has;
    var all := signals + more;
    forall i, j | 0 <= i < j < |all|
      ensures all[i].0 <= all[j].0 && all[i] != all[j]
    {
      if i < |signals| {
        assert signals[i] in signals && (signals[i].0, signals[i].1) in signals;
        assert signals[i].0 < depth;
      } else {
        assert all[i] in more;
      }
      if j >= |signals| {
        assert all[j] in more;
      }
    }
  }

  lemma {:induction false} FindMore(t: Trie, p: Prefix, c: Byte)
    ensures Find(t, p + [c]) == if Find(t, p) == None then None else Child(Find(t, p).value, c)
    decreases |p|
  {
    if p == [] {
      assert p + [c] == [c];
    } else if Child(t, p[0]).Some? {
      assert (p + [c])[1..] == p[1..] + [c];
      FindMore(Child(t, p[0]).value, p[1..], c);
    } else {
      assert (p + [c])[0] == p[0];
    }
  }

  lemma FindStep(t: Trie, data: Prefix, depth: nat)
    requires depth < |data| && Find(t, data[..depth]).Some?
    ensures Find(t, data[..depth + 1]) == Child(Find(t, data[..depth]).value, data[depth])
  {
    assert data[..depth + 1] == data[..depth] + [data[depth]];
    FindMore(t, data[..depth], data[depth]);
  }

  lemma {:induction false} NothingBelow(t: Trie, data: Prefix, depth: nat, k: nat)
    requires depth <= k <= |data| && Find(t, data[..depth]) == None
    ensures Find(t, data[..k]) == None
  {
    if depth < k {
      NothingBelow(t, data, depth, k - 1);
      assert data[..k] == data[..k - 1] + [data[k - 1]];
      FindMore(t, data[..k - 1], data[k - 1]);
    }
  }

  /** Where the walk leaves the trie, nothing longer can match. */
  lemma NoFurther(t: Trie, data: Prefix, depth: nat, signals: seq<(nat, Pipe)>)
    requires depth <= |data| && Upto(t, data, depth, signals)
    ensures Find(t, data[..depth]) == None ==> Upto(t, data, |data| + 1, signals)
  {
    if Find(t, data[..depth]) == None {
      forall k: nat, x: Pipe
        ensures (k, x) in signals <==> k < |data| + 1 && k <= |data| && Has(t, data[..k], x)
      {
        if depth <= k <= |data| {
          NothingBelow(t, data, depth, k);
          FindHas(t, data[..k], x);
        }
      }
    }
  }
}
