/** Facts about the child table: counting live children, growing and trimming. */
module MtrieTable {
  import opened Bytes
  import opened Options
  import opened MtrieStep

  lemma {:induction false} LiveConcat(a: seq<Option<Trie>>, b: seq<Option<Trie>>)
    ensures Live(a + b) == Live(a) + Live(b)
  {
    if b == [] {
      assert a + b == a;
    } else {
      assert (a + b)[..|a + b| - 1] == a + b[..|b| - 1];
      LiveConcat(a, b[..|b| - 1]);
    }
  }

  lemma LiveOne(v: Option<Trie>)
    ensures Live([v]) == if v.Some? then 1 else 0
  {
    assert [v][..0] == [];
  }

  /** Storing `v` in slot `i`. */
  lemma LiveUpdate(slots: seq<Option<Trie>>, i: nat, v: Option<Trie>)
    requires i < |slots|
    ensures Live(slots[i := v]) == Live(slots) - (if slots[i].Some? then 1 else 0) + (if v.Some? then 1 else 0)
    ensures slots[i].Some? ==> Live(slots) > 0
  {
    var a, b := slots[..i], slots[i + 1..];
    assert slots == a + [slots[i]] + b && slots[i := v] == a + [v] + b;
    LiveConcat(a + [slots[i]], b);
    LiveConcat(a + [v], b);
    LiveConcat(a, [slots[i]]);
    LiveConcat(a, [v]);
    LiveOne(v);
    LiveOne(slots[i]);
  }

  lemma {:induction false} NoLive(slots: seq<Option<Trie>>)
    ensures Live(slots) == 0 <==> forall i | 0 <= i < |slots| :: slots[i] == None
  {
    if slots != [] {
      NoLive(slots[..|slots| - 1]);
    }
  }

  /** One live child: the table is that child and nulls. */
  lemma OneLive(slots: seq<Option<Trie>>, i: nat)
    requires i < |slots| && slots[i].Some?
    ensures Live(slots) == 1 <==> forall j | 0 <= j < |slots| && j != i :: slots[j] == None
  {
    LiveUpdate(slots, i, None);
    NoLive(slots[i := None]);
    assert forall j | 0 <= j < |slots| && j != i :: slots[i := None][j] == slots[j];
  }

  /** A table with both ends taken has at least two live children. */
  lemma TwoLive(slots: seq<Option<Trie>>)
    requires |slots| > 1 && slots[0].Some? && slots[|slots| - 1].Some?
    ensures Live(slots) > 1
  {
    OneLive(slots, 0);
    LiveUpdate(slots, 0, None);
  }

  ghost predicate SameChildren(t: Trie, u: Trie) {
    forall d: Byte {:trigger Child(t, d)} {:trigger Child(u, d)} :: Child(t, d) == Child(u, d)
  }

  lemma GrowKeeps(t: Trie, c: Byte)
    ensures var g := Grow(t, c);
            && g.min <= c < g.min + |g.slots| && g.pipes == t.pipes && g.live == t.live
            && Live(g.slots) == Live(t.slots)
            && (t.min + |t.slots| <= 256 ==> g.min + |g.slots| <= 256)
    ensures SameChildren(Grow(t, c), t)
  {
    var g := Grow(t, c);
    if g != t {
      NoLive([None]);
      if t.slots != [] {
        var n := if t.min < c then c - t.min + 1 - |t.slots| else t.min - c;
        LiveConcat(t.slots, Nulls(n));
        LiveConcat(Nulls(n), t.slots);
        NoLive(Nulls(n));
      }
    }
  }

  lemma GrowEnds(t: Trie, c: Byte)
    requires t.slots != [] ==> t.slots[0].Some? && t.slots[|t.slots| - 1].Some?
    ensures var g := Grow(t, c);
            && g.min <= c < g.min + |g.slots|
            && (g.slots[0].Some? || c == g.min) && (g.slots[|g.slots| - 1].Some? || c == g.min + |g.slots| - 1)
            && forall i {:trigger g.slots[i]} | 0 <= i < |g.slots| ::
                 g.slots[i] == if t.min <= g.min + i < t.min + |t.slots| then t.slots[g.min + i - t.min] else None
  {
  }

  lemma {:induction false} LeadIs(slots: seq<Option<Trie>>)
    ensures Lead(slots) <= |slots|
    ensures forall i | 0 <= i < Lead(slots) :: slots[i] == None
    ensures Lead(slots) < |slots| ==> slots[Lead(slots)].Some?
  {
    if slots != [] && slots[0] == None {
      LeadIs(slots[1..]);
      forall i | 0 <= i < Lead(slots)
        ensures slots[i] == None
      {
        assert i > 0 ==> slots[i] == slots[1..][i - 1];
      }
    }
  }

  lemma {:induction false} DropTailIs(slots: seq<Option<Trie>>)
    ensures DropTail(slots) <= slots
    ensures forall i | |DropTail(slots)| <= i < |slots| :: slots[i] == None
    ensures DropTail(slots) != [] ==> DropTail(slots)[|DropTail(slots)| - 1].Some?
  {
    if slots != [] && slots[|slots| - 1] == None {
      DropTailIs(slots[..|slots| - 1]);
    }
  }

  /** The first and the last live child. */
  lemma LiveSpan(slots: seq<Option<Trie>>) returns (a: nat, b: nat)
    requires Lead(slots) < |slots|
    ensures a <= b < |slots| && a == Lead(slots) && slots[a].Some? && slots[b].Some?
    ensures forall i | 0 <= i < |slots| && !(a <= i <= b) :: slots[i] == None
    ensures DropTail(slots[a..]) == slots[a..b + 1]
  {
    LeadIs(slots);
    a := Lead(slots);
    var rest := slots[a..];
    DropTailIs(rest);
    assert rest[0].Some?;
    b := a + |DropTail(rest)| - 1;
    forall i | b < i < |slots|
      ensures slots[i] == None
    {
      assert rest[i - a] == slots[i];
    }
  }

  /** Trimming, from the ends: this is what every compaction in the source does. */
  lemma TrimIs(t: Trie, a: nat, b: nat)
    requires t.min + |t.slots| <= 256 && a <= b < |t.slots| && t.slots[a].Some? && t.slots[b].Some?
    requires forall i | 0 <= i < |t.slots| && !(a <= i <= b) :: t.slots[i] == None
    ensures Trim(t) == t.(min := t.min + a, slots := t.slots[a..b + 1])
  {
    LeadIs(t.slots);
    var x, y := LiveSpan(t.slots);
  }

  lemma TrimEmpty(t: Trie)
    requires t.min + |t.slots| <= 256 && forall i | 0 <= i < |t.slots| :: t.slots[i] == None
    ensures Trim(t) == t.(slots := [])
  {
    LeadIs(t.slots);
  }

  lemma LiveSlice(slots: seq<Option<Trie>>, a: nat, b: nat)
    requires a <= b < |slots|
    requires forall i | 0 <= i < |slots| && !(a <= i <= b) :: slots[i] == None
    ensures Live(slots[a..b + 1]) == Live(slots)
  {
    assert slots == slots[..a] + slots[a..b + 1] + slots[b + 1..];
    LiveConcat(slots[..a] + slots[a..b + 1], slots[b + 1..]);
    LiveConcat(slots[..a], slots[a..b + 1]);
    NoLive(slots[..a]);
    NoLive(slots[b + 1..]);
  }

  /** Trimming changes no child. */
  lemma TrimKeeps(t: Trie)
    requires t.min + |t.slots| <= 256
    ensures var u := Trim(t);
            && u.pipes == t.pipes && u.live == t.live && u.min + |u.slots| <= 256 && Live(u.slots) == Live(t.slots)
            && (u.slots != [] ==> u.slots[0].Some? && u.slots[|u.slots| - 1].Some?)
    ensures SameChildren(Trim(t), t)
    ensures forall i | 0 <= i < |Trim(t).slots| :: Trim(t).slots[i] in t.slots
  {
    hide Live, Lead, DropTail;
    LeadIs(t.slots);
    if Lead(t.slots) < |t.slots| {
      var a, b := LiveSpan(t.slots);
      LiveSlice(t.slots, a, b);
    } else {
      NoLive(t.slots);
      NoLive([]);
    }
  }
}
