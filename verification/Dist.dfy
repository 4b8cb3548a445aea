/** The distributor of `dist.cpp`: an array kept partitioned by swapping, proved against the sets of `DistStep`. */
module Dist {
  import opened Options
  import opened MsgStep
  import opened Msg
  import opened Arrays
  import opened DistStep
  import S = DistStep

  class DistT {
    const pipes: ArrayT
    var matching: nat
    var active: nat
    var eligible: nat
    var more: bool

    ghost predicate Valid()
      reads this, pipes, pipes.items
    {
      && pipes.Valid() && matching <= active <= eligible <= |pipes.items|
      && (!more ==> active == eligible)
    }

    ghost function Abs(): View<Item>
      requires Valid()
      reads this, pipes, pipes.items
    {
      var s := pipes.items;
      View(First(s, matching), First(s, active), First(s, eligible), First(s, |s|), more)
    }

    constructor ()
      ensures Valid() && fresh(pipes) && Abs() == View({}, {}, {}, {}, false)
    {
      pipes := new ArrayT();
      matching, active, eligible, more := 0, 0, 0, false;
    }

    method Attach(pipe: Item)
      requires Valid() && pipe !in pipes.items
      modifies this, pipes, pipes.Members()`index, pipe`index
      ensures Valid() && Abs() == S.Attach(old(Abs()), pipe)
    {
      ghost var s := pipes.items;
      pipes.PushBack(pipe);
      var k := if more then eligible else active;
      AttachFirst(s, pipe, k);
      pipes.Swap(k, |pipes.items| - 1);
      if more {
        eligible := eligible + 1;
      } else {
        active := active + 1;
        eligible := eligible + 1;
      }
      Smaller(s, pipe, k, matching);
      Smaller(s, pipe, k, old(active));
    }

    /** Only between messages: the pipes matched in the middle of one would not all be active. */
    method Match(pipe: Item)
      requires Valid() && pipe in pipes.items && !more
      modifies this, pipes, pipes.Members()`index
      ensures Valid() && Abs() == S.Match(old(Abs()), pipe)
    {
      hide First, Distinct, Swapped;
      ghost var s := pipes.items;
      pipes.ValidIsDistinct();
      FirstIs(s, matching);
      FirstIs(s, eligible);
      if pipes.Index(pipe) < matching {
        assert First(s, matching) + {pipe} == First(s, matching);
        return;
      }
      if pipes.Index(pipe) >= eligible {
        return;
      }
      TakeIn(s, pipes.Index(pipe), matching);
      pipes.Swap(pipes.Index(pipe), matching);
      matching := matching + 1;
    }

    method Unmatch()
      requires Valid()
      modifies `matching
      ensures Valid() && Abs() == S.Unmatch(old(Abs())) && matching == 0
    {
      matching := 0;
    }

    /** One step of reverse_match. */
    method SwapIn(i: nat)
      requires pipes.Valid() && matching <= i < eligible <= |pipes.items|
      modifies `matching, pipes`items, pipes.Members()`index
      ensures pipes.Valid() && matching == old(matching) + 1 && |pipes.items| == |old(pipes.items)|
      ensures forall t | 0 <= t < old(matching) || i < t < |pipes.items| :: pipes.items[t] == old(pipes.items)[t]
      ensures pipes.items[old(matching)] == old(pipes.items)[i]
      ensures First(pipes.items, eligible) == First(old(pipes.items), eligible)
      ensures First(pipes.items, |pipes.items|) == First(old(pipes.items), |pipes.items|)
      ensures pipes.Members() == old(pipes.Members())
    {
      pipes.ValidIsDistinct();
      TakeIn(pipes.items, i, matching);
      pipes.Swap(i, matching);
      matching := matching + 1;
    }

    method ReverseMatch()
      requires Valid() && !more
      modifies this, pipes, pipes.Members()`index
      ensures Valid() && Abs() == S.ReverseMatch(old(Abs()))
    {
      ghost var s := pipes.items;
      pipes.ValidIsDistinct();
      var prev := matching;
      Unmatch();
      var i := prev;
      while i < eligible
        invariant prev <= i <= eligible && matching == i - prev && !more && pipes.Valid() && active == eligible <= |pipes.items|
        invariant eligible == old(eligible) && |pipes.items| == |s| && old(pipes.items) == s
        invariant pipes.Members() == old(pipes.Members())
        invariant forall t | 0 <= t < matching :: pipes.items[t] == s[prev + t]
        invariant forall t | i <= t < |s| :: pipes.items[t] == s[t]
        invariant First(pipes.items, eligible) == First(s, eligible) && First(pipes.items, |s|) == First(s, |s|)
      {
        SwapIn(i);
        i := i + 1;
      }
      Rest(s, pipes.items, prev, eligible);
    }

    /** If the pipe is among the first `k`, swaps it to their end; `n` is where the region ends without it. */
    method LeaveRegion(pipe: Item, k: nat) returns (n: nat)
      requires pipes.Valid() && pipe in pipes.items && k <= |pipes.items|
      modifies pipes`items, pipes.Members()`index
      ensures pipes.Valid() && |pipes.items| == |old(pipes.items)| && pipe in pipes.items
      ensures n == if old(pipes.Index(pipe)) < k then k - 1 else k
      ensures pipes.Index(pipe) == if old(pipes.Index(pipe)) < k then n else old(pipes.Index(pipe))
      ensures First(pipes.items, n) == First(old(pipes.items), k) - {pipe}
      ensures forall m: nat | m <= old(pipes.Index(pipe)) || k <= m <= |pipes.items| :: First(pipes.items, m) == First(old(pipes.items), m)
      ensures pipes.Members() == old(pipes.Members())
    {
      pipes.ValidIsDistinct();
      n := k;
      if pipes.Index(pipe) < k {
        CutOff(pipes.items, pipes.Index(pipe), k);
        pipes.Swap(pipes.Index(pipe), k - 1);
        n := k - 1;
        assert pipes.items[n] == pipe;
      } else {
        FirstIs(pipes.items, k);
      }
    }

    /** Moves the pipe behind the regions that it belongs to. */
    method LeaveRegions(pipe: Item)
      requires Valid() && pipe in pipes.items
      modifies this, pipes`items, pipes.Members()`index
      ensures Valid() && Abs() == S.Refuse(old(Abs()), {pipe}) && more == old(more)
      ensures |pipes.items| == |old(pipes.items)| && pipes.Members() == old(pipes.Members())
      ensures pipe in pipes.items && pipes.Index(pipe) >= eligible
      ensures matching == if old(pipes.Index(pipe)) < old(matching) then old(matching) - 1 else old(matching)
      ensures forall m: nat | m <= old(pipes.Index(pipe)) && m <= old(matching) :: First(pipes.items, m) == First(old(pipes.items), m)
    {
      hide First;
      matching := LeaveRegion(pipe, matching);
      active := LeaveRegion(pipe, active);
      eligible := LeaveRegion(pipe, eligible);
    }

    method PipeTerminated(pipe: Item)
      requires Valid() && pipe in pipes.items
      modifies this, pipes, pipes.Members()`index
      ensures Valid() && Abs() == S.PipeTerminated(old(Abs()), pipe)
    {
      hide First, Distinct, Swapped;
      LeaveRegions(pipe);
      ghost var t, n := pipes.items, |pipes.items|;
      pipes.ValidIsDistinct();
      CutOff(t, pipes.Index(pipe), n);
      FirstOfSlice(Swapped(t, pipes.Index(pipe), n - 1), n - 1);
      pipes.Erase(pipe);
    }

    method Activated(pipe: Item)
      requires Valid() && pipe in pipes.items && pipe !in Abs().eligible
      modifies this, pipes, pipes.Members()`index
      ensures Valid() && Abs() == S.Activated(old(Abs()), pipe)
    {
      hide First, Distinct, Swapped;
      ghost var s := pipes.items;
      pipes.ValidIsDistinct();
      FirstIs(s, eligible);
      if eligible < |pipes.items| {
        TakeIn(s, pipes.Index(pipe), eligible);
        pipes.Swap(pipes.Index(pipe), eligible);
        eligible := eligible + 1;
      }
      if !more && active < |pipes.items| {
        TakeIn(pipes.items, eligible - 1, active);
        pipes.Swap(eligible - 1, active);
        active := active + 1;
      }
    }

    /** Offers one frame to one matching pipe; a pipe without room leaves all regions. */
    method Write(pipe: Item, m: MsgT) returns (ok: bool)
      requires Valid() && pipe in pipes.items && pipes.Index(pipe) < matching
      modifies this, pipes`items, pipes.Members()`index, pipe`answers, pipe`attempts, pipe`log, pipe`flushed
      ensures Valid() && ok == old(pipe.Abs()).HasRoom() && more == old(more)
      ensures Abs() == if ok then old(Abs()) else S.Refuse(old(Abs()), {pipe})
      ensures pipe.Abs() == Offered(old(pipe.Abs()), m.Abs())
      ensures |pipes.items| == |old(pipes.items)| && pipes.Members() == old(pipes.Members())
      ensures ok ==> pipes.items == old(pipes.items) && matching == old(matching)
      ensures !ok ==> matching == old(matching) - 1 && forall m: nat | m <= old(pipes.Index(pipe)) :: First(pipes.items, m) == First(old(pipes.items), m)
    {
      ok := pipe.Write(Handle(m.kind, m.shared, m.more, m.content));
      if !ok {
        LeaveRegions(pipe);
        return;
      }
      if !m.more {
        pipe.Flush();
      }
    }

    /** The pipes without room for another frame. */
    static ghost function Full(ps: set<Item>): set<Item>
      reads ps
    {
      set p | p in ps && !p.Abs().HasRoom()
    }

    /** The loop of distribute at position `i`: the pipes before it took the frame, those in `refused` did not. */
    ghost predicate Midway(i: nat, refused: set<Item>, v: View<Item>, before: map<Item, Content<ContentT>>, frame: Frame)
      reads this, pipes, pipes.items, before.Keys
    {
      && Valid() && i <= matching && Abs() == S.Refuse(v, refused)
      && pipes.Members() == before.Keys
      && (forall p | p in refused :: p in v.matching && p in before && !before[p].HasRoom())
      && (forall p | p in First(pipes.items, i) :: p in v.matching && p in before && before[p].HasRoom())
      && (forall p | p in before :: p.Abs() == if p in refused || p in First(pipes.items, i) then Offered(before[p], frame) else before[p])
    }

    method WriteNext(i: nat, m: MsgT, ghost refused: set<Item>, ghost v: View<Item>, ghost before: map<Item, Content<ContentT>>) returns (ok: bool)
      requires Midway(i, refused, v, before, m.Abs()) && i < matching
      modifies this, pipes`items, before.Keys
      ensures Midway(if ok then i + 1 else i, if ok then refused else refused + {old(pipes.items[i])}, v, before, m.Abs())
      ensures matching == old(matching) - (if ok then 0 else 1) && more == old(more) && old(pipes.items[i]) !in refused
      ensures Valid() && matching <= |pipes.items|
    {
      hide First, Offered, S.Refuse;
      pipes.ValidIsDistinct();
      FirstIs(pipes.items, i);
      FirstIs(pipes.items, matching);
      var pipe := pipes.items[i];
      RefuseMore(v, refused, pipe);
      RefusedMatching(v, refused);
      assert pipe in v.matching && pipe !in refused && pipe !in First(pipes.items, i);
      ok := Write(pipe, m);
    }

    /** The loop of distribute.  A refusal swaps another pipe to the current position, which is retried. */
    method WriteLoop(m: MsgT, ghost v: View<Item>, ghost before: map<Item, Content<ContentT>>) returns (failed: nat, ghost refused: set<Item>)
      requires Valid() && matching <= |pipes.items| && Midway(0, {}, v, before, m.Abs())
      modifies this, pipes`items, before.Keys
      ensures Valid() && Midway(matching, refused, v, before, m.Abs()) && failed == |refused| && more == old(more)
    {
      hide *;
      ghost var frame := m.Abs();
      failed, refused := 0, {};
      var i := 0;
      while i < matching
        invariant Valid() && i <= matching <= |pipes.items| && Midway(i, refused, v, before, frame) && failed == |refused| && more == old(more)
        invariant m.Abs() == frame
        decreases matching - i
      {
        ghost var pipe := pipes.items[i];
        var ok := WriteNext(i, m, refused, v, before);
        if ok {
          i := i + 1;
        } else {
          failed := failed + 1;
          refused := refused + {pipe};
        }
      }
    }

    method WriteAll(m: MsgT) returns (failed: nat)
      requires Valid()
      modifies this, pipes`items, pipes.Members()
      ensures Valid() && more == old(more)
      ensures Abs() == S.Refuse(old(Abs()), old(Full(Abs().matching))) && failed == |old(Full(Abs().matching))|
      ensures forall p | p in old(pipes.items) ::
                p.Abs() == if p in old(Abs().matching) then Offered(old(p.Abs()), m.Abs()) else old(p.Abs())
    {
      ghost var v, full := Abs(), Full(Abs().matching);
      ghost var before := map p | p in pipes.items :: p.Abs();
      MidwayStart(before, m.Abs());
      assert forall p | p in v.matching :: p in full <==> !before[p].HasRoom();
      hide Midway, First, Offered, S.Refuse, Full;
      ghost var refused;
      failed, refused := WriteLoop(m, v, before);
      MidwayEnd(matching, refused, v, before, m.Abs(), full);
    }

    lemma MidwayStart(before: map<Item, Content<ContentT>>, frame: Frame)
      requires Valid() && before == map p | p in pipes.items :: p.Abs()
      ensures Midway(0, {}, Abs(), before, frame)
    {
      RefuseNone(Abs());
      hide Offered;
    }

    lemma MidwayEnd(i: nat, refused: set<Item>, v: View<Item>, before: map<Item, Content<ContentT>>, frame: Frame, full: set<Item>)
      requires Midway(i, refused, v, before, frame) && i >= matching && full <= v.matching && v.matching <= before.Keys
      requires forall p | p in v.matching :: p in full <==> !before[p].HasRoom()
      ensures refused == full && Abs() == S.Refuse(v, full)
      ensures forall p | p in before :: p.Abs() == if p in v.matching then Offered(before[p], frame) else before[p]
    {
      hide Offered;
      RefusedMatching(v, refused);
      assert First(pipes.items, i) == v.matching - refused;
      assert refused == full;
    }

    /** Every matching pipe is offered the message exactly once.  References are taken for all of them in
        advance and given back for those that refused. */
    method Distribute(msg: MsgT)
      requires Valid() && msg.Valid() && msg.kind != Invalid
      modifies this, pipes`items, pipes.Members(), msg, msg.Contents()
      ensures Valid() && more == old(more) && msg.Abs() == Init()
      ensures Abs() == S.Refuse(old(Abs()), old(Full(Abs().matching)))
      ensures forall p | p in old(pipes.items) ::
                p.Abs() == if p in old(Abs().matching) then Offered(old(p.Abs()), Sent(old(msg.Abs()), |old(Abs().matching)|)) else old(p.Abs())
      ensures old(msg.content).Some? ==>
                old(msg.content).value.Abs() ==
                SentCell(old(msg.Abs()), old(msg.content.value.Abs()), |old(Abs().matching)|, |old(Full(Abs().matching))|)
    {
      pipes.ValidIsDistinct();
      FirstSize(pipes.items, matching);
      hide First, Offered, S.Refuse, AddRefs, AddRefsCell, RmRefsCell, CloseCell;
      if matching == 0 {
        NothingMatches(Abs());
        var closed := msg.Close();
        msg.Init();
      } else if msg.kind.Vsm? {
        DistributeSmall(msg);
      } else {
        DistributeCounted(msg);
      }
    }

    /** Very small messages are copied as they are. */
    method DistributeSmall(msg: MsgT)
      requires Valid() && msg.Valid() && msg.kind.Vsm? && matching > 0
      modifies this, pipes`items, pipes.Members(), msg, msg.Contents()
      ensures Valid() && more == old(more) && msg.Abs() == Init()
      ensures Abs() == S.Refuse(old(Abs()), old(Full(Abs().matching)))
      ensures forall p | p in old(pipes.items) ::
                p.Abs() == if p in old(Abs().matching) then Offered(old(p.Abs()), Sent(old(msg.Abs()), old(matching))) else old(p.Abs())
      ensures old(msg.content).Some? ==>
                old(msg.content).value.Abs() ==
                SentCell(old(msg.Abs()), old(msg.content.value.Abs()), old(matching), |old(Full(Abs().matching))|)
    {
      hide First, Offered, S.Refuse;
      var skipped := WriteAll(msg);
      var closed := msg.Close();
      msg.Init();
    }

    method DistributeCounted(msg: MsgT)
      requires Valid() && msg.Valid() && msg.kind != Invalid && matching > 0
      modifies this, pipes`items, pipes.Members(), msg, msg.Contents()
      ensures Valid() && more == old(more) && msg.Abs() == Init()
      ensures Abs() == S.Refuse(old(Abs()), old(Full(Abs().matching)))
      ensures forall p | p in old(pipes.items) ::
                p.Abs() == if p in old(Abs().matching) then Offered(old(p.Abs()), Sent(old(msg.Abs()), old(matching))) else old(p.Abs())
      ensures old(msg.content).Some? ==>
                old(msg.content).value.Abs() ==
                SentCell(old(msg.Abs()), old(msg.content.value.Abs()), old(matching), |old(Full(Abs().matching))|)
    {
      hide First, Offered, S.Refuse, AddRefsCell, RmRefsCell, CloseCell, ArrayT.Valid, Distinct;
      ghost var v, full := Abs(), Full(Abs().matching);
      msg.AddRefs(matching - 1);
      assert Abs() == v && Full(v.matching) == full;
      var failed := WriteAll(msg);
      if failed > 0 {
        var left := msg.RmRefs(failed);
      } else {
        NoneFailed(msg.Abs());
      }
      msg.Init();
    }

    method SendToMatching(msg: MsgT)
      requires Valid() && msg.Valid() && msg.kind != Invalid
      modifies this, pipes`items, pipes.Members(), msg, msg.Contents()
      ensures Valid() && msg.Abs() == Init()
      ensures Abs() == S.SendToMatching(old(Abs()), old(msg.more), old(Full(Abs().matching)))
      ensures forall p | p in old(pipes.items) ::
                p.Abs() == if p in old(Abs().matching) then Offered(old(p.Abs()), Sent(old(msg.Abs()), |old(Abs().matching)|)) else old(p.Abs())
    {
      var msgMore := msg.more;
      Distribute(msg);
      if !msgMore {
        active := eligible;
      }
      more := msgMore;
    }

    method SendToAll(msg: MsgT)
      requires Valid() && msg.Valid() && msg.kind != Invalid
      modifies this, pipes`items, pipes.Members(), msg, msg.Contents()
      ensures Valid() && msg.Abs() == Init()
      ensures Abs() == S.SendToAll(old(Abs()), old(msg.more), old(Full(Abs().active)))
      ensures forall p | p in old(pipes.items) ::
                p.Abs() == if p in old(Abs().active) then Offered(old(p.Abs()), Sent(old(msg.Abs()), |old(Abs().active)|)) else old(p.Abs())
    {
      matching := active;
      SendToMatching(msg);
    }
  }

  /** A pipe after dist_t::write: the last frame of a message publishes it, if there was room. */
  function Offered(c: Content<ContentT>, m: Frame): Content<ContentT> {
    if c.HasRoom() && !m.more then c.Offer(m).Flushed() else c.Offer(m)
  }

  /** The copy of the message that is written to each of `n` pipes. */
  function Sent(h: Frame, n: nat): Frame {
    if n == 0 then h else AddRefs(h, n - 1)
  }

  /** The reference count after `n` pipes were offered the message and `failed` of them refused. */
  function SentCell(h: Frame, cell: Cell, n: nat, failed: nat): Cell {
    if n == 0 then CloseCell(h, cell) else RmRefsCell(AddRefs(h, n - 1), AddRefsCell(h, cell, n - 1), failed)
  }

  /** After distribute the content accounts for the pipes that took the message instead of the message; it
      is freed exactly if nobody holds it any more. */
  lemma SentCellCounts(h: Frame, cell: Cell, n: nat, failed: nat)
    requires Counted(h.kind) && failed <= n && Users(h, cell) >= 1
    ensures var after := SentCell(h, cell, n, failed);
            var users := Users(h, cell) - 1 + (n - failed);
            && after.frees == cell.frees + (if users == 0 then 1 else 0)
            && (failed < n ==> Users(Sent(h, n), after) == users) && (h.shared ==> after.refcnt == users)
  {
    if n > 0 {
      DistributedCell(h, cell, n - failed, failed);
    }
  }

  lemma NoneFailed(h: Frame)
    ensures forall cell :: RmRefsCell(h, cell, 0) == cell
  {
  }

  lemma NothingMatches(v: View<Item>)
    requires v.matching == {}
    ensures S.Refuse(v, {}) == v
  {
  }

  /** A pipe was appended and swapped to position `k`. */
  lemma AttachFirst(s: seq<Item>, pipe: Item, k: nat)
    requires k <= |s|
    ensures var r := Swapped(s + [pipe], k, |s|);
            && First(r, k + 1) == First(s, k) + {pipe} && First(r, |r|) == First(s, |s|) + {pipe}
  {
    var t := s + [pipe];
    var r := Swapped(t, k, |s|);
    SwapKeepsFirst(t, k, |s|, |t|);
    SwapKeepsFirst(t, k, |s|, k);
    assert t[..|t|] == s[..|s|] + [pipe];
    assert t[..k] == s[..k];
    FirstIs(r, k);
  }

  lemma Smaller(s: seq<Item>, pipe: Item, k: nat, m: nat)
    requires m <= k <= |s|
    ensures First(Swapped(s + [pipe], k, |s|), m) == First(s, m)
  {
    SwapKeepsFirst(s + [pipe], k, |s|, m);
    assert (s + [pipe])[..m] == s[..m];
  }

  lemma Rest(s: seq<Item>, r: seq<Item>, prev: nat, eligible: nat)
    requires prev <= eligible <= |s| == |r| && Distinct(s)
    requires forall t | 0 <= t < eligible - prev :: r[t] == s[prev + t]
    ensures First(r, eligible - prev) == First(s, eligible) - First(s, prev)
  {
    FirstIs(s, prev);
    forall x
      ensures x in First(r, eligible - prev) <==> x in First(s, eligible) - First(s, prev)
    {
      if x in First(s, eligible) - First(s, prev) {
        var t :| 0 <= t < eligible && s[t] == x;
        assert t >= prev;
        assert r[t - prev] == x;
      }
      if x in First(r, eligible - prev) {
        var t :| 0 <= t < eligible - prev && r[t] == x;
        assert s[..eligible][prev + t] == x;
      }
    }
  }

  lemma RefuseNone(v: View<Item>)
    ensures S.Refuse(v, {}) == v
  {
  }

  lemma RefusedMatching(v: View<Item>, ps: set<Item>)
    ensures S.Refuse(v, ps).matching == v.matching - ps
  {
  }

  lemma RefuseMore(v: View<Item>, ps: set<Item>, p: Item)
    ensures S.Refuse(S.Refuse(v, ps), {p}) == S.Refuse(v, ps + {p})
  {
  }
}
