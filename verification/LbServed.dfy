/** Where the load balancer sends: to a pipe with room whenever an active pipe has some, in turn. */
module LbServed {
  import opened Options
  import opened MsgStep
  import opened Arrays
  import opened RingStep
  import opened LbStep
  import opened LbRun

  /** An active pipe has room. */
  predicate RoomSomewhere(f: Balancer)
    requires Usable(f)
  {
    exists i :: 0 <= i < f.ring.active && f.conts[f.ring.pipes[i]].HasRoom()
  }

  /** Only `p` took the frame. */
  predicate Delivered(before: map<Pipe, Content<nat>>, after: map<Pipe, Content<nat>>, p: Pipe, frame: Handle<nat>) {
    && after.Keys == before.Keys && p in before && before[p].HasRoom() && after[p].log == before[p].log + [frame]
    && (!frame.more ==> after[p].flushed == |after[p].log|) && (frame.more ==> after[p].flushed == before[p].flushed)
    && forall q | q in before && q != p :: after[q].log == before[q].log && after[q].flushed == before[q].flushed
  }

  /** Nobody took it. */
  predicate Undelivered(before: map<Pipe, Content<nat>>, after: map<Pipe, Content<nat>>) {
    after.Keys == before.Keys && forall q | q in before :: after[q].log == before[q].log && after[q].flushed == before[q].flushed
  }

  /** Skipping a pipe without room loses no pipe that has some. */
  lemma SameRoom(f: Balancer, c: Content<nat>)
    requires Ok(f.ring) && Usable(f) && f.ring.active > 0 && !f.conts[Current(f)].HasRoom()
    ensures Usable(Skip(f, c)) && Ok(Skip(f, c).ring) && (RoomSomewhere(Skip(f, c)) <==> RoomSomewhere(f))
  {
    var g := Skip(f, c);
    DeactivateOk(f.ring);
    assert f.ring.pipes[f.ring.current] !in g.ring.pipes[..g.ring.active];
    if i :| 0 <= i < f.ring.active && f.conts[f.ring.pipes[i]].HasRoom() {
      var j := SkippingIsFair(f.ring, i);
      assert g.conts[g.ring.pipes[j]] == f.conts[f.ring.pipes[i]];
    }
    if i :| 0 <= i < g.ring.active && g.conts[g.ring.pipes[i]].HasRoom() {
      var j := if i == f.ring.current then f.ring.active - 1 else i;
      assert g.conts[g.ring.pipes[i]] == f.conts[f.ring.pipes[j]];
    }
  }

  /** The current pipe has room. */
  lemma TakenHere(f: Balancer, frame: Handle<nat>)
    requires Ok(f.ring) && Usable(f) && f.ring.active > 0 && f.conts[Current(f)].HasRoom()
    ensures var g, p := Take(f, frame), Current(f);
            && p in ActiveSet(f.ring) && RoomSomewhere(f) && Delivered(f.conts, g.conts, p, frame) && g.more == frame.more
            && (frame.more ==> Usable(g) && g.ring.active > 0 && Current(g) == p)
  {
    FirstIs(f.ring.pipes, f.ring.active);
    assert f.conts[f.ring.pipes[f.ring.current]].HasRoom();
  }

  /** What is delivered after skipping a pipe without room was delivered by the whole call. */
  lemma TakenLater(f: Balancer, after: map<Pipe, Content<nat>>, p: Pipe, frame: Handle<nat>)
    requires Ok(f.ring) && Usable(f) && f.ring.active > 0 && !f.conts[Current(f)].HasRoom()
    requires f.conts[Current(f)].Offer(frame).log == f.conts[Current(f)].log && f.conts[Current(f)].Offer(frame).flushed == f.conts[Current(f)].flushed
    requires var g := Skip(f, f.conts[Current(f)].Offer(frame)); g.ring.active <= |g.ring.pipes|
    ensures var g := Skip(f, f.conts[Current(f)].Offer(frame));
            && (p in ActiveSet(g.ring) && Delivered(g.conts, after, p, frame) ==> p in ActiveSet(f.ring) && Delivered(f.conts, after, p, frame))
            && (Undelivered(g.conts, after) ==> Undelivered(f.conts, after))
  {
    DeactivateIs(f.ring);
    hide First, Distinct;
  }

  /** The first frame of a message is taken exactly if an active pipe has room, and then by exactly one such pipe,
      which is the current one while the message goes on. */
  lemma {:induction false} SendFinds(f: Balancer, frame: Handle<nat>) returns (p: Pipe)
    requires Ok(f.ring) && Usable(f) && !f.dropping && !f.more
    ensures Send(f, frame).1 <==> RoomSomewhere(f)
    ensures Send(f, frame).1 ==>
              var g := Send(f, frame).0;
              && p in ActiveSet(f.ring) && Delivered(f.conts, g.conts, p, frame) && g.more == frame.more
              && (frame.more ==> Usable(g) && g.ring.active > 0 && Current(g) == p)
    ensures !Send(f, frame).1 ==> Undelivered(f.conts, Send(f, frame).0.conts)
    decreases f.ring.active
  {
    p := 0;
    SendUnfolded(f, frame);
    if f.ring.active > 0 {
      p := Current(f);
      if f.conts[p].HasRoom() {
        hide Ok, Delivered, RoomSomewhere;
        TakenHere(f, frame);
      } else {
        var c := f.conts[p].Offer(frame);
        assert c.log == f.conts[p].log && c.flushed == f.conts[p].flushed;
        hide Ok, Delivered, Undelivered, RoomSomewhere, ActiveSet, Send;
        SameRoom(f, c);
        p := SendFinds(Skip(f, c), frame);
        TakenLater(f, Send(f, frame).0.conts, p, frame);
      }
    } else {
      NoRoom(f);
    }
  }

  lemma NoRoom(f: Balancer)
    requires Usable(f) && f.ring.active == 0
    ensures !RoomSomewhere(f)
  {
  }

  /** has_out is true exactly if the message goes on or an active pipe has room. */
  lemma {:induction false} HasOutFinds(f: Balancer)
    requires Ok(f.ring) && Usable(f)
    ensures HasOut(f).1 <==> f.more || RoomSomewhere(f)
    ensures Undelivered(f.conts, HasOut(f).0.conts)
    decreases f.ring.active
  {
    if !f.more && f.ring.active > 0 && !f.conts[Current(f)].HasRoom() {
      var c := f.conts[Current(f)].Ask();
      SameRoom(f, c);
      HasOutFinds(Skip(f, c));
    }
  }

  /** A send with all other pipes full goes to the pipe that was just activated, if that has room. */
  lemma ActivatedIsSentTo(f: Balancer, i: nat, frame: Handle<nat>)
    requires Ok(f.ring) && Usable(f) && !f.dropping && !f.more && f.ring.active <= i < |f.ring.pipes|
    requires f.conts[f.ring.pipes[i]].HasRoom() && !RoomSomewhere(f)
    ensures var g := f.(ring := Activate(f.ring, i));
            Usable(g) && Send(g, frame).1 && Delivered(f.conts, Send(g, frame).0.conts, f.ring.pipes[i], frame)
  {
    var g, p := f.(ring := Activate(f.ring, i)), f.ring.pipes[i];
    ActivateOk(f.ring, i);
    ActivateIs(f.ring, i);
    OnlyOneIsSentTo(f, g, p, frame);
  }

  lemma AttachedIsSentTo(f: Balancer, p: Pipe, c: Content<nat>, frame: Handle<nat>)
    requires Ok(f.ring) && Usable(f) && !f.dropping && !f.more && p !in f.ring.pipes && c.HasRoom() && !RoomSomewhere(f)
    ensures var g := f.(ring := Attach(f.ring, p), conts := f.conts[p := c]);
            Usable(g) && Send(g, frame).1 && Delivered(g.conts, Send(g, frame).0.conts, p, frame)
  {
    var g := f.(ring := Attach(f.ring, p), conts := f.conts[p := c]);
    AttachOk(f.ring, p);
    AttachIs(f.ring, p);
    OnlyOneIsSentTo(f, g, p, frame);
  }

  lemma OnlyOneIsSentTo(f: Balancer, g: Balancer, p: Pipe, frame: Handle<nat>)
    requires Usable(f) && !RoomSomewhere(f) && Ok(g.ring) && Usable(g) && !g.dropping && !g.more
    requires g.ring.active == f.ring.active + 1 && g.ring.pipes[f.ring.active] == p && g.conts[p].HasRoom()
    requires forall j | 0 <= j < f.ring.active :: g.ring.pipes[j] == f.ring.pipes[j] && g.conts[g.ring.pipes[j]] == f.conts[g.ring.pipes[j]]
    ensures Send(g, frame).1 && Delivered(g.conts, Send(g, frame).0.conts, p, frame)
  {
    var q := SendFinds(g, frame);
    FirstIs(g.ring.pipes, g.ring.active);
    var j :| 0 <= j < g.ring.active && g.ring.pipes[j] == q;
    assert j == f.ring.active;
  }

  /** A pipe with room waits for its turn: a message that goes to another pipe brings it one closer. */
  lemma {:induction false} SendIsFair(f: Balancer, i: nat, frame: Handle<nat>) returns (j: nat)
    requires Ok(f.ring) && Usable(f) && !f.dropping && !f.more && i < f.ring.active && f.conts[f.ring.pipes[i]].HasRoom()
    ensures Send(f, frame).1
    ensures var g, p := Send(f, frame).0, f.ring.pipes[i];
            || Delivered(f.conts, g.conts, p, frame)
            || (Usable(g) && j < g.ring.active && g.ring.pipes[j] == p && g.conts[p] == f.conts[p]
                && Distance(g.ring, j) + (if frame.more then 0 else 1) <= Distance(f.ring, i))
    decreases f.ring.active
  {
    j := i;
    DeactivateOk(f.ring);
    if !f.conts[Current(f)].HasRoom() {
      var c := f.conts[Current(f)].Offer(frame);
      var k := SkippingIsFair(f.ring, i);
      SameRoom(f, c);
      j := SendIsFair(Skip(f, c), k, frame);
    } else if i != f.ring.current {
      AdvancingIsFair(f.ring, i);
    }
  }
}
