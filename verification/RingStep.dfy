/** The round-robin array that `fq.cpp` and `lb.cpp` share: the first `active` pipes take turns, and
    `current` is the one whose turn it is. */
module RingStep {
  import opened Arrays

  datatype Ring<T> = Ring(pipes: seq<T>, active: nat, current: nat)

  ghost predicate Ok<T>(r: Ring<T>) {
    && Distinct(r.pipes) && r.active <= |r.pipes|
    && (if r.active == 0 then r.current == 0 else r.current < r.active)
  }

  /** The current pipe cannot be used now; the last active pipe takes its position. */
  function Deactivate<T>(r: Ring<T>): Ring<T>
    requires r.current < r.active <= |r.pipes|
  {
    var a := r.active - 1;
    Ring(Swapped(r.pipes, r.current, a), a, if r.current == a then 0 else r.current)
  }

  function Activate<T>(r: Ring<T>, i: nat): Ring<T>
    requires r.active <= i < |r.pipes|
  {
    Ring(Swapped(r.pipes, i, r.active), r.active + 1, r.current)
  }

  function Attach<T>(r: Ring<T>, p: T): Ring<T>
    requires r.active <= |r.pipes|
  {
    Activate(r.(pipes := r.pipes + [p]), |r.pipes|)
  }

  /** The pipe at position `i` leaves. */
  function Terminate<T>(r: Ring<T>, i: nat): Ring<T>
    requires i < |r.pipes| && r.active <= |r.pipes|
  {
    var a := if i < r.active then r.active - 1 else r.active;
    var s := if i < r.active then Swapped(r.pipes, i, a) else r.pipes;
    var j := if i < r.active then a else i;
    Ring(Swapped(s, j, |s| - 1)[..|s| - 1], a, if i < r.active && r.current == a then 0 else r.current)
  }

  /** The turn passes to the next active pipe. */
  function Advance<T>(r: Ring<T>): Ring<T> {
    r.(current := if r.current + 1 < r.active then r.current + 1 else 0)
  }

  lemma AttachOk<T>(r: Ring<T>, p: T)
    requires Ok(r) && p !in r.pipes
    ensures Ok(Attach(r, p))
  {
    assert Distinct(r.pipes + [p]);
    SwapKeepsDistinct(r.pipes + [p], |r.pipes|, r.active);
    hide Distinct;
  }

  lemma ActivateOk<T>(r: Ring<T>, i: nat)
    requires Ok(r) && r.active <= i < |r.pipes|
    ensures Ok(Activate(r, i))
  {
    hide Distinct;
    SwapKeepsDistinct(r.pipes, i, r.active);
  }

  lemma DeactivateOk<T>(r: Ring<T>)
    requires Ok(r) && r.active > 0
    ensures Ok(Deactivate(r))
  {
    hide Distinct;
    SwapKeepsDistinct(r.pipes, r.current, r.active - 1);
  }

  lemma TerminateOk<T>(r: Ring<T>, i: nat)
    requires Ok(r) && i < |r.pipes|
    ensures Ok(Terminate(r, i))
  {
    var a := if i < r.active then r.active - 1 else r.active;
    var s := if i < r.active then Swapped(r.pipes, i, a) else r.pipes;
    var j := if i < r.active then a else i;
    if i < r.active {
      SwapKeepsDistinct(r.pipes, i, a);
    }
    SwapKeepsDistinct(s, j, |s| - 1);
    assert Distinct(Swapped(s, j, |s| - 1)[..|s| - 1]);
    hide Distinct, Swapped;
  }

  lemma OkFacts<T>(r: Ring<T>)
    requires Ok(r)
    ensures r.active <= |r.pipes| && (if r.active == 0 then r.current == 0 else r.current < r.active)
  {
  }

  /** Leaving and activating brings no new pipe in. */
  lemma MembersStay<T>(r: Ring<T>, i: nat)
    requires Ok(r) && i < |r.pipes|
    ensures forall p | p in Terminate(r, i).pipes :: p in r.pipes
    ensures i >= r.active ==> forall p | p in Activate(r, i).pipes :: p in r.pipes
  {
  }

  /** Activating and attaching pipes does not touch the current one. */
  lemma CurrentStays<T>(r: Ring<T>)
    requires Ok(r) && r.active > 0
    ensures forall i: nat | r.active <= i < |r.pipes| :: Activate(r, i).pipes[r.current] == r.pipes[r.current]
    ensures forall p :: Attach(r, p).pipes[r.current] == r.pipes[r.current]
  {
  }

  /** The pipe that leaves does not have the turn, and the one that has it is not moved by the swap,
      except to the first position, where the turn is reset to. */
  predicate KeepsTurn<T>(r: Ring<T>, i: nat) {
    i != r.current && !(0 < i < r.active && r.current == r.active - 1)
  }

  /** When a pipe leaves, the turn stays with the pipe that has it exactly unless that pipe itself leaves,
      or it is the last active one and moves to a position other than the first. */
  lemma TurnStays<T>(r: Ring<T>, i: nat)
    requires Ok(r) && r.active > 0 && i < |r.pipes|
    ensures (Terminate(r, i).active > 0 && Terminate(r, i).pipes[Terminate(r, i).current] == r.pipes[r.current])
            <==> KeepsTurn(r, i)
  {
  }

  /** How many other pipes have their turn before the one at position `i`. */
  function Distance<T>(r: Ring<T>, i: nat): int
    requires i < r.active
  {
    if i >= r.current then i - r.current else i + r.active - r.current
  }

  /** Skipping an empty pipe brings every other active pipe closer, or leaves it where it is in line. */
  lemma SkippingIsFair<T>(r: Ring<T>, i: nat) returns (j: nat)
    requires Ok(r) && i < r.active && i != r.current
    ensures j < Deactivate(r).active && Deactivate(r).pipes[j] == r.pipes[i]
    ensures Distance(Deactivate(r), j) <= Distance(r, i)
  {
    j := if i == r.active - 1 then r.current else i;
  }

  lemma AdvancingIsFair<T>(r: Ring<T>, i: nat)
    requires Ok(r) && i < r.active && i != r.current
    ensures Distance(Advance(r), i) == Distance(r, i) - 1 >= 0
  {
  }

  // Who is active, and who is there at all.

  ghost function ActiveSet<T>(r: Ring<T>): set<T>
    requires r.active <= |r.pipes|
  {
    First(r.pipes, r.active)
  }

  ghost function AllSet<T>(r: Ring<T>): set<T> {
    First(r.pipes, |r.pipes|)
  }

  /** After activated(p) the active pipes are the earlier ones and p, which is the last in line of them. */
  lemma ActivateIs<T>(r: Ring<T>, i: nat)
    requires Ok(r) && r.active <= i < |r.pipes|
    ensures var t := Activate(r, i);
            && t.active == r.active + 1 && t.active <= |t.pipes|
            && ActiveSet(t) == ActiveSet(r) + {r.pipes[i]} && AllSet(t) == AllSet(r)
            && t.pipes[r.active] == r.pipes[i] && t.current == r.current
            && forall j | 0 <= j < r.active :: t.pipes[j] == r.pipes[j]
  {
    TakeIn(r.pipes, i, r.active);
  }

  lemma AttachIs<T>(r: Ring<T>, p: T)
    requires Ok(r) && p !in r.pipes
    ensures var t := Attach(r, p);
            && t.active == r.active + 1 && t.active <= |t.pipes|
            && ActiveSet(t) == ActiveSet(r) + {p} && AllSet(t) == AllSet(r) + {p}
            && t.pipes[r.active] == p && t.current == r.current
            && forall j | 0 <= j < r.active :: t.pipes[j] == r.pipes[j]
  {
    var s := r.pipes + [p];
    assert Distinct(s);
    TakeIn(s, |r.pipes|, r.active);
    FirstIs(s, |r.pipes|);
    assert s[..r.active] == r.pipes[..r.active] && s[..|r.pipes|] == r.pipes[..|r.pipes|];
  }

  /** The current pipe, and no other, becomes passive. */
  lemma DeactivateIs<T>(r: Ring<T>)
    requires Ok(r) && r.active > 0
    ensures var t := Deactivate(r);
            t.active <= |t.pipes| && ActiveSet(t) == ActiveSet(r) - {r.pipes[r.current]} && AllSet(t) == AllSet(r)
  {
    CutOff(r.pipes, r.current, r.active);
  }

  /** The tail of pipe_terminated: the pipe at position `j` is erased. */
  lemma EraseIs<T>(s: seq<T>, j: nat, a: nat)
    requires Distinct(s) && a <= j < |s|
    ensures var t := Swapped(s, j, |s| - 1)[..|s| - 1];
            First(t, |t|) == First(s, |s|) - {s[j]} && First(t, a) == First(s, a)
  {
    CutOff(s, j, |s|);
    FirstOfSlice(Swapped(s, j, |s| - 1), |s| - 1);
    hide Swapped, Distinct, First;
  }

  lemma TerminateActive<T>(r: Ring<T>, i: nat)
    requires Ok(r) && i < r.active
    ensures var t := Terminate(r, i);
            t.active <= |t.pipes| && ActiveSet(t) == ActiveSet(r) - {r.pipes[i]} && AllSet(t) == AllSet(r) - {r.pipes[i]}
  {
    var a, n := r.active - 1, |r.pipes|;
    var s := Swapped(r.pipes, i, a);
    var t := Terminate(r, i);
    assert t.active == a && t.pipes == Swapped(s, a, n - 1)[..n - 1];
    CutOff(r.pipes, i, r.active);
    EraseIs(s, a, a);
    hide Distinct, First, Swapped, Terminate;
  }

  lemma TerminatePassive<T>(r: Ring<T>, i: nat)
    requires Ok(r) && r.active <= i < |r.pipes|
    ensures var t := Terminate(r, i);
            t.active <= |t.pipes| && ActiveSet(t) == ActiveSet(r) - {r.pipes[i]} && AllSet(t) == AllSet(r) - {r.pipes[i]}
  {
    var n := |r.pipes|;
    var t := Terminate(r, i);
    assert t.active == r.active && t.pipes == Swapped(r.pipes, i, n - 1)[..n - 1];
    FirstIs(r.pipes, r.active);
    EraseIs(r.pipes, i, r.active);
    hide Distinct, First, Swapped, Terminate;
  }

  /** The pipe at position `i`, and no other, is gone. */
  lemma TerminateIs<T>(r: Ring<T>, i: nat)
    requires Ok(r) && i < |r.pipes|
    ensures var t := Terminate(r, i);
            t.active <= |t.pipes| && ActiveSet(t) == ActiveSet(r) - {r.pipes[i]} && AllSet(t) == AllSet(r) - {r.pipes[i]}
  {
    hide *;
    if i < r.active {
      TerminateActive(r, i);
    } else {
      OkFacts(r);
      TerminatePassive(r, i);
    }
  }
}
