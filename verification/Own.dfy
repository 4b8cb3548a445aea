/** The ownership object of `own.cpp`: every method updates its fields in place and is proved
    against the function of `OwnStep` with the same name. */
module Own {
  import opened Options
  import opened OwnStep
  import S = OwnStep

  class OwnT {
    const id: Id
    var owner: OwnT?
    var owned: set<Id>
    var terminating: bool
    var termAcks: int
    var sentSeqnum: nat
    var processedSeqnum: nat
    var destroyed: bool
    var sent: seq<Command>

    ghost function Abs(): Node
      reads this
    {
      Node(if owner == null then None else Some(owner.id), owned, terminating, termAcks, sentSeqnum, processedSeqnum, destroyed)
    }

    constructor (identity: Id)
      ensures id == identity && Abs() == S.Create() && sent == []
    {
      id, owner, owned := identity, null, {};
      terminating, termAcks, sentSeqnum, processedSeqnum, destroyed, sent := false, 0, 0, 0, false, [];
    }

    method SetOwner(owner_: OwnT)
      requires owner == null
      modifies this
      ensures Abs() == old(Abs()).(owner := Some(owner_.id)) && sent == old(sent)
    {
      owner := owner_;
    }

    method IncSeqnum()
      modifies this
      ensures Abs() == S.IncSeqnum(old(Abs())) && sent == old(sent) && owner == old(owner)
    {
      sentSeqnum := sentSeqnum + 1;
    }

    method CheckTermAcks()
      requires !destroyed && (S.Finished(Abs()) ==> owned == {})
      modifies this
      ensures Abs() == S.CheckTermAcks(old(Abs()))
      ensures sent == old(sent) + S.LastWords(old(Abs()), Abs())
    {
      if terminating && processedSeqnum == sentSeqnum && termAcks == 0 {
        assert owned == {};
        if owner != null {
          sent := sent + [SendTermAck(owner.id)];
        }
        destroyed := true;
      }
    }

    method ProcessSeqnum()
      requires !destroyed && (terminating ==> owned == {})
      modifies this
      ensures Abs() == S.ProcessSeqnum(old(Abs()))
      ensures sent == old(sent) + S.LastWords(old(Abs()), Abs())
    {
      processedSeqnum := processedSeqnum + 1;
      CheckTermAcks();
    }

    /** The child is plugged into its thread before the owner learns that it owns it. */
    method LaunchChild(object_: OwnT)
      requires object_ != this && object_.owner == null
      modifies this, object_
      ensures object_.Abs() == S.IncSeqnum(old(object_.Abs()).(owner := Some(id))) && object_.sent == old(object_.sent)
      ensures Abs() == S.IncSeqnum(old(Abs()))
      ensures sent == old(sent) + [SendPlug(object_.id), SendOwn(id, object_.id)]
    {
      object_.SetOwner(this);
      object_.IncSeqnum();
      sent := sent + [SendPlug(object_.id)];
      IncSeqnum();
      sent := sent + [SendOwn(id, object_.id)];
    }

    method AskChild(object_: Id)
      requires terminating || object_ in owned
      modifies this
      ensures Abs() == (if old(terminating) then S.ProcessOwn(old(Abs()), object_) else S.ProcessTermReq(old(Abs()), object_))
      ensures sent == old(sent) + [SendTerm(object_)]
    {
      if !terminating {
        owned := owned - {object_};
      }
      termAcks := termAcks + 1;
      sent := sent + [SendTerm(object_)];
    }

    method ProcessTermReq(object_: Id)
      modifies this
      ensures Abs() == S.ProcessTermReq(old(Abs()), object_)
      ensures sent == old(sent) + if !old(terminating) && object_ in old(owned) then [SendTerm(object_)] else []
    {
      if terminating { return; }
      if object_ !in owned { return; }
      AskChild(object_);
    }

    method ProcessOwn(object_: Id)
      modifies this
      ensures Abs() == S.ProcessOwn(old(Abs()), object_)
      ensures sent == old(sent) + if old(terminating) then [SendTerm(object_)] else []
    {
      if terminating {
        AskChild(object_);
        return;
      }
      owned := owned + {object_};
    }

    /** Every owned object is asked exactly once, in the order of the set. */
    method SendTerms(children: set<Id>) returns (asked: seq<Command>)
      ensures multiset(asked) == multiset(set c | c in children :: SendTerm(c)) && |asked| == |children|
    {
      asked := [];
      var rest := children;
      while rest != {}
        invariant rest <= children && |asked| + |rest| == |children|
        invariant multiset(asked) == multiset(set c | c in children - rest :: SendTerm(c))
        decreases rest
      {
        var c :| c in rest;
        var done := set d | d in children - rest :: SendTerm(d);
        asked := asked + [SendTerm(c)];
        rest := rest - {c};
        assert (set d | d in children - rest :: SendTerm(d)) == done + {SendTerm(c)};
      }
      assert children - rest == children;
    }

    method ProcessTerm()
      requires !terminating && !destroyed
      modifies this
      ensures Abs() == S.ProcessTerm(old(Abs()))
      ensures exists asked: seq<Command> ::
                multiset(asked) == multiset(set c | c in old(owned) :: SendTerm(c)) && |asked| == |old(owned)|
                && sent == old(sent) + asked + S.LastWords(old(Abs()), Abs())
    {
      var asked := SendTerms(owned);
      sent := sent + asked;
      termAcks := termAcks + |owned|;
      owned := {};
      terminating := true;
      CheckTermAcks();
    }

    method UnregisterTermAck()
      requires termAcks > 0 && !destroyed && (terminating ==> owned == {})
      modifies this
      ensures Abs() == S.UnregisterTermAck(old(Abs()))
      ensures sent == old(sent) + S.LastWords(old(Abs()), Abs())
    {
      termAcks := termAcks - 1;
      CheckTermAcks();
    }

    method Terminate()
      requires !destroyed
      modifies this
      ensures if !old(terminating) && owner == null then Abs() == S.ProcessTerm(old(Abs())) else Abs() == old(Abs())
      ensures !old(terminating) && owner != null ==> sent == old(sent) + [SendTermReq(owner.id, id)]
      ensures owner == old(owner)
    {
      if terminating { return; }
      if owner == null {
        ProcessTerm();
        return;
      }
      sent := sent + [SendTermReq(owner.id, id)];
    }
  }
}
