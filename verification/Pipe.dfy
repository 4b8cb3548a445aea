/** The pipe object of `pipe.cpp`: it updates its fields and its two queues in place, and every
    method is proved against the function of `PipeStep` with the same name. */
module Pipe {
  import opened Options
  import opened Ypipe
  import opened PipeStep
  import S = PipeStep

  ghost predicate Unfinished(fs: seq<Frame>) {
    forall i | 0 <= i < |fs| :: fs[i].Frame? && fs[i].more
  }

  /** pipe_t.  Sent commands are appended to `sent`; `delete` sets `freed` and drops the pointer. */
  class PipeT {
    var state: State
    var delay: bool
    var inActive: bool
    var outActive: bool
    var hwm: int
    var lwm: int
    var msgsRead: nat
    var msgsWritten: int
    var peersMsgsRead: nat
    var inpipe: YPipe<Frame>
    var outpipe: YPipe?<Frame>
    var freed: bool
    var sent: seq<Command>
    ghost var got: seq<Frame>
    ghost var written: seq<Frame>
    ghost var open: seq<Frame>
    ghost var closed: nat

    /** Queue frames that can be taken back belong to an unfinished message. */
    ghost predicate Valid()
      reads this, inpipe, outpipe
    {
      && inpipe.Valid()
      && (outpipe != null ==> outpipe.Valid() && outpipe != inpipe && Unfinished(outpipe.Abs().part))
      && (state == Active ==> outpipe != null)
    }

    ghost function Abs(): Local
      reads this, inpipe, outpipe
      requires Valid()
    {
      Local(Endpoint(state, delay, inActive, outActive, hwm, lwm, msgsRead, msgsWritten, peersMsgsRead,
                     inpipe.addr, if outpipe == null then None else Some(outpipe.addr), freed,
                     sent, got, written, open, closed),
            if freed then Fresh() else inpipe.Abs(),
            if outpipe == null then Fresh() else outpipe.Abs())
    }

    constructor (inp: YPipe<Frame>, outp: YPipe<Frame>, inhwm: int, outhwm: int)
      requires inp.Valid() && outp.Valid() && inp != outp && inp.Abs() == Fresh() && outp.Abs() == Fresh()
      ensures Valid() && inpipe == inp && outpipe == outp
      ensures Abs() == Local(S.Create(inp.addr, outp.addr, inhwm, outhwm), Fresh(), Fresh())
    {
      inpipe, outpipe, inActive, outActive := inp, outp, true, true;
      hwm, lwm := outhwm, S.ComputeLwm(inhwm);
      msgsRead, msgsWritten, peersMsgsRead := 0, 0, 0;
      state, delay, freed, sent := Active, true, false, [];
      got, written, open, closed := [], [], [], 0;
    }

    /** outpipe = NULL; send_pipe_term_ack (peer) */
    method AckAndDropOut()
      requires Valid() && state != Active
      modifies this`outpipe, this`sent
      ensures Valid() && outpipe == null
      ensures Abs() == S.AckAndDropOut(old(Abs()))
    {
      hide YPipe.Abs, YPipe.Valid;
      outpipe := null;
      sent := sent + [PipeTermAck];
    }

    method RequestTerm()
      requires Valid()
      modifies this`state, this`sent
      ensures Valid() && state == TermReqSent1
      ensures Abs() == S.SetState(S.Send(old(Abs()), PipeTerm), TermReqSent1)
    {
      hide YPipe.Abs, YPipe.Valid;
      sent := sent + [PipeTerm];
      state := TermReqSent1;
    }

    method ProcessDelimiter()
      requires Valid() && !freed && (state == Active || state == WaitingForDelimiter)
      modifies this
      ensures Valid() && inpipe == old(inpipe)
      ensures Abs() == S.ProcessDelimiter(old(Abs()))
    {
      hide YPipe.Abs, YPipe.Valid;
      if state == Active {
        state := DelimiterReceived;
      } else {
        AckAndDropOut();
        state := TermAckSent;
      }
    }

    method CheckRead() returns (ok: bool)
      requires Valid() && !freed
      modifies this, inpipe
      ensures Valid() && inpipe == old(inpipe)
      ensures (Abs(), ok) == S.CheckRead(old(Abs()))
    {
      hide YPipe.Abs, YPipe.Valid;
      if !inActive { return false; }
      if state != Active && state != WaitingForDelimiter { return false; }
      var found := inpipe.CheckRead();
      if !found {
        inActive := false;
        return false;
      }
      var head := inpipe.Front();
      if head.Delimiter? {
        var item := inpipe.Read();
        got := got + [head];
        ProcessDelimiter();
        return false;
      }
      ok := true;
    }

    /** The part of pipe_t::read after a frame that is neither credential nor delimiter came out. */
    method CountRead(msg: Frame)
      requires Valid() && !freed && msg.Frame?
      modifies this
      ensures Valid() && inpipe == old(inpipe)
      ensures Abs() == S.CountRead(old(Abs()), msg)
    {
      hide YPipe.Abs, YPipe.Valid;
      if !msg.more && !msg.identity {
        msgsRead := msgsRead + 1;
      }
      if lwm > 0 && msgsRead % lwm == 0 {
        sent := sent + [ActivateWrite(msgsRead)];
      }
    }

    method Take() returns (item: Option<Frame>)
      requires Valid() && !freed
      modifies this, inpipe
      ensures Valid() && !freed && inpipe == old(inpipe)
      ensures item.Some? <==> old(Abs()).inq.ready != []
      ensures item.Some? ==> item.value == old(Abs()).inq.ready[0] && Abs() == S.Take(old(Abs()))
      ensures item.None? ==> Abs() == S.Starve(old(Abs()))
    {
      hide YPipe.Abs, YPipe.Valid;
      item := inpipe.Read();
      if item.None? {
        inActive := false;
      } else {
        got := got + [item.value];
      }
    }

    method Read() returns (msg: Option<Frame>)
      requires Valid() && !freed
      modifies this, inpipe
      ensures Valid() && inpipe == old(inpipe)
      ensures (Abs(), msg) == S.Read(old(Abs()))
    {
      hide YPipe.Abs, YPipe.Valid;
      if !inActive { return None; }
      if state != Active && state != WaitingForDelimiter { return None; }
      msg := Take();
      while msg.Some? && msg.value.Frame? && msg.value.credential
        invariant Valid() && !freed && inpipe == old(inpipe)
        invariant state == Active || state == WaitingForDelimiter
        invariant S.Read(old(Abs())) ==
                  if msg == None then (Abs(), None)
                  else if msg.value == Delimiter then (S.ProcessDelimiter(Abs()), None)
                  else if msg.value.credential then S.ReadFrames(Abs())
                  else (S.CountRead(Abs(), msg.value), msg)
        decreases |Abs().inq.ready|, if msg.Some? then 1 else 0
      {
        msg := Take();
      }
      if msg.None? { return; }
      if msg.value.Delimiter? {
        ProcessDelimiter();
        return None;
      }
      CountRead(msg.value);
    }

    method CheckHwm() returns (ok: bool)
      requires Valid()
      ensures ok == S.CheckHwm(Abs().e)
      ensures 0 <= msgsWritten - peersMsgsRead < TWO_64 ==> (ok <==> hwm <= 0 || msgsWritten - peersMsgsRead < hwm)
    {
      hide YPipe.Abs, YPipe.Valid;
      var full := hwm > 0 && (msgsWritten - peersMsgsRead) % TWO_64 >= hwm;
      ok := !full;
    }

    method CheckWrite() returns (ok: bool)
      requires Valid()
      modifies this
      ensures Valid() && inpipe == old(inpipe) && outpipe == old(outpipe)
      ensures (Abs(), ok) == S.CheckWrite(old(Abs()))
    {
      hide YPipe.Abs, YPipe.Valid;
      if !outActive || state != Active { return false; }
      var room := CheckHwm();
      if !room {
        outActive := false;
        return false;
      }
      ok := true;
    }

    method Write(msg: Frame) returns (ok: bool)
      requires Valid() && msg.Frame?
      modifies this, outpipe
      ensures Valid() && inpipe == old(inpipe) && outpipe == old(outpipe)
      ensures (Abs(), ok) == S.Write(old(Abs()), msg)
    {
      hide YPipe.Abs, YPipe.Valid;
      var room := CheckWrite();
      if !room { return false; }
      outpipe.Write(msg, msg.more);
      if !msg.more && !msg.identity {
        msgsWritten := msgsWritten + 1;
      }
      if msg.more {
        open := open + [msg];
      } else {
        written, open := written + open + [msg], [];
      }
      ok := true;
    }

    method Rollback()
      requires Valid()
      modifies this, outpipe
      ensures Valid() && inpipe == old(inpipe) && outpipe == old(outpipe)
      ensures Abs() == S.Rollback(old(Abs()))
    {
      hide YPipe.Abs, YPipe.Valid;
      if outpipe != null {
        open := [];
        while true
          invariant Valid() && inpipe == old(inpipe) && outpipe == old(outpipe)
          invariant S.Rollback(Abs()) == S.Rollback(old(Abs())) && open == []
          decreases |outpipe.Abs().part|
        {
          var item := outpipe.Unwrite();
          if item.None? {
            return;
          }
          assert item.value.more;
        }
      }
    }

    method Flush()
      requires Valid()
      modifies this, outpipe
      ensures Valid() && inpipe == old(inpipe) && outpipe == old(outpipe)
      ensures Abs() == S.Flush(old(Abs()))
    {
      hide YPipe.Abs, YPipe.Valid;
      if state == TermAckSent { return; }
      if outpipe != null {
        var ok := outpipe.Flush();
        if !ok {
          sent := sent + [ActivateRead];
        }
      }
    }

    /** The tail of pipe_t::terminate. */
    method CloseOut()
      requires Valid()
      modifies this, outpipe
      ensures Valid() && inpipe == old(inpipe)
      ensures Abs() == S.CloseOut(old(Abs()))
    {
      hide YPipe.Abs, YPipe.Valid;
      outActive := false;
      if outpipe != null {
        Rollback();
        outpipe.Write(Delimiter, false);
        closed := closed + 1;
        Flush();
      }
    }

    method StartTerminate(delay_: bool)
      requires Valid() && (state == Active || state == DelimiterReceived || state == WaitingForDelimiter)
      modifies this
      ensures Valid() && inpipe == old(inpipe) && outpipe in {null, old(outpipe)}
      ensures Abs() == S.StartTerminate(old(Abs()), delay_)
    {
      hide YPipe.Abs, YPipe.Valid;
      delay := delay_;
      if state == Active {
        RequestTerm();
      } else if state == WaitingForDelimiter && !delay {
        AckAndDropOut();
        state := TermAckSent;
      } else if state == WaitingForDelimiter {
      } else if state == DelimiterReceived {
        RequestTerm();
      }
    }

    method Terminate(delay_: bool)
      requires Valid()
      modifies this, outpipe
      ensures Valid() && inpipe == old(inpipe)
      ensures Abs() == S.Terminate(old(Abs()), delay_)
    {
      hide YPipe.Abs, YPipe.Valid;
      if state == TermReqSent1 || state == TermReqSent2 || state == TermAckSent {
        delay := delay_;
        return;
      }
      StartTerminate(delay_);
      CloseOut();
    }

    method ProcessActivateRead()
      requires Valid()
      modifies this
      ensures Valid() && inpipe == old(inpipe) && outpipe == old(outpipe)
      ensures Abs() == S.ProcessActivateRead(old(Abs()))
    {
      hide YPipe.Abs, YPipe.Valid;
      if !inActive && (state == Active || state == WaitingForDelimiter) {
        inActive := true;
      }
    }

    method ProcessActivateWrite(msgsRead_: nat)
      requires Valid()
      modifies this
      ensures Valid() && inpipe == old(inpipe) && outpipe == old(outpipe)
      ensures Abs() == S.ProcessActivateWrite(old(Abs()), msgsRead_)
    {
      hide YPipe.Abs, YPipe.Valid;
      peersMsgsRead := msgsRead_;
      if !outActive && state == Active {
        outActive := true;
      }
    }

    method ProcessPipeTerm()
      requires Valid() && S.TermExpected(Abs().e)
      modifies this
      ensures Valid() && inpipe == old(inpipe)
      ensures Abs() == S.ProcessPipeTerm(old(Abs()))
    {
      hide YPipe.Abs, YPipe.Valid;
      if state == Active {
        if delay {
          state := WaitingForDelimiter;
        } else {
          state := TermAckSent;
          AckAndDropOut();
        }
      } else if state == DelimiterReceived {
        state := TermAckSent;
        AckAndDropOut();
      } else if state == TermReqSent1 {
        state := TermReqSent2;
        AckAndDropOut();
      }
    }

    /** Unread messages are closed one by one before the inpipe and the object itself go. */
    method ProcessPipeTermAck()
      requires Valid() && !freed && S.AckExpected(Abs().e)
      modifies this, inpipe
      ensures Valid() && freed
      ensures Abs() == S.ProcessPipeTermAck(old(Abs()))
    {
      hide YPipe.Abs, YPipe.Valid;
      if state == TermReqSent1 {
        AckAndDropOut();
      }
      label acked:
      while true
        invariant Valid() && inpipe == old(inpipe) && outpipe == old@acked(outpipe)
        invariant Abs().e == old@acked(Abs()).e && Abs().outq == old@acked(Abs()).outq
        decreases |inpipe.Abs().ready|
      {
        var item := inpipe.Read();
        if item.None? {
          break;
        }
      }
      freed := true;
    }

    /** Empties a queue that both ends have given up; `ends` counts the frames that end a message. */
    static method Drain(pipe: YPipe<Frame>) returns (ends: nat)
      requires pipe.Valid()
      modifies pipe
      ensures pipe.Valid() && pipe.Abs().ready == [] && pipe.Abs().part == old(pipe.Abs()).part
      ensures ends == S.CountEnds(old(pipe.Abs()).Flush().ready)
    {
      hide YPipe.Abs, YPipe.Valid;
      var awake := pipe.Flush();
      ghost var drained := pipe.Abs().ready;
      ghost var seen := [];
      ends := 0;
      while true
        invariant pipe.Valid() && drained == seen + pipe.Abs().ready && ends == S.CountEnds(seen)
        invariant pipe.Abs().part == old(pipe.Abs()).part
        decreases |pipe.Abs().ready|
      {
        ghost var before := pipe.Abs().ready;
        var item := pipe.Read();
        if item.None? {
          break;
        }
        ghost var seen' := seen + [item.value];
        assert drained == seen' + pipe.Abs().ready by {
          assert before == [before[0]] + before[1..];
        }
        assert seen'[..|seen|] == seen;
        seen := seen';
        if item.value.Delimiter? || !item.value.more {
          ends := ends + 1;
        }
      }
      assert drained == seen;
    }

    method PlugOut(pipe_: YPipe<Frame>, ends: nat)
      requires Valid() && pipe_.Valid() && pipe_ != inpipe && pipe_.Abs().part == []
      modifies this
      ensures Valid() && inpipe == old(inpipe) && outpipe == pipe_
      ensures Abs() == S.PlugOut(old(Abs()), ends, pipe_.addr, pipe_.Abs())
    {
      hide YPipe.Abs, YPipe.Valid;
      ghost var was, inq, outq := Abs(), inpipe.Abs(), pipe_.Abs();
      msgsWritten := msgsWritten - ends;
      outpipe := pipe_;
      outActive := true;
      written, open, closed := [], [], 0;
      assert pipe_.Valid() && pipe_.Abs().part == [] && inpipe.Valid();
      assert Valid();
      assert inpipe.Abs() == inq && pipe_.Abs() == outq;
      assert Abs() == S.PlugOut(was, ends, pipe_.addr, outq);
    }

    method ProcessHiccup(pipe_: YPipe<Frame>)
      requires Valid() && outpipe != null && pipe_.Valid() && pipe_ != inpipe && pipe_ != outpipe
      requires pipe_.Abs().part == []
      modifies this, outpipe
      ensures Valid() && inpipe == old(inpipe) && outpipe == pipe_
      ensures Abs() == S.ProcessHiccup(old(Abs()), pipe_.addr, pipe_.Abs())
    {
      hide YPipe.Abs, YPipe.Valid;
      var ends := Drain(outpipe);
      assert outpipe.Valid() && inpipe.Valid() && pipe_.Valid() && pipe_.Abs() == old(pipe_.Abs());
      assert Valid();
      assert Abs().e == old(Abs()).e && Abs().inq == old(Abs()).inq;
      PlugOut(pipe_, ends);
    }

    method Hiccup(address: nat)
      requires Valid() && !freed
      modifies this
      ensures Valid() && outpipe == old(outpipe)
      ensures Abs() == S.HiccupIn(old(Abs()), address)
      ensures inpipe != old(inpipe) ==> fresh(inpipe)
    {
      if state != Active {
        return;
      }
      inpipe := new YPipe(address);
      inActive := true;
      sent := sent + [Command.Hiccup(inpipe.addr)];
      got := [];
    }
  }
}
