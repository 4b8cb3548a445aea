/** The encoder of `encoder.hpp`, filling its buffer in place. */
module Encoder {
  import opened Bytes
  import opened EncoderStep
  import S = EncoderStep

  /** memcpy to position `at` of an array. */
  method Copy(src: seq<Byte>, dst: array<Byte>, at: nat)
    requires at + |src| <= dst.Length
    modifies dst
    ensures forall i | 0 <= i < dst.Length :: dst[i] == if at <= i < at + |src| then src[i - at] else old(dst[i])
  {
    var n := 0;
    while n < |src|
      invariant n <= |src|
      invariant forall i | 0 <= i < dst.Length :: dst[i] == if at <= i < at + n then src[i - at] else old(dst[i])
    {
      dst[at + n] := src[n];
      n := n + 1;
    }
  }

  class EncoderT<T(!new)> {
    const machine: Machine<T>
    const buf: array<Byte>
    var rest: seq<Byte>
    var next: T
    var newMsgFlag: bool
    var inProgress: bool

    ghost function Abs(): Enc<T>
      reads this
    {
      Enc(rest, next, newMsgFlag, inProgress)
    }

    constructor (m: Machine<T>, start: T, bufsize: nat)
      ensures machine == m && fresh(buf) && buf.Length == bufsize && Abs() == Enc([], start, true, false)
    {
      machine, buf := m, new Byte[bufsize](i => 0);
      rest, next, newMsgFlag, inProgress := [], start, true, false;
    }

    method RunStep()
      requires inProgress
      modifies this
      ensures Abs() == S.Advance(machine, old(next))
    {
      var e := machine.step(next);
      rest, next, newMsgFlag := e.chunk, e.next, e.last;
    }

    /** `start` is the state of the derived encoder with the new message in progress. */
    method LoadMsg(start: T)
      requires !inProgress
      modifies this
      ensures Abs() == S.Advance(machine, start)
    {
      inProgress := true;
      next := start;
      RunStep();
    }

    ghost function Rank(): nat
      reads this
    {
      if newMsgFlag then 0 else machine.rank(next) + 1
    }

    /** One round of encode.  It is the last one if the message is released or a large chunk is returned without copying. */
    method Round(buffer: array<Byte>, pos: nat, size: nat, given: bool) returns (newPos: nat, done: bool, direct: seq<Byte>)
      requires Sound(machine) && inProgress && pos < size <= buffer.Length
      modifies this, buffer
      ensures pos <= newPos <= size && (done ==> newPos == pos && buffer[..pos] == old(buffer[..pos]))
      ensures var fill := S.Fill(machine, old(Abs()), old(buffer[..pos]), size, given);
              if done then fill == (Abs(), if inProgress then direct else buffer[..pos])
              else inProgress && fill == S.Fill(machine, Abs(), buffer[..newPos], size, given)
      ensures !done ==> size - newPos < size - pos || (newPos == pos && Rank() < old(Rank()))
    {
      ghost var out := buffer[..pos];
      S.FillUnfolded(machine, Abs(), out, size, given);
      hide S.Fill, Sound;
      newPos, done, direct := pos, false, [];
      if rest == [] {
        if newMsgFlag {
          inProgress := false;
          done := true;
          return;
        }
        RunStep();
      }
      if pos == 0 && !given && |rest| >= size {
        direct := rest;
        rest := [];
        done := true;
        return;
      }
      var n := Min(|rest|, size - pos);
      Copy(rest[..n], buffer, pos);
      assert buffer[..pos + n] == out + rest[..n];
      newPos := pos + n;
      rest := rest[n..];
    }

    /** `data` is the buffer of the caller, or null for the buffer of the encoder.  The result is the memory that
        the caller is given: the buffer, or without copying the rest of a large chunk. */
    method Encode(data: array?<Byte>, size: nat) returns (batch: seq<Byte>)
      requires Sound(machine) && (data != null ==> size <= data.Length)
      modifies this, buf, data
      ensures (Abs(), batch) == S.Encode(machine, old(Abs()), if data == null then buf.Length else size, data != null)
    {
      var buffer := if data == null then buf else data;
      var buffersize := if data == null then buf.Length else size;
      if !inProgress {
        return [];
      }
      ghost var goal := S.Fill(machine, Abs(), [], buffersize, data != null);
      var pos := 0;
      assert buffer[..0] == [];
      while pos < buffersize
        invariant pos <= buffersize && inProgress && S.Fill(machine, Abs(), buffer[..pos], buffersize, data != null) == goal
        decreases buffersize - pos, Rank()
      {
        hide S.Fill, Sound;
        var done;
        pos, done, batch := Round(buffer, pos, buffersize, data != null);
        if done && inProgress {
          return;
        }
        if done {
          break;
        }
      }
      batch := buffer[..pos];
    }
  }
}
