/** The decoder of `decoder.hpp`, reading into memory, without copying where the data is already in place. */
module Decoder {
  import opened Bytes
  import opened DecoderStep
  import opened Encoder
  import S = DecoderStep

  class DecoderT<T(!new), M> {
    const machine: Machine<T, M>
    var next: T
    /** The memory of the current chunk: it begins at `start`, and `readPos` is where the next byte goes. */
    var dest: array<Byte>
    var start: nat
    var readPos: nat
    var toRead: nat

    ghost predicate Valid()
      reads this
    {
      start <= readPos && readPos + toRead <= dest.Length
    }

    ghost function Abs(): Dec<T>
      requires Valid()
      reads this, dest
    {
      Dec(next, dest[start..readPos], toRead)
    }

    constructor (m: Machine<T, M>, first: T, need: nat)
      ensures Valid() && machine == m && fresh(dest) && Abs() == Dec(first, [], need)
    {
      machine, next := m, first;
      dest, start, readPos, toRead := new Byte[need](i => 0), 0, 0, need;
    }

    /** Large chunks are read straight to where they belong; everything else goes through a buffer. */
    method GetBuffer(capacity: nat) returns (data: array<Byte>, offset: nat, size: nat)
      requires Valid()
      ensures offset + size <= data.Length
      ensures if toRead >= capacity then data == dest && offset == readPos && size == toRead
              else fresh(data) && offset == 0 && size == capacity
    {
      if toRead >= capacity {
        return dest, readPos, toRead;
      }
      data := new Byte[capacity](i => 0);
      offset, size := 0, capacity;
    }

    /** The action of the derived decoder, with the position in the input that the data continues at. */
    method RunStep(data: array<Byte>, at: nat) returns (rc: Rc<M>)
      requires Valid() && toRead == 0 && at <= data.Length
      modifies this
      ensures Valid()
      ensures var r := machine.step(old(Abs()).state, old(Abs()).got);
              rc == r.rc && Abs() == if r.rc.Error? then old(Abs()) else Dec(r.next, [], r.need)
      ensures (dest == data && readPos == at) || fresh(dest) || (rc.Error? && unchanged(this))
    {
      var r := machine.step(next, dest[start..readPos]);
      rc := r.rc;
      if rc.Error? {
        return;
      }
      next, toRead := r.next, r.need;
      if r.inPlace && at + r.need <= data.Length {
        dest, start, readPos := data, at, at;
      } else {
        dest, start, readPos := new Byte[r.need](i => 0), 0, 0;
      }
    }

    /** The steps that need no further bytes. */
    method RunSteps(data: array<Byte>, at: nat) returns (rc: Rc<M>)
      requires Valid() && at <= data.Length && Sound(machine)
      modifies this
      ensures Valid() && (Abs(), rc) == S.Settle(machine, old(Abs()))
      ensures unchanged(this) || (dest == data && readPos == at) || fresh(dest)
    {
      rc := More;
      while toRead == 0
        invariant Valid() && rc == More && S.Settle(machine, Abs()) == S.Settle(machine, old(Abs()))
        invariant unchanged(this) || (dest == data && readPos == at) || fresh(dest)
        decreases if toRead == 0 then machine.rank(next) + 1 else 0
      {
        rc := RunStep(data, at);
        if rc != More {
          return;
        }
      }
    }

    /** Takes `n` bytes of the input, copying them unless they are where they belong. */
    method Read(data: array<Byte>, at: nat, n: nat)
      requires Valid() && at + n <= data.Length && n <= toRead && (dest == data ==> readPos == at)
      modifies this, dest
      ensures Valid() && dest == old(dest) && readPos == old(readPos) + n && data[..] == old(data[..])
      ensures Abs() == S.Take(old(Abs()), data[at..at + n])
    {
      ghost var got := dest[start..readPos];
      if dest != data || readPos != at {
        Copy(data[at..at + n], dest, readPos);
        assert dest[start..readPos] == got;
      }
      assert dest[start..readPos + n] == got + data[at..at + n];
      readPos := readPos + n;
      toRead := toRead - n;
    }

    /** One round of the loop of decode, at position `at` of the input `bytes`. */
    method Round(data: array<Byte>, offset: nat, at: nat, size: nat, ghost bytes: seq<Byte>) returns (n: nat, rc: Rc<M>)
      requires Valid() && Sound(machine) && at < size == |bytes| && offset + size <= data.Length
      requires (dest == data ==> readPos == offset + at) && data[offset..offset + size] == bytes
      modifies this, dest
      ensures Valid() && data[..] == old(data[..]) && at <= n <= size && (n > at || old(toRead) == 0)
      ensures (dest == data ==> readPos == offset + n || rc.Error?) && (dest == old(dest) || fresh(dest) || dest == data)
      ensures S.Decode(machine, old(Abs()), bytes[at..]) ==
              if rc != More then (Abs(), n - at, rc) else S.Later(n - at, S.Decode(machine, Abs(), bytes[n..]))
      ensures rc == More ==> toRead > 0
    {
      ghost var rest := bytes[at..];
      var k := Min(toRead, size - at);
      n := at + k;
      S.DecodeUnfolded(machine, Abs(), rest);
      SubSlice(data[..], offset, size, at, k);
      assert rest[k..] == bytes[n..];
      hide S.Decode, S.Settle, S.Take, Sound;
      Read(data, offset + at, k);
      rc := RunSteps(data, offset + n);
    }

    /** Decodes `size` bytes of `data` from `offset` on.  If they were read to where they belong, they are not more
        than the chunk is missing; otherwise they do not overlap it. */
    method Decode(data: array<Byte>, offset: nat, size: nat) returns (used: nat, rc: Rc<M>)
      requires Valid() && Sound(machine) && offset + size <= data.Length
      requires dest == data ==> readPos == offset && size <= toRead
      modifies this, dest, data
      ensures data[..] == old(data[..])
      ensures Valid()
      ensures if size == 0 && old(data == dest && readPos == offset) then used == 0 && (Abs(), rc) == S.Settle(machine, old(Abs()))
              else (Abs(), used, rc) == S.Decode(machine, old(Abs()), old(data[offset..offset + size]))
    {
      if data == dest && readPos == offset {
        if size > 0 {
          S.DecodeInPlace(machine, Abs(), data[offset..offset + size]);
        } else {
          S.TakeNothing(Abs());
          assert data[offset..offset] == [];
        }
        hide S.Decode, S.Settle, S.Take, Sound;
        Read(data, offset, size);
        used := size;
        rc := RunSteps(data, offset + used);
      } else if size == 0 {
        assert data[offset..offset] == [];
        NothingLeft(Abs());
        used, rc := 0, More;
      } else {
        used, rc := Rounds(data, offset, size);
      }
    }

    method Rounds(data: array<Byte>, offset: nat, size: nat) returns (used: nat, rc: Rc<M>)
      requires Valid() && Sound(machine) && offset + size <= data.Length && dest != data
      modifies this, dest, data
      ensures data[..] == old(data[..])
      ensures Valid() && (Abs(), used, rc) == S.Decode(machine, old(Abs()), old(data[offset..offset + size]))
    {
      hide *;
      ghost var bytes := data[offset..offset + size];
      ghost var goal := S.Decode(machine, Abs(), bytes);
      used, rc := 0, More;
      LaterZero(goal);
      assert bytes[0..] == bytes;
      while used < size
        invariant used <= size && Valid() && rc == More && (dest == old(dest) || fresh(dest) || dest == data)
        invariant (dest == data ==> readPos == offset + used) && data[..] == old(data[..])
        invariant goal == S.Later(used, S.Decode(machine, Abs(), bytes[used..]))
        decreases size - used, if toRead == 0 then 1 else 0
      {
        ghost var before := used;
        used, rc := Round(data, offset, used, size, bytes);
        if rc != More {
          LaterIs(before, (Abs(), used - before, rc));
          return;
        }
        LaterTwice(before, used - before, S.Decode(machine, Abs(), bytes[used..]));
      }
      assert bytes[used..] == [];
      NothingLeft(Abs());
      LaterIs(used, (Abs(), 0, More));
    }

    static lemma LaterZero(r: (Dec<T>, nat, Rc<M>))
      ensures S.Later(0, r) == r
    {
    }

    static lemma LaterIs(used: nat, r: (Dec<T>, nat, Rc<M>))
      ensures S.Later(used, r) == (r.0, used + r.1, r.2)
    {
    }

    static lemma LaterTwice(i: nat, j: nat, r: (Dec<T>, nat, Rc<M>))
      ensures S.Later(i, S.Later(j, r)) == S.Later(i + j, r)
    {
    }

    lemma SubSlice(data: seq<Byte>, offset: nat, size: nat, at: nat, k: nat)
      requires at + k <= size && offset + size <= |data|
      ensures data[offset + at..offset + at + k] == data[offset..offset + size][at..][..k]
    {
    }

    lemma NothingLeft(d: Dec<T>)
      requires Sound(machine)
      ensures S.Decode(machine, d, []) == (d, 0, More)
    {
    }
  }
}
