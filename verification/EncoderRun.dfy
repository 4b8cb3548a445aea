/** How a message is cut into batches does not show in the bytes. */
module EncoderRun {
  import opened Bytes
  import opened EncoderStep

  lemma PendingAfterStep<S(!new)>(m: Machine<S>, e: Enc<S>)
    requires Sound(m) && e.busy && e.rest == [] && !e.last
    ensures Pending(m, Advance(m, e.next)) == Pending(m, e)
  {
  }

  lemma PendingAfterCut<S(!new)>(m: Machine<S>, x: Enc<S>, n: nat)
    requires Sound(m) && x.busy && n <= |x.rest|
    ensures x.rest[..n] + Pending(m, x.(rest := x.rest[n..])) == Pending(m, x)
  {
    assert x.rest == x.rest[..n] + x.rest[n..];
    var tail := if x.last then [] else Stream(m, x.next);
    assert x.rest[..n] + (x.rest[n..] + tail) == x.rest + tail;
  }

  lemma {:induction false} FillConserves<S(!new)>(m: Machine<S>, e: Enc<S>, out: seq<Byte>, size: nat, given: bool)
    requires Sound(m) && e.busy && |out| <= size
    ensures var (f, all) := Fill(m, e, out, size, given);
            && all + Pending(m, f) == out + Pending(m, e) && out <= all
            && (given ==> |all| <= size) && (f.busy ==> |all| >= size)
    decreases size - |out|, if e.last then 0 else m.rank(e.next) + 1
  {
    hide Stream;
    if |out| < size && !(e.rest == [] && e.last) {
      var x := if e.rest == [] then Advance(m, e.next) else e;
      if e.rest == [] {
        PendingAfterStep(m, e);
      }
      hide Pending;
      if out == [] && !given && |x.rest| >= size {
        PendingAfterCut(m, x, |x.rest|);
        assert x.rest[..|x.rest|] == x.rest && x.rest[|x.rest|..] == [];
        assert out + Pending(m, e) == Pending(m, e);
      } else {
        var n := Min(|x.rest|, size - |out|);
        var y := x.(rest := x.rest[n..]);
        PendingAfterCut(m, x, n);
        assert out + x.rest[..n] + Pending(m, y) == out + (x.rest[..n] + Pending(m, y));
        FillConserves(m, y, out + x.rest[..n], size, given);
      }
    }
  }

  lemma EncodeConserves<S(!new)>(m: Machine<S>, e: Enc<S>, size: nat, given: bool)
    requires Sound(m)
    ensures var (f, out) := Encode(m, e, size, given);
            && out + Pending(m, f) == Pending(m, e) && (!e.busy ==> f == e && out == [])
            && (e.busy && f.busy && size > 0 ==> out != [])
  {
    if e.busy {
      FillConserves(m, e, [], size, given);
      assert [] + Pending(m, e) == Pending(m, e);
    }
  }

  lemma IdleHasNothingPending<S(!new)>(m: Machine<S>, e: Enc<S>)
    requires Sound(m) && !e.busy
    ensures Pending(m, e) == []
  {
  }

  /** A call of encode: the size of the buffer, and whether the caller supplied it. */
  datatype Call = Call(size: nat, given: bool)

  /** All bytes returned by a sequence of calls. */
  ghost function EncodeAll<S(!new)>(m: Machine<S>, e: Enc<S>, calls: seq<Call>): (Enc<S>, seq<Byte>)
    requires Sound(m)
    decreases |calls|
  {
    if calls == [] then (e, [])
    else
      var (f, out) := Encode(m, e, calls[0].size, calls[0].given);
      var (g, more) := EncodeAll(m, f, calls[1..]);
      (g, out + more)
  }

  /** Whatever the buffer sizes, and with or without zero-copy: the bytes returned are a prefix of the message,
      what is left of it is still to come, and the message is only released when nothing is left. */
  lemma {:induction false} BatchesArePrefixes<S(!new)>(m: Machine<S>, e: Enc<S>, calls: seq<Call>)
    requires Sound(m)
    ensures var (f, out) := EncodeAll(m, e, calls);
            out + Pending(m, f) == Pending(m, e) && (!f.busy ==> out == Pending(m, e))
    decreases |calls|
  {
    hide Encode, Pending, Sound;
    if calls != [] {
      EncodeConserves(m, e, calls[0].size, calls[0].given);
      var (f, out) := Encode(m, e, calls[0].size, calls[0].given);
      BatchesArePrefixes(m, f, calls[1..]);
      var (g, more) := EncodeAll(m, f, calls[1..]);
      assert out + (more + Pending(m, g)) == (out + more) + Pending(m, g);
    }
    var last := EncodeAll(m, e, calls);
    if !last.0.busy {
      IdleHasNothingPending(m, last.0);
      assert last.1 + [] == last.1;
    }
  }

  /** With buffers that are not empty, more calls than there are bytes finish the message. */
  lemma {:induction false} EnoughCallsFinish<S(!new)>(m: Machine<S>, e: Enc<S>, calls: seq<Call>)
    requires Sound(m) && forall c | c in calls :: c.size > 0
    requires |calls| > |Pending(m, e)|
    ensures var (f, out) := EncodeAll(m, e, calls); !f.busy && out == Pending(m, e)
    decreases |calls|
  {
    BatchesArePrefixes(m, e, calls);
    var (f, out) := Encode(m, e, calls[0].size, calls[0].given);
    assert calls[0] in calls;
    if e.busy {
      FillConserves(m, e, [], calls[0].size, calls[0].given);
    }
    if f.busy {
      assert out != [];
      EnoughCallsFinish(m, f, calls[1..]);
    } else {
      IdleStays(m, f, calls[1..]);
    }
  }

  lemma {:induction false} IdleStays<S(!new)>(m: Machine<S>, e: Enc<S>, calls: seq<Call>)
    requires Sound(m) && !e.busy
    ensures EncodeAll(m, e, calls) == (e, [])
    decreases |calls|
  {
    if calls != [] {
      IdleStays(m, e, calls[1..]);
      var none: seq<Byte> := [];
      assert none + none == none;
    }
  }

  /** Two ways of batching the same message that both run to the end return the same bytes: those of the message. */
  lemma BatchingIsInvisible<S(!new)>(m: Machine<S>, s: S, calls: seq<Call>, other: seq<Call>)
    requires Sound(m)
    requires !EncodeAll(m, Advance(m, s), calls).0.busy && !EncodeAll(m, Advance(m, s), other).0.busy
    ensures EncodeAll(m, Advance(m, s), calls).1 == EncodeAll(m, Advance(m, s), other).1 == Stream(m, s)
  {
    BatchesArePrefixes(m, Advance(m, s), calls);
    BatchesArePrefixes(m, Advance(m, s), other);
  }

  /** Without a buffer of the caller's, a chunk that would fill the buffer is handed out as it is, in one batch. */
  lemma LargeChunkIsHandedOut<S(!new)>(m: Machine<S>, e: Enc<S>, size: nat)
    requires Sound(m) && e.busy && 0 < size <= |e.rest|
    ensures Encode(m, e, size, false) == (e.(rest := []), e.rest)
    ensures Encode(m, e, size, true).1 == e.rest[..size]
  {
    FillUnfolded(m, e, [], size, false);
    FillUnfolded(m, e, [], size, true);
    assert [] + e.rest[..size] == e.rest[..size];
  }
}
