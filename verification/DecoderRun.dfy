/** How a stream is cut into batches does not show in the messages. */
module DecoderRun {
  import opened Bytes
  import opened DecoderStep

  /** A call on `a + b` does what a call on `a` and, if that needs more, a call on `b` do. */
  lemma {:induction false} DecodeSplits<S(!new), M>(m: Machine<S, M>, d: Dec<S>, a: seq<Byte>, b: seq<Byte>)
    requires Sound(m) && a != []
    ensures var (e, used, rc) := Decode(m, d, a);
            if rc == More then
              used == |a| && Decode(m, d, a + b) == (Decode(m, e, b).0, |a| + Decode(m, e, b).1, Decode(m, e, b).2)
            else Decode(m, d, a + b) == (e, used, rc)
    decreases |a|, if d.need == 0 then 1 else 0
  {
    DecodeFacts(m, d, a);
    var n := Min(d.need, |a|);
    SettleFacts(m, Take(d, a[..n]));
    var (e, rc) := Settle(m, Take(d, a[..n]));
    if d.need <= |a| {
      assert (a + b)[..n] == a[..n] && (a + b)[n..] == a[n..] + b;
      if rc == More {
        if a[n..] == [] {
          assert a[n..] + b == b;
        } else {
          DecodeSplits(m, e, a[n..], b);
        }
      }
    } else {
      ShortSplit(m, d, a, b);
    }
  }

  lemma ShortRead<S(!new), M>(m: Machine<S, M>, d: Dec<S>, a: seq<Byte>)
    requires Sound(m) && a != [] && d.need > |a|
    ensures Decode(m, d, a) == (Take(d, a), |a|, More)
  {
    assert a[..|a|] == a && a[|a|..] == [];
    SettleFacts(m, Take(d, a));
  }

  lemma Slices<S>(d: Dec<S>, a: seq<Byte>, b: seq<Byte>)
    requires d.need > |a|
    ensures var n := Min(d.need, |a + b|); var k := Min(d.need - |a|, |b|);
            && n == |a| + k && (a + b)[n..] == b[k..] && Take(d, a).need == d.need - |a|
            && Take(d, (a + b)[..n]) == Take(Take(d, a), b[..k])
  {
    var k := Min(d.need - |a|, |b|);
    assert (a + b)[..|a| + k] == a + b[..k];
    assert d.got + (a + b[..k]) == d.got + a + b[..k];
  }

  lemma ShortSplit<S(!new), M>(m: Machine<S, M>, d: Dec<S>, a: seq<Byte>, b: seq<Byte>)
    requires Sound(m) && a != [] && d.need > |a|
    ensures Decode(m, d, a) == (Take(d, a), |a|, More)
    ensures var e := Take(d, a); Decode(m, d, a + b) == (Decode(m, e, b).0, |a| + Decode(m, e, b).1, Decode(m, e, b).2)
  {
    hide Decode, Settle, Take, Sound, Min;
    ShortRead(m, d, a);
    Slices(d, a, b);
    if b == [] {
      assert a + b == a;
      NothingToDecode(m, Take(d, a));
    } else {
      DecodeUnfolded(m, d, a + b);
      DecodeUnfolded(m, Take(d, a), b);
    }
  }

  lemma NothingToDecode<S(!new), M>(m: Machine<S, M>, d: Dec<S>)
    requires Sound(m)
    ensures Decode(m, d, []) == (d, 0, More)
  {
  }

  lemma PrependTwice<S, M>(a: seq<M>, i: nat, b: seq<M>, j: nat, r: Driven<S, M>)
    ensures Prepend(a, i, Prepend(b, j, r)) == Prepend(a + b, i + j, r)
  {
    assert a + (b + r.msgs) == a + b + r.msgs;
  }

  /** What follows a stream that was driven to its end without error. */
  ghost function Continued<S(!new), M>(m: Machine<S, M>, r: Driven<S, M>, b: seq<Byte>): Driven<S, M>
    requires Sound(m)
  {
    if r.ok then Prepend(r.msgs, r.used, Drive(m, r.dec, b)) else r
  }

  /** Driving the decoder over `a + b` in one batch or in two. */
  lemma {:induction false} DriveSplits<S(!new), M>(m: Machine<S, M>, d: Dec<S>, a: seq<Byte>, b: seq<Byte>)
    requires Sound(m)
    ensures Drive(m, d, a + b) == Continued(m, Drive(m, d, a), b)
    decreases |a|, if d.need == 0 then m.rank(d.state) + 1 else 0
  {
    if a == [] {
      NothingSplits(m, d, b);
      assert a + b == b;
    } else {
      DecodeFacts(m, d, a);
      var (e, used, rc) := Decode(m, d, a);
      match rc
      case Error => ErrorSplits(m, d, a, b);
      case More => MoreSplits(m, d, a, b);
      case Ready(msg) =>
        DriveSplits(m, e, a[used..], b);
        ReadySplits(m, d, a, b);
        hide Drive, Decode;
        var r := Drive(m, e, a[used..]);
        PrependTwice([msg], used, r.msgs, r.used, Drive(m, r.dec, b));
    }
  }

  lemma NothingSplits<S(!new), M>(m: Machine<S, M>, d: Dec<S>, b: seq<Byte>)
    requires Sound(m)
    ensures Drive(m, d, []) == Driven(d, [], 0, true)
    ensures Drive(m, d, b) == Prepend([], 0, Drive(m, d, b))
  {
    var none: seq<M> := [];
    assert none + Drive(m, d, b).msgs == Drive(m, d, b).msgs;
  }

  lemma ErrorSplits<S(!new), M>(m: Machine<S, M>, d: Dec<S>, a: seq<Byte>, b: seq<Byte>)
    requires Sound(m) && a != [] && Decode(m, d, a).2 == Error
    ensures Drive(m, d, a) == Drive(m, d, a + b) && !Drive(m, d, a).ok
  {
    DecodeFacts(m, d, a);
    DecodeSplits(m, d, a, b);
    hide Decode;
  }

  lemma MoreSplits<S(!new), M>(m: Machine<S, M>, d: Dec<S>, a: seq<Byte>, b: seq<Byte>)
    requires Sound(m) && a != [] && Decode(m, d, a).2 == More
    ensures Drive(m, d, a) == Driven(Decode(m, d, a).0, [], |a|, true)
    ensures Drive(m, d, a + b) == Prepend([], |a|, Drive(m, Decode(m, d, a).0, b))
  {
    DecodeFacts(m, d, a);
    DecodeSplits(m, d, a, b);
    var e := Decode(m, d, a).0;
    var none: seq<M> := [];
    assert none + Drive(m, e, b).msgs == Drive(m, e, b).msgs;
    if b == [] {
      assert a + b == a;
    } else {
      DecodeFacts(m, e, b);
      var used := Decode(m, e, b).1;
      assert (a + b)[|a| + used..] == b[used..];
    }
  }

  /** A call that completed a message is followed by the same calls on what is left. */
  lemma ReadySplits<S(!new), M>(m: Machine<S, M>, d: Dec<S>, a: seq<Byte>, b: seq<Byte>)
    requires Sound(m) && a != [] && Decode(m, d, a).2.Ready?
    ensures var (e, used, rc) := Decode(m, d, a);
            && used <= |a|
            && Drive(m, d, a) == Prepend([rc.msg], used, Drive(m, e, a[used..]))
            && Drive(m, d, a + b) == Prepend([rc.msg], used, Drive(m, e, a[used..] + b))
  {
    DecodeFacts(m, d, a);
    DecodeSplits(m, d, a, b);
    hide Decode;
    var used := Decode(m, d, a).1;
    assert (a + b)[used..] == a[used..] + b;
  }

  function Concat(batches: seq<seq<Byte>>): seq<Byte> {
    if batches == [] then [] else batches[0] + Concat(batches[1..])
  }

  /** The batches one after the other, until an error. */
  ghost function DriveAll<S(!new), M>(m: Machine<S, M>, d: Dec<S>, batches: seq<seq<Byte>>): Driven<S, M>
    requires Sound(m)
    decreases |batches|
  {
    if batches == [] then Driven(d, [], 0, true)
    else
      var r := Drive(m, d, batches[0]);
      if r.ok then Prepend(r.msgs, r.used, DriveAll(m, r.dec, batches[1..])) else r
  }

  lemma {:induction false} BatchesAreOne<S(!new), M>(m: Machine<S, M>, d: Dec<S>, batches: seq<seq<Byte>>)
    requires Sound(m)
    ensures DriveAll(m, d, batches) == Drive(m, d, Concat(batches))
    decreases |batches|
  {
    if batches != [] {
      DriveSplits(m, d, batches[0], Concat(batches[1..]));
      BatchesAreOne(m, Drive(m, d, batches[0]).dec, batches[1..]);
    }
  }

  /** However a stream of bytes is cut, down to single bytes: the same messages come out, the same number of
      bytes is consumed, errors come at the same place, and the decoder ends in the same state. */
  lemma BatchingIsInvisible<S(!new), M>(m: Machine<S, M>, d: Dec<S>, batches: seq<seq<Byte>>, other: seq<seq<Byte>>)
    requires Sound(m) && Concat(batches) == Concat(other)
    ensures DriveAll(m, d, batches) == DriveAll(m, d, other)
  {
    BatchesAreOne(m, d, batches);
    BatchesAreOne(m, d, other);
  }

  lemma {:induction false} ErrorSettles<S(!new), M>(m: Machine<S, M>, d: Dec<S>)
    requires Sound(m) && Settle(m, d).1.Error?
    ensures var e := Settle(m, d).0; e.need == 0 && m.step(e.state, e.got).rc == Error
    decreases if d.need == 0 then m.rank(d.state) + 1 else 0
  {
    if d.need == 0 && m.step(d.state, d.got).rc.More? {
      var r := m.step(d.state, d.got);
      ErrorSettles(m, Dec(r.next, [], r.need));
    }
  }

  lemma {:induction false} ErrorStops<S(!new), M>(m: Machine<S, M>, d: Dec<S>, data: seq<Byte>)
    requires Sound(m) && Decode(m, d, data).2.Error?
    ensures var e := Decode(m, d, data).0; e.need == 0 && m.step(e.state, e.got).rc == Error
    decreases |data|, if d.need == 0 then 1 else 0
  {
    var n := Min(d.need, |data|);
    DecodeUnfolded(m, d, data);
    var (e, rc) := Settle(m, Take(d, data[..n]));
    if rc == More {
      ErrorStops(m, e, data[n..]);
    } else {
      ErrorSettles(m, Take(d, data[..n]));
    }
  }

  /** An error is final: the decoder stays where it failed, and every further call fails again and uses nothing. */
  lemma ErrorIsFinal<S(!new), M>(m: Machine<S, M>, d: Dec<S>, data: seq<Byte>, later: seq<Byte>)
    requires Sound(m) && Decode(m, d, data).2.Error? && later != []
    ensures var e := Decode(m, d, data).0; Decode(m, e, later) == (e, 0, Error)
  {
    ErrorStops(m, d, data);
    var e := Decode(m, d, data).0;
    hide Decode;
    assert later[..0] == [];
    TakeNothing(e);
    DecodeUnfolded(m, e, later);
  }
}
