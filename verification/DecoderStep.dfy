/** The batching of `decoder.hpp` on values, over any step machine.

    A derived decoder is a machine: it asks for a number of bytes, and when it has them says whether a
    message is complete and how many bytes it needs next. */
module DecoderStep {
  import opened Bytes

  datatype Rc<M> = More | Ready(msg: M) | Error

  /** `inPlace` asks to leave the next chunk where it is in the input buffer. */
  datatype Reply<S, M> = Reply(rc: Rc<M>, next: S, need: nat, inPlace: bool)

  /** `rank` bounds the number of steps that can be taken without reading anything. */
  datatype Machine<!S, M> = Machine(step: (S, seq<Byte>) -> Reply<S, M>, rank: S -> nat)

  ghost predicate Sound<S(!new), M>(m: Machine<S, M>) {
    forall s, c :: m.step(s, c).need == 0 ==> m.rank(m.step(s, c).next) < m.rank(s)
  }

  /** `got` is what was read of the current chunk, `need` how much is missing. */
  datatype Dec<S> = Dec(state: S, got: seq<Byte>, need: nat)

  function Min(a: nat, b: nat): nat {
    if a < b then a else b
  }

  /** Steps are taken until the machine needs bytes, completes a message or fails. */
  ghost function Settle<S(!new), M>(m: Machine<S, M>, d: Dec<S>): (Dec<S>, Rc<M>)
    requires Sound(m)
    decreases if d.need == 0 then m.rank(d.state) + 1 else 0
  {
    if d.need > 0 then (d, More)
    else
      var r := m.step(d.state, d.got);
      if r.rc.Error? then (d, Error)
      else
        var e := Dec(r.next, [], r.need);
        if r.rc.More? then Settle(m, e) else (e, r.rc)
  }

  lemma {:induction false} SettleFacts<S(!new), M>(m: Machine<S, M>, d: Dec<S>)
    requires Sound(m)
    ensures var (e, rc) := Settle(m, d);
            && (rc == More ==> e.need > 0)
            && (d.need > 0 ==> (e, rc) == (d, More))
            && (rc.Ready? && e.need == 0 ==> m.rank(e.state) < m.rank(d.state))
    decreases if d.need == 0 then m.rank(d.state) + 1 else 0
  {
    if d.need == 0 {
      var r := m.step(d.state, d.got);
      if r.rc.More? {
        SettleFacts(m, Dec(r.next, [], r.need));
      }
    }
  }

  function Take<S>(d: Dec<S>, bytes: seq<Byte>): Dec<S>
    requires |bytes| <= d.need
  {
    Dec(d.state, d.got + bytes, d.need - |bytes|)
  }

  lemma TakeNothing<S>(d: Dec<S>)
    ensures Take(d, []) == d
  {
    assert d.got + [] == d.got;
  }

  function Later<S, M>(used: nat, r: (Dec<S>, nat, Rc<M>)): (Dec<S>, nat, Rc<M>) {
    (r.0, used + r.1, r.2)
  }

  /** One call of decode: the decoder afterwards, the number of bytes used, and the result. */
  ghost function Decode<S(!new), M>(m: Machine<S, M>, d: Dec<S>, data: seq<Byte>): (Dec<S>, nat, Rc<M>)
    requires Sound(m)
    decreases |data|, if d.need == 0 then 1 else 0
  {
    if data == [] then (d, 0, More)
    else
      var n := Min(d.need, |data|);
      SettleFacts(m, Take(d, data[..n]));
      var (e, rc) := Settle(m, Take(d, data[..n]));
      if rc != More then (e, n, rc)
      else Later(n, Decode(m, e, data[n..]))
  }

  lemma {:induction false} DecodeFacts<S(!new), M>(m: Machine<S, M>, d: Dec<S>, data: seq<Byte>)
    requires Sound(m)
    ensures var (e, used, rc) := Decode(m, d, data);
            && used <= |data| && (rc == More ==> used == |data| && (data != [] ==> e.need > 0))
            && (rc.Ready? && used == 0 ==> d.need == 0 && (e.need == 0 ==> m.rank(e.state) < m.rank(d.state)))
    decreases |data|, if d.need == 0 then 1 else 0
  {
    if data != [] {
      var n := Min(d.need, |data|);
      SettleFacts(m, Take(d, data[..n]));
      var (e, rc) := Settle(m, Take(d, data[..n]));
      if rc == More {
        DecodeFacts(m, e, data[n..]);
      }
    }
  }

  /** One round of the loop of decode. */
  lemma DecodeUnfolded<S(!new), M>(m: Machine<S, M>, d: Dec<S>, data: seq<Byte>)
    requires Sound(m) && data != []
    ensures var n := Min(d.need, |data|); var (e, rc) := Settle(m, Take(d, data[..n]));
            && (rc == More ==> e.need > 0)
            && Decode(m, d, data) == if rc != More then (e, n, rc) else Later(n, Decode(m, e, data[n..]))
  {
    SettleFacts(m, Take(d, data[..Min(d.need, |data|)]));
  }

  /** All of the data belongs to the current chunk. */
  lemma DecodeInPlace<S(!new), M>(m: Machine<S, M>, d: Dec<S>, data: seq<Byte>)
    requires Sound(m) && data != [] && |data| <= d.need
    ensures var (e, rc) := Settle(m, Take(d, data)); Decode(m, d, data) == (e, |data|, rc)
  {
    assert data[..|data|] == data && data[|data|..] == [];
    DecodeUnfolded(m, d, data);
  }

  /** What came of a stream: the decoder afterwards, the messages, the number of bytes used, and whether there was no error. */
  datatype Driven<S, M> = Driven(dec: Dec<S>, msgs: seq<M>, used: nat, ok: bool)

  /** The loop of the caller: messages come out until the data is used up or an error stops it. */
  ghost function Drive<S(!new), M>(m: Machine<S, M>, d: Dec<S>, data: seq<Byte>): Driven<S, M>
    requires Sound(m)
    decreases |data|, if d.need == 0 then m.rank(d.state) + 1 else 0
  {
    if data == [] then Driven(d, [], 0, true)
    else
      DecodeFacts(m, d, data);
      var (e, used, rc) := Decode(m, d, data);
      match rc
      case More => Driven(e, [], used, true)
      case Error => Driven(e, [], used, false)
      case Ready(msg) => Prepend([msg], used, Drive(m, e, data[used..]))
  }

  /** `r` happened after `msgs` came out of `used` bytes. */
  function Prepend<S, M>(msgs: seq<M>, used: nat, r: Driven<S, M>): Driven<S, M> {
    Driven(r.dec, msgs + r.msgs, used + r.used, r.ok)
  }
}
