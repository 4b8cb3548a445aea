/** Printing and parsing metadata. */
module MechanismRun {
  import opened Bytes
  import opened Options
  import opened Wire
  import opened MechanismStep

  lemma PrintIsRead(p: Property, rest: seq<Byte>)
    requires Readable(p)
    ensures HasProperty(Print(p) + rest) && FirstProperty(Print(p) + rest) == p && AfterFirst(Print(p) + rest) == rest
  {
    var data := Print(p) + rest;
    var n := |p.name|;
    assert data[0] == n;
    assert data[1..1 + n] == p.name;
    assert data[1 + n..5 + n] == PutUint32(|p.value|);
    Uint32RoundTrip(|p.value|);
    assert data[5 + n..5 + n + |p.value|] == p.value;
    assert data[5 + n + |p.value|..] == rest;
  }

  lemma ReadIsPrinted(data: seq<Byte>)
    requires HasProperty(data)
    ensures Readable(FirstProperty(data)) && data == Print(FirstProperty(data)) + AfterFirst(data)
  {
    var n: nat := data[0];
    Uint32Back(data[1 + n..5 + n]);
    assert data == [data[0]] + data[1..1 + n] + data[1 + n..5 + n] + data[5 + n..];
  }

  /** The peer after a list of properties was recorded. */
  function RecordAll(c: Config, peer: Peer, ps: seq<Property>): Peer
    decreases |ps|
  {
    if ps == [] then peer else RecordAll(c, Record(c, peer, ps[0]), ps[1..])
  }

  lemma {:induction false} ParsePrinted(c: Config, peer: Peer, ps: seq<Property>, tail: seq<Byte>)
    requires forall p | p in ps :: Readable(p)
    requires forall p | p in ps :: Check(c, p) == Ok
    ensures Parse(c, peer, PrintAll(ps) + tail) == Parse(c, RecordAll(c, peer, ps), tail)
    decreases |ps|
  {
    if ps == [] {
      assert PrintAll(ps) + tail == tail;
    } else {
      hide HasProperty, FirstProperty, AfterFirst, Check, Record, Print;
      PrintIsRead(ps[0], PrintAll(ps[1..]) + tail);
      assert PrintAll(ps) + tail == Print(ps[0]) + (PrintAll(ps[1..]) + tail);
      ParsePrinted(c, Record(c, peer, ps[0]), ps[1..], tail);
    }
  }

  /** The first value that is given for a name. */
  function FirstValue(ps: seq<Property>, name: seq<Byte>): Option<seq<Byte>> {
    if ps == [] then None else if ps[0].name == name then Some(ps[0].value) else FirstValue(ps[1..], name)
  }

  /** The last value that is given for a name. */
  function LastValue(ps: seq<Property>, name: seq<Byte>): Option<seq<Byte>> {
    if ps == [] then None
    else if LastValue(ps[1..], name).Some? then LastValue(ps[1..], name)
    else if ps[0].name == name then Some(ps[0].value) else None
  }

  lemma {:induction false} RecordedValues(c: Config, peer: Peer, ps: seq<Property>, name: seq<Byte>)
    ensures var q := RecordAll(c, peer, ps);
            && (name in q.properties <==> name in peer.properties || FirstValue(ps, name).Some?)
            && (name in peer.properties ==> q.properties[name] == peer.properties[name])
            && (name !in peer.properties && FirstValue(ps, name).Some? ==> q.properties[name] == FirstValue(ps, name).value)
            && q.identity == if c.recvIdentity && LastValue(ps, Ascii(IDENTITY)).Some? then LastValue(ps, Ascii(IDENTITY)).value else peer.identity
    decreases |ps|
  {
    if ps != [] {
      RecordedValues(c, Record(c, peer, ps[0]), ps[1..], name);
    }
  }

  /** For every list of printable properties with acceptable values, parsing what add_property printed succeeds
      and records, for every name that was not known before, the first value printed for it; the identity is the last. */
  lemma MetadataRoundTrip(c: Config, peer: Peer, ps: seq<Property>, name: seq<Byte>)
    requires forall p | p in ps :: Printable(p)
    requires forall p | p in ps :: Check(c, p) == Ok
    ensures forall p | p in ps :: Readable(p)
    ensures var (q, rc) := Parse(c, peer, PrintAll(ps));
            && rc == Ok
            && (name in q.properties <==> name in peer.properties || FirstValue(ps, name).Some?)
            && (name in peer.properties ==> q.properties[name] == peer.properties[name])
            && (name !in peer.properties && FirstValue(ps, name).Some? ==> q.properties[name] == FirstValue(ps, name).value)
            && q.identity == if c.recvIdentity && LastValue(ps, Ascii(IDENTITY)).Some? then LastValue(ps, Ascii(IDENTITY)).value else peer.identity
  {
    assert forall p | p in ps :: Readable(p) by {
      forall p | p in ps
        ensures Readable(p)
      {
        assert Printable(p);
      }
    }
    ParsePrinted(c, peer, ps, []);
    assert PrintAll(ps) + [] == PrintAll(ps);
    RecordedValues(c, peer, ps, name);
  }

  // ------------------------------------------------------------------------------------------
  // Which blocks are accepted
  // ------------------------------------------------------------------------------------------

  /** The complete properties of a block, and what follows them. */
  function Properties(data: seq<Byte>): seq<Property>
    decreases |data|
  {
    if HasProperty(data) then [FirstProperty(data)] + Properties(AfterFirst(data)) else []
  }

  function Tail(data: seq<Byte>): seq<Byte>
    decreases |data|
  {
    if HasProperty(data) then Tail(AfterFirst(data)) else data
  }

  lemma {:induction false} BlockIsSplit(data: seq<Byte>)
    ensures forall p | p in Properties(data) :: Readable(p)
    ensures data == PrintAll(Properties(data)) + Tail(data) && !HasProperty(Tail(data))
    decreases |data|
  {
    if HasProperty(data) {
      ReadIsPrinted(data);
      BlockIsSplit(AfterFirst(data));
      hide Print, HasProperty, FirstProperty, AfterFirst;
      var ps := Properties(data);
      assert ps == [FirstProperty(data)] + Properties(AfterFirst(data));
      assert ps[1..] == Properties(AfterFirst(data));
    }
  }

  /** A block that ends right after a name, or right after the length of a value that is missing. */
  predicate Dangling(tail: seq<Byte>) {
    |tail| > 1 && (var n: nat := tail[0]; |tail| == 1 + n || |tail| == 5 + n)
  }

  lemma TailIsQuiet(tail: seq<Byte>)
    requires !HasProperty(tail)
    ensures LeftOver(tail) == 0 <==> tail == [] || Dangling(tail)
  {
  }

  /** A block is accepted exactly if all its complete properties are acceptable and what follows them is nothing,
      a name without a value, or a name and the length of a missing value.  The last two are truncated blocks
      that the loop does not notice, because breaking off leaves no bytes. */
  lemma {:induction false} AcceptedBlocks(c: Config, peer: Peer, data: seq<Byte>)
    ensures Parse(c, peer, data).1 == Ok <==>
            (forall p | p in Properties(data) :: Check(c, p) == Ok) && (Tail(data) == [] || Dangling(Tail(data)))
    decreases |data|
  {
    if HasProperty(data) {
      hide Check, Dangling;
      assert Properties(data)[0] == FirstProperty(data) && FirstProperty(data) in Properties(data);
      assert forall p | p in Properties(data) :: p == FirstProperty(data) || p in Properties(AfterFirst(data));
      assert forall p | p in Properties(AfterFirst(data)) :: p in Properties(data);
      AcceptedBlocks(c, Record(c, peer, FirstProperty(data)), AfterFirst(data));
    } else {
      TailIsQuiet(data);
    }
  }

  /** A truncated block that is accepted: one name of one character, and nothing else. */
  lemma TruncatedBlockIsAccepted(c: Config, peer: Peer)
    ensures Parse(c, peer, [1, 65]) == (peer, Ok)
    ensures forall ps: seq<Property> | (forall p | p in ps :: Readable(p)) :: PrintAll(ps) != [1, 65]
  {
    forall ps: seq<Property> | (forall p | p in ps :: Readable(p))
      ensures PrintAll(ps) != [1, 65]
    {
      if ps != [] {
        assert |Print(ps[0])| >= 5;
      }
    }
  }

  /** Enough of a name to tell it from the others. */
  function Key(t: SocketType): (nat, char, char, char) {
    var s := TypeName(t); (|s|, s[0], s[1], s[2])
  }

  lemma NamesDiffer(a: SocketType, b: SocketType)
    ensures Ascii(TypeName(a)) == Ascii(TypeName(b)) <==> a == b
  {
    if Ascii(TypeName(a)) == Ascii(TypeName(b)) {
      var x, y := Ascii(TypeName(a)), Ascii(TypeName(b));
      assert |x| == |y| && x[0] == y[0] && x[1] == y[1] && x[2] == y[2];
      assert Key(a) == Key(b);
    }
  }

  lemma NameMeansMember(own: SocketType, b: SocketType)
    ensures CheckSocketType(own, Ascii(TypeName(b))) <==> b in Peers(own)
  {
    hide TypeName, Ascii, Peers;
    if t: SocketType :| t in Peers(own) && Ascii(TypeName(b)) == Ascii(TypeName(t)) {
      NamesDiffer(b, t);
    }
  }

  lemma MembersAreMutual(a: SocketType, b: SocketType)
    ensures b in Peers(a) <==> a in Peers(b)
  {
  }

  /** A socket of type `a` accepts the Socket-Type that `b` sends exactly if `b` accepts that of `a`. */
  lemma PeersAreMutual(a: SocketType, b: SocketType)
    ensures CheckSocketType(a, Ascii(TypeName(b))) <==> CheckSocketType(b, Ascii(TypeName(a)))
  {
    hide TypeName, Ascii, Peers, CheckSocketType;
    NameMeansMember(a, b);
    NameMeansMember(b, a);
    MembersAreMutual(a, b);
  }
}
