/** Which Socket-Type a peer may announce, name by name. */
module MechanismTypes {
  import opened Bytes
  import opened Options
  import opened Wire
  import opened MechanismStep
  import opened MechanismRun

  predicate OneOf(name: seq<Byte>, names: seq<string>) {
    exists i :: 0 <= i < |names| && name == Ascii(names[i])
  }

  /** The names that a socket accepts from its peer. */
  function AcceptedNames(own: SocketType): seq<string> {
    match own
    case Req => ["REP", "ROUTER"]
    case Rep => ["REQ", "DEALER"]
    case Dealer => ["REP", "DEALER", "ROUTER"]
    case Router => ["REQ", "DEALER", "ROUTER"]
    case Push => ["PULL"]
    case Pull => ["PUSH"]
    case Pub => ["SUB", "XSUB"]
    case Sub => ["PUB", "XPUB"]
    case Xpub => ["SUB", "XSUB"]
    case Xsub => ["PUB", "XPUB"]
    case Pair => ["PAIR"]
    case Server => ["CLIENT"]
    case Client => ["SERVER"]
    case Radio => ["DISH"]
    case Dish => ["RADIO"]
    case Gather => ["SCATTER"]
    case Scatter => ["GATHER"]
    case Dgram => ["DGRAM"]
    case Stream => []
  }

  lemma OneOfOne(name: seq<Byte>, a: string)
    ensures OneOf(name, [a]) <==> name == Ascii(a)
  {
    assert [a][0] == a;
  }

  lemma OneOfTwo(name: seq<Byte>, a: string, b: string)
    ensures OneOf(name, [a, b]) <==> name == Ascii(a) || name == Ascii(b)
  {
    assert [a, b][0] == a && [a, b][1] == b;
  }

  lemma OneOfThree(name: seq<Byte>, a: string, b: string, c: string)
    ensures OneOf(name, [a, b, c]) <==> name == Ascii(a) || name == Ascii(b) || name == Ascii(c)
  {
    assert [a, b, c][0] == a && [a, b, c][1] == b && [a, b, c][2] == c;
  }

  /** Pairs of set members and names. */
  lemma PeersOfOne(own: SocketType, name: seq<Byte>, a: SocketType)
    requires Peers(own) == {a}
    ensures CheckSocketType(own, name) <==> name == Ascii(TypeName(a))
  {
    hide TypeName, Ascii;
    assert a in Peers(own);
  }

  lemma PeersOfTwo(own: SocketType, name: seq<Byte>, a: SocketType, b: SocketType)
    requires Peers(own) == {a, b}
    ensures CheckSocketType(own, name) <==> name == Ascii(TypeName(a)) || name == Ascii(TypeName(b))
  {
    hide TypeName, Ascii;
    assert a in Peers(own) && b in Peers(own);
  }

  lemma PeersOfThree(own: SocketType, name: seq<Byte>, a: SocketType, b: SocketType, c: SocketType)
    requires Peers(own) == {a, b, c}
    ensures CheckSocketType(own, name) <==> name == Ascii(TypeName(a)) || name == Ascii(TypeName(b)) || name == Ascii(TypeName(c))
  {
    hide TypeName, Ascii;
    assert a in Peers(own) && b in Peers(own) && c in Peers(own);
  }

  /** check_socket_type accepts exactly the names of the list. */
  lemma AcceptsExactly(own: SocketType, name: seq<Byte>)
    ensures CheckSocketType(own, name) <==> OneOf(name, AcceptedNames(own))
  {
    hide Ascii, OneOf, CheckSocketType;
    match own {
      case Req => PeersOfTwo(own, name, Rep, Router); OneOfTwo(name, "REP", "ROUTER");
      case Rep => PeersOfTwo(own, name, Req, Dealer); OneOfTwo(name, "REQ", "DEALER");
      case Dealer => PeersOfThree(own, name, Rep, Dealer, Router); OneOfThree(name, "REP", "DEALER", "ROUTER");
      case Router => PeersOfThree(own, name, Req, Dealer, Router); OneOfThree(name, "REQ", "DEALER", "ROUTER");
      case Push => PeersOfOne(own, name, Pull); OneOfOne(name, "PULL");
      case Pull => PeersOfOne(own, name, Push); OneOfOne(name, "PUSH");
      case Pub => PeersOfTwo(own, name, Sub, Xsub); OneOfTwo(name, "SUB", "XSUB");
      case Sub => PeersOfTwo(own, name, Pub, Xpub); OneOfTwo(name, "PUB", "XPUB");
      case Xpub => PeersOfTwo(own, name, Sub, Xsub); OneOfTwo(name, "SUB", "XSUB");
      case Xsub => PeersOfTwo(own, name, Pub, Xpub); OneOfTwo(name, "PUB", "XPUB");
      case Pair => PeersOfOne(own, name, Pair); OneOfOne(name, "PAIR");
      case Server => PeersOfOne(own, name, Client); OneOfOne(name, "CLIENT");
      case Client => PeersOfOne(own, name, Server); OneOfOne(name, "SERVER");
      case Radio => PeersOfOne(own, name, Dish); OneOfOne(name, "DISH");
      case Dish => PeersOfOne(own, name, Radio); OneOfOne(name, "RADIO");
      case Gather => PeersOfOne(own, name, Scatter); OneOfOne(name, "SCATTER");
      case Scatter => PeersOfOne(own, name, Gather); OneOfOne(name, "GATHER");
      case Dgram => PeersOfOne(own, name, Dgram); OneOfOne(name, "DGRAM");
      case Stream => NothingAccepted(name);
    }
  }

  lemma NothingAccepted(name: seq<Byte>)
    ensures !CheckSocketType(Stream, name) && !OneOf(name, [])
  {
  }

  lemma OnePropertyBlock(c: Config, peer: Peer, p: Property)
    requires Readable(p)
    ensures Parse(c, peer, Print(p)) == if Check(c, p) == Ok then (Record(c, peer, p), Ok) else (peer, Check(c, p))
  {
    PrintIsRead(p, []);
    assert Print(p) + [] == Print(p);
    hide Print, HasProperty, Check, Record;
    assert Parse(c, Record(c, peer, p), []) == (Record(c, peer, p), Ok) by { NothingToParse(c, Record(c, peer, p)); }
  }

  lemma NothingToParse(c: Config, peer: Peer)
    ensures Parse(c, peer, []) == (peer, Ok)
  {
  }

  /** A block that announces a socket type is accepted, and the type recorded, exactly for the names of the list;
      for every other name parse_metadata answers EINVAL and records nothing. */
  lemma SocketTypeBlock(c: Config, peer: Peer, name: seq<Byte>)
    requires |name| < 0x1_0000_0000
    ensures Readable(Property(Ascii("Socket-Type"), name))
    ensures var (q, rc) := Parse(c, peer, Print(Property(Ascii("Socket-Type"), name)));
            if OneOf(name, AcceptedNames(c.own))
            then rc == Ok && q.identity == peer.identity && Ascii("Socket-Type") in q.properties
                 && (Ascii("Socket-Type") !in peer.properties ==> q.properties == peer.properties[Ascii("Socket-Type") := name])
            else rc == Einval && q == peer
  {
    var p := Property(Ascii("Socket-Type"), name);
    OnePropertyBlock(c, peer, p);
    AcceptsExactly(c.own, name);
    assert |Ascii("Socket-Type")| == 11 && |Ascii("Identity")| == 8;
    hide CheckSocketType, OneOf, AcceptedNames, Print, Parse;
  }

  /** A block with an identity sets it if the options ask for it, without asking the derived mechanism. */
  lemma IdentityBlock(c: Config, peer: Peer, identity: seq<Byte>)
    requires |identity| < 0x1_0000_0000 && c.recvIdentity
    ensures Readable(Property(Ascii("Identity"), identity))
    ensures var (q, rc) := Parse(c, peer, Print(Property(Ascii("Identity"), identity))); rc == Ok && q.identity == identity
  {
    OnePropertyBlock(c, peer, Property(Ascii("Identity"), identity));
    hide Print, Parse;
  }

  /** Any other property is the derived mechanism's to accept; what it refuses stops the parsing and is not recorded. */
  lemma OtherBlock(c: Config, peer: Peer, p: Property)
    requires Readable(p) && p.name != Ascii("Socket-Type") && (p.name != Ascii("Identity") || !c.recvIdentity)
    ensures var (q, rc) := Parse(c, peer, Print(p));
            if c.property(p.name, p.value)
            then rc == Ok && q.identity == peer.identity && p.name in q.properties
                 && (p.name !in peer.properties ==> q.properties == peer.properties[p.name := p.value])
            else rc == Refused && q == peer
  {
    OnePropertyBlock(c, peer, p);
    hide Print, Parse, CheckSocketType;
  }
}
