/** The metadata of `mechanism.cpp`, on values: printing properties and parsing a block of them. */
module MechanismStep {
  import opened Bytes
  import opened Options
  import opened Wire

  datatype SocketType =
    | Pair | Pub | Sub | Req | Rep | Dealer | Router | Pull | Push | Xpub | Xsub | Stream
    | Server | Client | Radio | Dish | Gather | Scatter | Dgram

  function TypeName(t: SocketType): string {
    match t
    case Pair => "PAIR" case Pub => "PUB" case Sub => "SUB" case Req => "REQ" case Rep => "REP"
    case Dealer => "DEALER" case Router => "ROUTER" case Pull => "PULL" case Push => "PUSH"
    case Xpub => "XPUB" case Xsub => "XSUB" case Stream => "STREAM" case Server => "SERVER" case Client => "CLIENT"
    case Radio => "RADIO" case Dish => "DISH" case Gather => "GATHER" case Scatter => "SCATTER" case Dgram => "DGRAM"
  }

  function Ascii(s: string): seq<Byte> {
    seq(|s|, i requires 0 <= i < |s| => s[i] as int % 256)
  }

  /** The peers that a socket of type `own` talks to. */
  function Peers(own: SocketType): set<SocketType> {
    match own
    case Req => {Rep, Router}
    case Rep => {Req, Dealer}
    case Dealer => {Rep, Dealer, Router}
    case Router => {Req, Dealer, Router}
    case Push => {Pull}
    case Pull => {Push}
    case Pub => {Sub, Xsub}
    case Sub => {Pub, Xpub}
    case Xpub => {Sub, Xsub}
    case Xsub => {Pub, Xpub}
    case Pair => {Pair}
    case Server => {Client}
    case Client => {Server}
    case Radio => {Dish}
    case Dish => {Radio}
    case Gather => {Scatter}
    case Scatter => {Gather}
    case Dgram => {Dgram}
    case Stream => {}
  }

  predicate CheckSocketType(own: SocketType, name: seq<Byte>) {
    exists t | t in Peers(own) :: name == Ascii(TypeName(t))
  }

  datatype Property = Property(name: seq<Byte>, value: seq<Byte>)

  /** What add_property asserts of its arguments. */
  predicate Printable(p: Property) {
    |p.name| <= 255 && |p.value| <= 0x7FFF_FFFF
  }

  /** The parser takes any 32-bit length. */
  predicate Readable(p: Property) {
    |p.name| <= 255 && |p.value| < 0x1_0000_0000
  }

  function Print(p: Property): seq<Byte>
    requires Readable(p)
  {
    [|p.name|] + p.name + PutUint32(|p.value|) + p.value
  }

  function PrintAll(ps: seq<Property>): seq<Byte>
    requires forall p | p in ps :: Readable(p)
  {
    if ps == [] then [] else Print(ps[0]) + PrintAll(ps[1..])
  }

  /** `property` is the check of a derived mechanism. */
  datatype Config = Config(own: SocketType, recvIdentity: bool, property: (seq<Byte>, seq<Byte>) -> bool)

  datatype Peer = Peer(identity: seq<Byte>, properties: map<seq<Byte>, seq<Byte>>)

  datatype Rc = Ok | Einval | Eproto | Refused

  const IDENTITY: string := "Identity"
  const SOCKET_TYPE: string := "Socket-Type"

  /** The result of checking one property: Ok, or the error that it stops parsing with. */
  function Check(c: Config, p: Property): Rc {
    if p.name == Ascii(IDENTITY) && c.recvIdentity then Ok
    else if p.name == Ascii(SOCKET_TYPE) then (if CheckSocketType(c.own, p.value) then Ok else Einval)
    else if c.property(p.name, p.value) then Ok else Refused
  }

  /** Recording a property: inserting into the map does not replace an earlier value. */
  function Record(c: Config, peer: Peer, p: Property): Peer {
    Peer(if p.name == Ascii(IDENTITY) && c.recvIdentity then p.value else peer.identity,
         if p.name in peer.properties then peer.properties else peer.properties[p.name := p.value])
  }

  /** A complete property at the beginning of the data. */
  predicate HasProperty(data: seq<Byte>) {
    |data| > 1 && (var n: nat := data[0]; |data| >= 5 + n && |data| >= 5 + n + GetUint32(data[1 + n..5 + n]))
  }

  function FirstProperty(data: seq<Byte>): Property
    requires HasProperty(data)
  {
    var n: nat := data[0];
    Property(data[1..1 + n], data[5 + n..5 + n + GetUint32(data[1 + n..5 + n])])
  }

  function AfterFirst(data: seq<Byte>): seq<Byte>
    requires HasProperty(data)
  {
    var n: nat := data[0];
    data[5 + n + GetUint32(data[1 + n..5 + n])..]
  }

  /** How many bytes the loop has not consumed when it breaks off. */
  function LeftOver(data: seq<Byte>): nat
    requires !HasProperty(data)
  {
    if |data| <= 1 then |data|
    else
      var n: nat := data[0];
      if |data| - 1 < n then |data| - 1
      else if |data| - 1 - n < 4 then |data| - 1 - n
      else |data| - 5 - n
  }

  function Parse(c: Config, peer: Peer, data: seq<Byte>): (Peer, Rc)
    decreases |data|
  {
    if !HasProperty(data) then (peer, if LeftOver(data) > 0 then Eproto else Ok)
    else
      var p := FirstProperty(data);
      if Check(c, p) != Ok then (peer, Check(c, p)) else Parse(c, Record(c, peer, p), AfterFirst(data))
  }
}
