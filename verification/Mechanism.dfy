/** The metadata of `mechanism.cpp`: a buffer that is written and a cursor that reads it. */
module Mechanism {
  import opened Bytes
  import opened Options
  import opened Wire
  import opened Encoder
  import opened MechanismStep
  import S = MechanismStep

  /** add_property: the number of bytes written at `ptr`. */
  method AddProperty(buffer: array<Byte>, ptr: nat, p: Property) returns (written: nat)
    requires Printable(p) && ptr + 5 + |p.name| + |p.value| <= buffer.Length
    modifies buffer
    ensures written == |Print(p)| && buffer[ptr..ptr + written] == Print(p)
    ensures forall i | 0 <= i < buffer.Length && !(ptr <= i < ptr + written) :: buffer[i] == old(buffer[i])
  {
    var n := |p.name|;
    var at := ptr;
    buffer[at] := n;
    at := at + 1;
    Copy(p.name, buffer, at);
    at := at + n;
    Copy(PutUint32(|p.value|), buffer, at);
    at := at + 4;
    Copy(p.value, buffer, at);
    written := 1 + n + 4 + |p.value|;
    var printed := Print(p);
    assert forall i | 0 <= i < written :: buffer[ptr + i] == printed[i];
  }

  class MechanismT {
    const config: Config
    var identity: seq<Byte>
    var zapProperties: map<seq<Byte>, seq<Byte>>
    var zmtpProperties: map<seq<Byte>, seq<Byte>>

    ghost function Abs(zap: bool): Peer
      reads this
    {
      Peer(identity, if zap then zapProperties else zmtpProperties)
    }

    constructor (c: Config)
      ensures config == c && forall zap :: Abs(zap) == Peer([], map[])
    {
      config, identity, zapProperties, zmtpProperties := c, [], map[], map[];
    }

    method Insert(p: Property, zap: bool)
      modifies this
      ensures Abs(zap) == old(Abs(zap)).(properties :=
                if p.name in old(Abs(zap)).properties then old(Abs(zap)).properties else old(Abs(zap)).properties[p.name := p.value])
      ensures Abs(!zap) == old(Abs(!zap))
    {
      if zap {
        if p.name !in zapProperties {
          zapProperties := zapProperties[p.name := p.value];
        }
      } else if p.name !in zmtpProperties {
        zmtpProperties := zmtpProperties[p.name := p.value];
      }
    }

    /** One round of the loop: checks and records a property. */
    method Accept(p: Property, zap: bool) returns (rc: Rc)
      modifies this
      ensures rc == Check(config, p)
      ensures Abs(zap) == if rc == Ok then Record(config, old(Abs(zap)), p) else old(Abs(zap))
      ensures Abs(!zap).properties == old(Abs(!zap)).properties
    {
      if p.name == Ascii(IDENTITY) && config.recvIdentity {
        identity := p.value;
      } else if p.name == Ascii(SOCKET_TYPE) {
        if !CheckSocketType(config.own, p.value) {
          return Einval;
        }
      } else if !config.property(p.name, p.value) {
        return Refused;
      }
      rc := Ok;
      Insert(p, zap);
    }

    /** The reading part of one round of the loop: None where it breaks off. */
    static method ReadProperty(data: seq<Byte>, start: nat) returns (p: Option<Property>, ptr: nat, bytesLeft: nat)
      requires start + 1 < |data|
      ensures p.Some? <==> HasProperty(data[start..])
      ensures p == None ==> bytesLeft == LeftOver(data[start..])
      ensures p.Some? ==> p.value == FirstProperty(data[start..])
      ensures p.Some? ==> start < ptr <= |data| && data[ptr..] == AfterFirst(data[start..]) && ptr + bytesLeft == |data|
    {
      ptr, bytesLeft := start, |data| - start;
      var nameLength: nat := data[ptr];
      ptr, bytesLeft := ptr + 1, bytesLeft - 1;
      if bytesLeft < nameLength {
        return None, ptr, bytesLeft;
      }
      var name := data[ptr..ptr + nameLength];
      ptr, bytesLeft := ptr + nameLength, bytesLeft - nameLength;
      if bytesLeft < 4 {
        return None, ptr, bytesLeft;
      }
      Prefix(data, start, nameLength);
      var valueLength := GetUint32(data[ptr..ptr + 4]);
      ptr, bytesLeft := ptr + 4, bytesLeft - 4;
      if bytesLeft < valueLength {
        return None, ptr, bytesLeft;
      }
      var value := data[ptr..ptr + valueLength];
      ptr, bytesLeft := ptr + valueLength, bytesLeft - valueLength;
      Suffix(data, start, 5 + nameLength, valueLength);
      p := Some(Property(name, value));
    }

    /** `data` is the block from the pointer to the length; the map that is not selected does not change. */
    method ParseMetadata(data: seq<Byte>, zap: bool) returns (rc: Rc)
      modifies this
      ensures (Abs(zap), rc) == S.Parse(config, old(Abs(zap)), data)
      ensures Abs(!zap).properties == old(Abs(!zap)).properties
    {
      ghost var goal := S.Parse(config, Abs(zap), data);
      hide S.Parse, Check, Record, FirstProperty, AfterFirst, HasProperty;
      var ptr := 0;
      var bytesLeft := |data|;
      ghost var block := data;
      while bytesLeft > 1
        invariant ptr <= |data| && ptr + bytesLeft == |data| && block == data[ptr..]
        invariant Abs(!zap).properties == old(Abs(!zap)).properties && goal == S.Parse(config, Abs(zap), block)
        decreases bytesLeft
      {
        ParseUnfolded(config, Abs(zap), block);
        var p, next, left := ReadProperty(data, ptr);
        if p == None {
          bytesLeft := left;
          break;
        }
        rc := Accept(p.value, zap);
        if rc != Ok {
          return;
        }
        ptr, bytesLeft := next, left;
        block := data[ptr..];
      }
      Short(block);
      ParseUnfolded(config, Abs(zap), block);
      rc := if bytesLeft > 0 then Eproto else Ok;
    }
  }

  lemma Short(block: seq<Byte>)
    ensures |block| <= 1 ==> !HasProperty(block) && LeftOver(block) == |block|
  {
  }

  /** What Parse does with one block. */
  lemma ParseUnfolded(c: Config, peer: Peer, block: seq<Byte>)
    ensures !HasProperty(block) ==> S.Parse(c, peer, block) == (peer, if LeftOver(block) > 0 then Eproto else Ok)
    ensures HasProperty(block) ==>
              var p := FirstProperty(block);
              S.Parse(c, peer, block) == if Check(c, p) != Ok then (peer, Check(c, p)) else S.Parse(c, Record(c, peer, p), AfterFirst(block))
  {
  }

  /** The name and the length of the value, in the data and in the block at `at`. */
  lemma Prefix(data: seq<Byte>, at: nat, n: nat)
    requires at + 5 + n <= |data|
    ensures data[at + 1..at + 1 + n] == data[at..][1..1 + n] && data[at + 1 + n..at + 5 + n] == data[at..][1 + n..5 + n]
  {
  }

  lemma Suffix(data: seq<Byte>, at: nat, n: nat, v: nat)
    requires at + n + v <= |data|
    ensures data[at + n..at + n + v] == data[at..][n..n + v] && data[at + n + v..] == data[at..][n + v..]
  {
  }
}
