/** The ZMTP 2.0 frame codec of `v2_encoder.cpp` and `v2_decoder.cpp` as step machines, and its round trip
    through any batching on either side. */
module V2Codec {
  import opened Bytes
  import opened Wire
  import E = EncoderStep
  import ER = EncoderRun
  import D = DecoderStep
  import DR = DecoderRun

  datatype Message = Message(more: bool, command: bool, body: seq<Byte>)

  const MORE_FLAG: Byte := 1
  const LARGE_FLAG: Byte := 2
  const COMMAND_FLAG: Byte := 4

  function HasFlag(flags: Byte, flag: Byte): bool
    requires flag != 0
  {
    flags / flag % 2 == 1
  }

  function Flags(m: Message): Byte {
    (if m.more then MORE_FLAG else 0) + (if |m.body| > 255 then LARGE_FLAG else 0) + (if m.command then COMMAND_FLAG else 0)
  }

  /** A message that size_t can measure. */
  predicate Sendable(m: Message) {
    |m.body| < 0x1_0000_0000_0000_0000
  }

  function Size(m: Message): seq<Byte>
    requires Sendable(m)
  {
    if |m.body| > 255 then PutUint64(|m.body|) else [|m.body|]
  }

  // The encoder

  datatype EncState = MessageReady(m: Message) | SizeReady(m: Message)

  function EncStep(s: EncState): E.Emit<EncState> {
    match s
    case MessageReady(m) => E.Emit(if Sendable(m) then [Flags(m)] + Size(m) else [], SizeReady(m), false)
    case SizeReady(m) => E.Emit(m.body, MessageReady(m), true)
  }

  function Encoder(): E.Machine<EncState> {
    E.Machine(EncStep, (s: EncState) => if s.MessageReady? then 1 else 0)
  }

  // The decoder

  datatype DecState = FlagsReady | OneByteSizeReady(flags: Byte) | EightByteSizeReady(flags: Byte) | BodyReady(flags: Byte)

  /** `max` is maxmsgsize; a negative one is no limit. */
  function SizeStep(flags: Byte, size: nat, max: int): D.Reply<DecState, Message> {
    if max >= 0 && size > max then D.Reply(D.Error, FlagsReady, 1, false)
    else D.Reply(D.More, BodyReady(flags), size, true)
  }

  function DecStep(s: DecState, got: seq<Byte>, max: int): D.Reply<DecState, Message> {
    match s
    case FlagsReady =>
      var flags := if got == [] then 0 else got[0];
      if HasFlag(flags, LARGE_FLAG) then D.Reply(D.More, EightByteSizeReady(flags), 8, false)
      else D.Reply(D.More, OneByteSizeReady(flags), 1, false)
    case OneByteSizeReady(flags) => SizeStep(flags, if got == [] then 0 else got[0], max)
    case EightByteSizeReady(flags) => SizeStep(flags, if |got| == 8 then GetUint64(got) else 0, max)
    case BodyReady(flags) =>
      D.Reply(D.Ready(Message(HasFlag(flags, MORE_FLAG), HasFlag(flags, COMMAND_FLAG), got)), FlagsReady, 1, false)
  }

  function Decoder(max: int): D.Machine<DecState, Message> {
    D.Machine((s: DecState, got: seq<Byte>) => DecStep(s, got, max), (s: DecState) => if s.OneByteSizeReady? || s.EightByteSizeReady? then 1 else 0)
  }

  function Start(): D.Dec<DecState> {
    D.Dec(FlagsReady, [], 1)
  }

  lemma Sound(max: int)
    ensures E.Sound(Encoder()) && D.Sound(Decoder(max))
  {
  }

  // The bytes of a message

  function OnWire(m: Message): seq<Byte>
    requires Sendable(m)
  {
    [Flags(m)] + Size(m) + m.body
  }

  lemma StreamIsOnWire(m: Message)
    requires Sendable(m)
    ensures E.Sound(Encoder()) && E.Stream(Encoder(), MessageReady(m)) == OnWire(m)
  {
    Sound(0);
    assert E.Stream(Encoder(), SizeReady(m)) == m.body + [] == m.body;
  }

  lemma FlagsRoundTrip(m: Message)
    ensures HasFlag(Flags(m), MORE_FLAG) == m.more && HasFlag(Flags(m), COMMAND_FLAG) == m.command
    ensures HasFlag(Flags(m), LARGE_FLAG) == (|m.body| > 255)
  {
  }

  /** The frame in plain numbers: one byte of flags, then the size in one byte or, most significant first, in eight, then
      the body. */
  lemma FrameLayout(m: Message)
    requires Sendable(m)
    ensures var b, n := OnWire(m), if |m.body| <= 255 then 1 else 8;
            && |b| == 1 + n + |m.body| && b[1 + n..] == m.body && Value(b[1..1 + n]) == |m.body|
            && b[0] == (if m.more then 1 else 0) + (if |m.body| <= 255 then 0 else 2) + (if m.command then 4 else 0)
  {
    var b, n := OnWire(m), if |m.body| <= 255 then 1 else 8;
    assert b[1..1 + n] == Size(m);
    if |m.body| <= 255 {
      assert Size(m)[..0] == [];
    } else {
      MostSignificantFirst64(|m.body|);
    }
  }

  // The round trip

  /** A chunk that completes nothing. */
  lemma ReadChunk(m: D.Machine<DecState, Message>, d: D.Dec<DecState>, bytes: seq<Byte>)
    requires D.Sound(m) && d.got == [] && d.need == |bytes| > 0
    requires m.step(d.state, bytes).rc == D.More && m.step(d.state, bytes).need > 0
    ensures var r := m.step(d.state, bytes); D.Drive(m, d, bytes) == D.Driven(D.Dec(r.next, [], r.need), [], |bytes|, true)
  {
    D.DecodeInPlace(m, d, bytes);
    assert d.got + bytes == bytes;
  }

  /** The chunk that completes a message. */
  lemma ReadLast(m: D.Machine<DecState, Message>, d: D.Dec<DecState>, bytes: seq<Byte>, msg: Message)
    requires D.Sound(m) && d.got == [] && d.need == |bytes| > 0
    requires m.step(d.state, bytes).rc == D.Ready(msg)
    ensures var r := m.step(d.state, bytes); D.Drive(m, d, bytes) == D.Driven(D.Dec(r.next, [], r.need), [msg], |bytes|, true)
  {
    D.DecodeInPlace(m, d, bytes);
    assert d.got + bytes == bytes;
    assert bytes[|bytes|..] == [];
    DR.NothingSplits(m, D.Dec(m.step(d.state, bytes).next, [], m.step(d.state, bytes).need), []);
  }

  /** The size of an empty message completes it at once. */
  lemma ReadEmpty(m: D.Machine<DecState, Message>, d: D.Dec<DecState>, bytes: seq<Byte>, msg: Message)
    requires D.Sound(m) && d.got == [] && d.need == |bytes| > 0
    requires m.step(d.state, bytes).rc == D.More && m.step(d.state, bytes).need == 0
    requires m.step(m.step(d.state, bytes).next, []).rc == D.Ready(msg)
    ensures var r := m.step(m.step(d.state, bytes).next, []); D.Drive(m, d, bytes) == D.Driven(D.Dec(r.next, [], r.need), [msg], |bytes|, true)
  {
    var s := m.step(d.state, bytes);
    var r := m.step(s.next, []);
    D.DecodeInPlace(m, d, bytes);
    assert d.got + bytes == bytes;
    assert D.Settle(m, D.Dec(s.next, [], 0)) == (D.Dec(r.next, [], r.need), r.rc);
    assert bytes[|bytes|..] == [];
  }

  predicate Acceptable(m: Message, max: int) {
    Sendable(m) && (max < 0 || |m.body| <= max)
  }

  function SizeState(m: Message): DecState {
    if |m.body| > 255 then EightByteSizeReady(Flags(m)) else OneByteSizeReady(Flags(m))
  }

  lemma ReadFlags(m: Message, max: int)
    requires Sendable(m) && D.Sound(Decoder(max))
    ensures D.Drive(Decoder(max), Start(), [Flags(m)]) == D.Driven(D.Dec(SizeState(m), [], |Size(m)|), [], 1, true)
  {
    FlagsRoundTrip(m);
    hide HasFlag;
    ReadChunk(Decoder(max), Start(), [Flags(m)]);
  }

  lemma SizeReply(m: Message, max: int)
    requires Acceptable(m, max)
    ensures DecStep(SizeState(m), Size(m), max) == D.Reply(D.More, BodyReady(Flags(m)), |m.body|, true)
  {
    if |m.body| > 255 {
      Uint64RoundTrip(|m.body|);
    }
  }

  lemma BodyReply(m: Message, max: int)
    ensures DecStep(BodyReady(Flags(m)), m.body, max) == D.Reply(D.Ready(m), FlagsReady, 1, false)
  {
    FlagsRoundTrip(m);
  }

  lemma ReadSizeAndBody(m: Message, max: int)
    requires Acceptable(m, max) && D.Sound(Decoder(max))
    ensures D.Drive(Decoder(max), D.Dec(SizeState(m), [], |Size(m)|), Size(m) + m.body)
         == D.Driven(Start(), [m], |Size(m)| + |m.body|, true)
  {
    var d := D.Dec(SizeState(m), [], |Size(m)|);
    SizeReply(m, max);
    BodyReply(m, max);
    hide DecStep, HasFlag;
    if m.body == [] {
      ReadEmpty(Decoder(max), d, Size(m), m);
      assert Size(m) + m.body == Size(m);
    } else {
      ReadChunk(Decoder(max), d, Size(m));
      ReadLast(Decoder(max), D.Dec(BodyReady(Flags(m)), [], |m.body|), m.body, m);
      DR.DriveSplits(Decoder(max), d, Size(m), m.body);
    }
  }

  lemma ReadMessage(m: Message, max: int)
    requires Acceptable(m, max) && D.Sound(Decoder(max))
    ensures D.Drive(Decoder(max), Start(), OnWire(m)) == D.Driven(Start(), [m], |OnWire(m)|, true)
  {
    assert OnWire(m) == [Flags(m)] + (Size(m) + m.body);
    hide OnWire, Decoder, D.Drive, Flags, Size, SizeState, Acceptable;
    ReadFlags(m, max);
    ReadSizeAndBody(m, max);
    DR.DriveSplits(Decoder(max), Start(), [Flags(m)], Size(m) + m.body);
  }

  function AllOnWire(msgs: seq<Message>): seq<Byte>
    requires forall m | m in msgs :: Sendable(m)
  {
    if msgs == [] then [] else OnWire(msgs[0]) + AllOnWire(msgs[1..])
  }

  lemma {:induction false} ReadMessages(msgs: seq<Message>, max: int)
    requires (forall m | m in msgs :: Sendable(m)) && (forall m | m in msgs :: Acceptable(m, max)) && D.Sound(Decoder(max))
    ensures D.Drive(Decoder(max), Start(), AllOnWire(msgs)) == D.Driven(Start(), msgs, |AllOnWire(msgs)|, true)
  {
    if msgs == [] {
      DR.NothingSplits(Decoder(max), Start(), []);
    } else {
      ReadMessage(msgs[0], max);
      ReadMessages(msgs[1..], max);
      DR.DriveSplits(Decoder(max), Start(), OnWire(msgs[0]), AllOnWire(msgs[1..]));
      assert [msgs[0]] + msgs[1..] == msgs;
    }
  }

  /** What the encoder returns for the messages, each with its own sequence of calls. */
  ghost function Sent(msgs: seq<Message>, calls: seq<seq<ER.Call>>): seq<Byte>
    requires |msgs| == |calls| && E.Sound(Encoder())
  {
    if msgs == [] then []
    else ER.EncodeAll(Encoder(), E.Advance(Encoder(), MessageReady(msgs[0])), calls[0]).1 + Sent(msgs[1..], calls[1..])
  }

  /** The calls for every message go on until the encoder releases it. */
  ghost predicate AllReleased(msgs: seq<Message>, calls: seq<seq<ER.Call>>)
    requires |msgs| == |calls| && E.Sound(Encoder())
  {
    forall i | 0 <= i < |msgs| :: !ER.EncodeAll(Encoder(), E.Advance(Encoder(), MessageReady(msgs[i])), calls[i]).0.busy
  }

  lemma {:induction false} SentIsOnWire(msgs: seq<Message>, calls: seq<seq<ER.Call>>)
    requires |msgs| == |calls| && E.Sound(Encoder()) && AllReleased(msgs, calls) && forall m | m in msgs :: Sendable(m)
    ensures Sent(msgs, calls) == AllOnWire(msgs)
  {
    if msgs != [] {
      hide OnWire;
      StreamIsOnWire(msgs[0]);
      ER.BatchingIsInvisible(Encoder(), MessageReady(msgs[0]), calls[0], calls[0]);
      SentIsOnWire(msgs[1..], calls[1..]);
    }
  }

  /** Messages survive the wire: whatever buffers the encoder is called with, and however the bytes are cut on
      their way into the decoder, it delivers exactly the messages that were sent, and uses all bytes. */
  lemma MessagesSurviveBatching(msgs: seq<Message>, max: int, calls: seq<seq<ER.Call>>, batches: seq<seq<Byte>>)
    requires |msgs| == |calls| && E.Sound(Encoder()) && AllReleased(msgs, calls)
    requires forall m | m in msgs :: Acceptable(m, max)
    requires DR.Concat(batches) == Sent(msgs, calls)
    ensures D.Sound(Decoder(max))
    ensures DR.DriveAll(Decoder(max), Start(), batches) == D.Driven(Start(), msgs, |Sent(msgs, calls)|, true)
  {
    Sound(max);
    assert forall m | m in msgs :: Acceptable(m, max) && Sendable(m);
    SentIsOnWire(msgs, calls);
    ReadMessages(msgs, max);
    DR.BatchesAreOne(Decoder(max), Start(), batches);
  }

  // Messages over the limit

  /** A message over the limit is refused as soon as its size is known, and nothing comes out. */
  lemma ReadTooLarge(m: Message, max: int)
    requires Sendable(m) && !Acceptable(m, max) && D.Sound(Decoder(max))
    ensures var r := D.Drive(Decoder(max), Start(), OnWire(m)); !r.ok && r.msgs == [] && r.used == 1 + |Size(m)|
  {
    assert OnWire(m) == [Flags(m)] + (Size(m) + m.body);
    ReadFlags(m, max);
    SizeRefused(m, max);
    RefusedSize(m, max);
    var none: seq<Message> := [];
    assert none + none == none;
    hide OnWire, Decoder, D.Drive, Flags, Size, SizeState, Acceptable, DecStep;
    DR.DriveSplits(Decoder(max), Start(), [Flags(m)], Size(m) + m.body);
  }

  lemma SizeRefused(m: Message, max: int)
    requires Sendable(m) && !Acceptable(m, max)
    ensures DecStep(SizeState(m), Size(m), max).rc == D.Error
  {
    if |m.body| > 255 {
      Uint64RoundTrip(|m.body|);
    }
  }

  lemma RefusedSize(m: Message, max: int)
    requires Sendable(m) && D.Sound(Decoder(max)) && DecStep(SizeState(m), Size(m), max).rc == D.Error
    ensures var r := D.Drive(Decoder(max), D.Dec(SizeState(m), [], |Size(m)|), Size(m) + m.body);
            !r.ok && r.msgs == [] && r.used == |Size(m)|
  {
    var d, data := D.Dec(SizeState(m), [], |Size(m)|), Size(m) + m.body;
    assert data[..|Size(m)|] == Size(m) && [] + Size(m) == Size(m);
    D.DecodeUnfolded(Decoder(max), d, data);
    hide DecStep, Size, SizeState, D.Decode;
  }

  /** The messages in front of the first one over the limit. */
  function WithinLimit(msgs: seq<Message>, max: int): (k: nat)
    ensures k <= |msgs| && (forall i | 0 <= i < k :: Acceptable(msgs[i], max)) && (k < |msgs| ==> !Acceptable(msgs[k], max))
  {
    if msgs == [] || !Acceptable(msgs[0], max) then 0 else 1 + WithinLimit(msgs[1..], max)
  }

  lemma {:induction false} ReadWithinLimit(msgs: seq<Message>, max: int)
    requires (forall m | m in msgs :: Sendable(m)) && D.Sound(Decoder(max))
    ensures var r, k := D.Drive(Decoder(max), Start(), AllOnWire(msgs)), WithinLimit(msgs, max);
            r.msgs == msgs[..k] && (r.ok <==> k == |msgs|)
  {
    hide OnWire, Decoder, D.Drive, Acceptable, Start;
    if msgs == [] {
      DR.NothingSplits(Decoder(max), Start(), []);
    } else {
      var k := WithinLimit(msgs[1..], max);
      DR.DriveSplits(Decoder(max), Start(), OnWire(msgs[0]), AllOnWire(msgs[1..]));
      if Acceptable(msgs[0], max) {
        SendableIs(msgs[0], max);
        ReadMessage(msgs[0], max);
        ReadWithinLimit(msgs[1..], max);
        assert [msgs[0]] + msgs[1..][..k] == msgs[..k + 1];
      } else {
        ReadTooLarge(msgs[0], max);
      }
    }
  }

  lemma SendableIs(m: Message, max: int)
    requires Acceptable(m, max)
    ensures Sendable(m)
  {
  }

  /** With a limit the decoder delivers exactly the messages in front of the first one that is over it, however the bytes
      are cut; it reports an error if and only if there is one. */
  lemma LimitIsKept(msgs: seq<Message>, max: int, batches: seq<seq<Byte>>)
    requires (forall m | m in msgs :: Sendable(m)) && DR.Concat(batches) == AllOnWire(msgs)
    ensures D.Sound(Decoder(max))
    ensures var r := DR.DriveAll(Decoder(max), Start(), batches);
            && r.msgs == msgs[..WithinLimit(msgs, max)]
            && (r.ok <==> forall m | m in msgs :: max < 0 || |m.body| <= max)
  {
    Sound(max);
    ReadWithinLimit(msgs, max);
    DR.BatchesAreOne(Decoder(max), Start(), batches);
    var k := WithinLimit(msgs, max);
    if k < |msgs| {
      assert msgs[k] in msgs && !Acceptable(msgs[k], max);
    } else {
      assert forall m | m in msgs :: Acceptable(m, max);
    }
  }
}
