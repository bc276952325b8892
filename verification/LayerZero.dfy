/** LayerZero V2 packets, decoded on the source and on the destination chain. */
module LayerZero {
  import opened Basics
  import opened Messages

  type byte = x: int | 0 <= x < 256

  const PROTOCOL_NAME := "layerzero_v2"

  const PACKET_MIN: nat := 113

  const ENDPOINT_TO_CHAIN: map<nat, nat> := map[
    30101 := 1, 30102 := 56, 30106 := 43114, 30109 := 137, 30110 := 42161, 30111 := 10,
    30112 := 250, 30184 := 8453, 30183 := 59144, 30181 := 5000, 30214 := 534352]

  function BigEndian(bytes: seq<byte>): nat {
    if bytes == [] then 0 else BigEndian(bytes[..|bytes| - 1]) * 256 + bytes[|bytes| - 1]
  }

  function Pow256(n: nat): nat {
    if n == 0 then 1 else Pow256(n - 1) * 256
  }

  lemma {:induction false} BigEndianBound(bytes: seq<byte>)
    ensures BigEndian(bytes) < Pow256(|bytes|)
  {
    if bytes != [] {
      BigEndianBound(bytes[..|bytes| - 1]);
    }
  }

  lemma EightBytesFit(bytes: seq<byte>)
    requires |bytes| == 8
    ensures BigEndian(bytes) < UINT64_END
  {
    BigEndianBound(bytes);
    assert Pow256(2) == 0x1_0000 && Pow256(4) == Pow256(2) * 0x1_0000;
    assert Pow256(6) == Pow256(4) * 0x1_0000 && Pow256(8) == Pow256(6) * 0x1_0000;
  }

  function HexDigit(d: nat): char
    requires d < 16
  {
    "0123456789abcdef"[d]
  }

  function HexText(bytes: seq<byte>): string {
    if bytes == [] then "" else HexText(bytes[..|bytes| - 1]) + [HexDigit(bytes[|bytes| - 1] / 16), HexDigit(bytes[|bytes| - 1] % 16)]
  }

  /** Two characters a byte, the high half first. */
  lemma {:induction false} HexTextAt(bytes: seq<byte>, i: nat)
    requires i < |bytes|
    ensures |HexText(bytes)| == 2 * |bytes|
    ensures HexText(bytes)[2 * i] == "0123456789abcdef"[bytes[i] / 16]
    ensures HexText(bytes)[2 * i + 1] == "0123456789abcdef"[bytes[i] % 16]
  {
    var init := bytes[..|bytes| - 1];
    if i < |init| {
      HexTextAt(init, i);
    } else if init != [] {
      HexTextAt(init, 0);
    } else {
      assert HexText(init) == "";
    }
  }

  lemma HexLength(bytes: seq<byte>)
    ensures |HexText(bytes)| == 2 * |bytes|
  {
    if bytes != [] {
      HexTextAt(bytes, 0);
    }
  }

  lemma HexDigitInjective(c: nat, d: nat)
    requires c < 16 && d < 16 && "0123456789abcdef"[c] == "0123456789abcdef"[d]
    ensures c == d
  {
  }

  /** Hexadecimal text loses nothing. */
  lemma HexTextInjective(a: seq<byte>, b: seq<byte>)
    requires HexText(a) == HexText(b)
    ensures a == b
  {
    HexLength(a);
    HexLength(b);
    forall i | 0 <= i < |a|
      ensures a[i] == b[i]
    {
      HexTextAt(a, i);
      HexTextAt(b, i);
      HexDigitInjective(a[i] / 16, b[i] / 16);
      HexDigitInjective(a[i] % 16, b[i] % 16);
    }
  }

  /** The last 20 bytes, or the bytes padded with zeros on the left. */
  function BytesToAddress(bytes: seq<byte>): (address: seq<byte>)
    ensures |address| == 20
  {
    if |bytes| > 20 then bytes[|bytes| - 20..] else seq(20 - |bytes|, i => 0) + bytes
  }

  lemma {:induction false} ZeroBytes(zeros: seq<byte>, bytes: seq<byte>)
    requires forall i :: 0 <= i < |zeros| ==> zeros[i] == 0
    ensures BigEndian(zeros + bytes) == BigEndian(bytes)
  {
    var all := zeros + bytes;
    if bytes != [] {
      ZeroBytes(zeros, bytes[..|bytes| - 1]);
      assert all[..|all| - 1] == zeros + bytes[..|bytes| - 1];
    } else if zeros != [] {
      ZeroBytes(zeros[..|zeros| - 1], []);
      assert all[..|all| - 1] == zeros[..|zeros| - 1] + [];
    }
  }

  lemma AddressParts(bytes: seq<byte>, address: seq<byte>)
    requires address == BytesToAddress(bytes)
    ensures |bytes| <= 20 ==> address == address[..20 - |bytes|] + bytes
    ensures |bytes| <= 20 ==> forall i :: 0 <= i < 20 - |bytes| ==> address[i] == 0
    ensures |bytes| > 20 ==> bytes == bytes[..|bytes| - 20] + address
  {
  }

  /** An address is the number that the bytes spell, cut to its last 20 bytes. */
  lemma AddressNumber(bytes: seq<byte>, address: seq<byte>)
    requires address == BytesToAddress(bytes)
    ensures |bytes| <= 20 ==> BigEndian(address) == BigEndian(bytes)
    ensures |bytes| > 20 ==> bytes == bytes[..|bytes| - 20] + address
  {
    AddressParts(bytes, address);
    if |bytes| <= 20 {
      ZeroBytes(address[..20 - |bytes|], bytes);
    }
  }

  /** Any rendering of addresses as text that is never empty. */
  ghost predicate Rendering(hex: seq<byte> -> string) {
    forall a: seq<byte> :: hex(a) != ""
  }

  /** Where and when a log was observed. */
  datatype Sighting = Sighting(chainID: nat, block: nat, txHash: string, logIndex: nat, timestamp: int)

  function WithChain(data: map<string, string>, field: string, eid: nat): map<string, string> {
    if eid in ENDPOINT_TO_CHAIN then data[field := PrintNat(ENDPOINT_TO_CHAIN[eid])] else data
  }

  function PacketNonce(payload: seq<byte>): nat
    requires |payload| >= PACKET_MIN
  {
    BigEndian(payload[1..9])
  }

  function PacketSrcEid(payload: seq<byte>): nat
    requires |payload| >= PACKET_MIN
  {
    BigEndian(payload[9..13])
  }

  function PacketSender(payload: seq<byte>): seq<byte>
    requires |payload| >= PACKET_MIN
  {
    payload[13..45]
  }

  function PacketGuid(payload: seq<byte>): string
    requires |payload| >= PACKET_MIN
  {
    "0x" + HexText(payload[81..113])
  }

  function DecodeEncodedPayload(payload: seq<byte>, hex: seq<byte> -> string): Result<map<string, string>> {
    if |payload| < PACKET_MIN then Err("payload too short")
    else
      var data := map["version" := PrintNat(payload[0]), "nonce" := PrintNat(PacketNonce(payload)),
                      "src_eid" := PrintNat(PacketSrcEid(payload))];
      var data := WithChain(data, "src_chain_id", PacketSrcEid(payload));
      var data := data["sender" := hex(BytesToAddress(PacketSender(payload)[12..]))];
      var dstEid := BigEndian(payload[45..49]);
      var data := WithChain(data["dst_eid" := PrintNat(dstEid)], "dst_chain_id", dstEid);
      var data := data["receiver" := hex(BytesToAddress(payload[49..81][12..]))]["guid" := PacketGuid(payload)];
      Ok(data["message" := if |payload| > PACKET_MIN then "0x" + HexText(payload[113..]) else "0x"])
  }

  function EventAt(at: Sighting, eventType: string, data: map<string, string>): RawEvent {
    RawEvent(PROTOCOL_NAME, at.chainID, at.block, at.txHash, at.logIndex, at.timestamp, eventType, data)
  }

  /** The packet-sent branch, from the unpacked `encodedPayload` argument on. */
  function DecodeSent(payload: seq<byte>, at: Sighting, hex: seq<byte> -> string): Result<RawEvent> {
    match DecodeEncodedPayload(payload, hex)
    case Err(e) => Err(e)
    case Ok(data) => Ok(EventAt(at, "PacketSent", data))
  }

  datatype Origin = Origin(srcEid: nat, sender: seq<byte>, nonce: nat)

  /** The packet-received branch (delivered or received), from the unpacked fields on. */
  function DecodeReceived(origin: Origin, receiver: seq<byte>, at: Sighting, hex: seq<byte> -> string): RawEvent {
    var chain := if origin.srcEid in ENDPOINT_TO_CHAIN then PrintNat(ENDPOINT_TO_CHAIN[origin.srcEid]) else "unknown";
    EventAt(at, "PacketReceived", map[
      "src_eid" := PrintNat(origin.srcEid), "src_chain_id" := chain, "sender" := hex(BytesToAddress(origin.sender)),
      "nonce" := PrintNat(origin.nonce), "receiver" := hex(receiver)])
  }

  // ---- The packet layout ----

  /** `n` on `width` bytes, most significant byte first. */
  function Bytes(n: nat, width: nat): (bytes: seq<byte>)
    ensures |bytes| == width
  {
    if width == 0 then [] else Bytes(n / 256, width - 1) + [n % 256]
  }

  lemma {:induction false} BytesRead(n: nat, width: nat)
    requires n < Pow256(width)
    ensures BigEndian(Bytes(n, width)) == n
  {
    if width > 0 {
      BytesRead(n / 256, width - 1);
      assert Bytes(n, width)[..width - 1] == Bytes(n / 256, width - 1);
    }
  }

  datatype Packet = Packet(
    version: byte, nonce: nat, srcEid: nat, sender: seq<byte>, dstEid: nat, receiver: seq<byte>, guid: seq<byte>, message: seq<byte>)

  predicate ValidPacket(p: Packet) {
    p.nonce < Pow256(8) && p.srcEid < Pow256(4) && p.dstEid < Pow256(4) && |p.sender| == 20 && |p.receiver| == 20 && |p.guid| == 32
  }

  const PADDING: seq<byte> := [0, 0, 0, 0, 0, 0, 0, 0, 0, 0, 0, 0]

  /** The documented layout: version, nonce, source endpoint, padded sender, destination
      endpoint, padded receiver, guid, message. */
  function Encode(p: Packet): seq<byte> {
    [p.version] + Bytes(p.nonce, 8) + Bytes(p.srcEid, 4) + (PADDING + p.sender) + Bytes(p.dstEid, 4) + (PADDING + p.receiver) +
    p.guid + p.message
  }

  lemma EncodedParts(p: Packet)
    requires ValidPacket(p)
    ensures var e := Encode(p);
            && |e| == PACKET_MIN + |p.message| && e[0] == p.version && e[1..9] == Bytes(p.nonce, 8) && e[9..13] == Bytes(p.srcEid, 4)
            && e[13..45] == PADDING + p.sender && e[45..49] == Bytes(p.dstEid, 4) && e[49..81] == PADDING + p.receiver
            && e[81..113] == p.guid && e[113..] == p.message
  {
  }

  lemma DecodedNumbers(payload: seq<byte>, hex: seq<byte> -> string)
    requires |payload| >= PACKET_MIN
    ensures var data := DecodeEncodedPayload(payload, hex).value;
            && Holds(data, "version", PrintNat(payload[0])) && Holds(data, "nonce", PrintNat(PacketNonce(payload)))
            && Holds(data, "src_eid", PrintNat(PacketSrcEid(payload))) && Holds(data, "dst_eid", PrintNat(BigEndian(payload[45..49])))
  {
  }

  lemma DecodedAddresses(payload: seq<byte>, hex: seq<byte> -> string)
    requires |payload| >= PACKET_MIN
    ensures var data := DecodeEncodedPayload(payload, hex).value;
            Holds(data, "sender", hex(PacketSender(payload)[12..])) && Holds(data, "receiver", hex(payload[49..81][12..]))
  {
    assert BytesToAddress(PacketSender(payload)[12..]) == PacketSender(payload)[12..];
    assert BytesToAddress(payload[49..81][12..]) == payload[49..81][12..];
  }

  lemma DecodedTexts(payload: seq<byte>, hex: seq<byte> -> string)
    requires |payload| >= PACKET_MIN
    ensures var data := DecodeEncodedPayload(payload, hex).value;
            Holds(data, "guid", PacketGuid(payload)) && Holds(data, "message", "0x" + HexText(payload[113..]))
  {
    assert "0x" + HexText([]) == "0x";
  }

  lemma DecodedChains(payload: seq<byte>, hex: seq<byte> -> string)
    requires |payload| >= PACKET_MIN
    ensures var data := DecodeEncodedPayload(payload, hex).value;
            HoldsChain(data, "src_chain_id", PacketSrcEid(payload)) && HoldsChain(data, "dst_chain_id", BigEndian(payload[45..49]))
  {
  }

  /** Decoding a packet laid out that way gives back every field, as text; the chain
      ids are there exactly when the endpoints are known. */
  lemma DecodeEncoded(p: Packet, hex: seq<byte> -> string)
    requires ValidPacket(p)
    ensures DecodeEncodedPayload(Encode(p), hex).Ok?
    ensures var data := DecodeEncodedPayload(Encode(p), hex).value;
            && Holds(data, "version", PrintNat(p.version)) && Holds(data, "nonce", PrintNat(p.nonce))
            && Holds(data, "src_eid", PrintNat(p.srcEid)) && Holds(data, "dst_eid", PrintNat(p.dstEid))
            && Holds(data, "sender", hex(p.sender)) && Holds(data, "receiver", hex(p.receiver))
            && Holds(data, "guid", "0x" + HexText(p.guid)) && Holds(data, "message", "0x" + HexText(p.message))
            && HoldsChain(data, "src_chain_id", p.srcEid) && HoldsChain(data, "dst_chain_id", p.dstEid)
  {
    EncodedParts(p);
    BytesRead(p.nonce, 8);
    BytesRead(p.srcEid, 4);
    BytesRead(p.dstEid, 4);
    assert (PADDING + p.sender)[12..] == p.sender && (PADDING + p.receiver)[12..] == p.receiver;
    DecodedNumbers(Encode(p), hex);
    DecodedAddresses(Encode(p), hex);
    DecodedTexts(Encode(p), hex);
    DecodedChains(Encode(p), hex);
  }

  predicate Holds(data: map<string, string>, field: string, text: string) {
    field in data && data[field] == text
  }

  predicate HoldsChain(data: map<string, string>, field: string, eid: nat) {
    if eid in ENDPOINT_TO_CHAIN then Holds(data, field, PrintNat(ENDPOINT_TO_CHAIN[eid])) else field !in data
  }
}

/** Which destination events find the row that the source event stored. */
module Matching {
  import opened Basics
  import opened Messages
  import opened Normalizer
  import opened StoreModel
  import opened Steps
  import opened LayerZero

  predicate Storable(at: Sighting) {
    at.chainID < BIGINT_END && at.block < BIGINT_END && at.logIndex < INTEGER_END
  }

  /** No row that is already there, and pending, answers to the key. */
  ghost predicate FreeKey(s: Store, key: CorrelationKey) {
    forall id :: !Matches(s, key, id)
  }

  lemma PacketSentOp(ev: RawEvent, nonce: nat)
    requires ev.eventType == "PacketSent" && Field(ev, "guid") != "" && ParseUint64(Field(ev, "nonce")) == Ok(nonce)
    ensures var m := Message(Field(ev, "guid"), ev.protocol, PlainMessage, Pending, SourceOf(ev, Field(ev, "sender")),
                             Some(Payload("", "", Field(ev, "message"), nonce)), Some(NO_METADATA));
            OpOf(ev) == if FitsMessage(m) then Put(m) else Skip
  {
    assert Normalize(ev) == PacketSent(ev);
  }

  lemma PacketReceivedOp(ev: RawEvent, nonce: nat, src: Result<nat>)
    requires ev.eventType == "PacketReceived" && Field(ev, "sender") != ""
    requires ParseUint64(Field(ev, "nonce")) == Ok(nonce) && ParseUint64(Field(ev, "src_chain_id")) == src
    ensures src.Err? ==> OpOf(ev) == Skip
    ensures src.Ok? ==>
              var key, dest := CorrelationKey(ev.protocol, "", nonce, Field(ev, "sender"), src.value), DestinationOf(ev, Field(ev, "receiver"));
              OpOf(ev) == if FitsKey(key) && FitsDestination(dest) then Correlate(key, dest, Executed) else Skip
  {
    assert Normalize(ev) == PacketReceived(ev);
  }

  /** What the two decoders and the normalizer make of a packet and of its receipt. */
  lemma SentOp(payload: seq<byte>, at: Sighting, hex: seq<byte> -> string)
    requires |payload| >= PACKET_MIN
    ensures DecodeSent(payload, at, hex).Ok?
    ensures var op := OpOf(DecodeSent(payload, at, hex).value);
            if Storable(at) && PacketNonce(payload) < BIGINT_END then
              && op.Put? && op.msg.id == PacketGuid(payload) && op.msg.protocol == PROTOCOL_NAME && op.msg.status == Pending
              && op.msg.source == Source(at.chainID, at.txHash, at.block, at.timestamp, hex(payload[13..45][12..]), at.logIndex)
              && op.msg.typ == PlainMessage
              && op.msg.payload == Some(Payload("", "", "0x" + HexText(payload[113..]), BigEndian(payload[1..9])))
            else op.Skip?
  {
    DecodedNumbers(payload, hex);
    DecodedAddresses(payload, hex);
    DecodedTexts(payload, hex);
    EightBytesFit(payload[1..9]);
    PrintParse(PacketNonce(payload));
    PacketSentOp(DecodeSent(payload, at, hex).value, PacketNonce(payload));
  }

  lemma ReceivedOp(origin: Origin, receiver: seq<byte>, at: Sighting, hex: seq<byte> -> string)
    requires |origin.sender| == 32 && origin.nonce < UINT64_END && Rendering(hex)
    ensures var op := OpOf(DecodeReceived(origin, receiver, at, hex));
            if Storable(at) && origin.nonce < BIGINT_END && origin.srcEid in ENDPOINT_TO_CHAIN then
              op == Correlate(
                CorrelationKey(PROTOCOL_NAME, "", origin.nonce, hex(origin.sender[12..]), ENDPOINT_TO_CHAIN[origin.srcEid]),
                Destination(at.chainID, at.txHash, at.block, at.timestamp, hex(receiver), at.logIndex), Executed)
            else op.Skip?
  {
    var ev := DecodeReceived(origin, receiver, at, hex);
    PrintParse(origin.nonce);
    if origin.srcEid in ENDPOINT_TO_CHAIN {
      MappedChainsFit(origin.srcEid);
      PrintParse(ENDPOINT_TO_CHAIN[origin.srcEid]);
      PacketReceivedOp(ev, origin.nonce, Ok(ENDPOINT_TO_CHAIN[origin.srcEid]));
    } else {
      assert !IsDigit("unknown"[0]) && HasNonDigit("unknown");
      PacketReceivedOp(ev, origin.nonce, Err("invalid syntax"));
    }
  }

  lemma MappedChainsFit(eid: nat)
    requires eid in ENDPOINT_TO_CHAIN
    ensures ENDPOINT_TO_CHAIN[eid] < 0x1_0000_0000
  {
  }

  /** A correlation right after a new message: if the key was free, it finds that
      message exactly when the key names it, and settles nothing else. */
  lemma CorrelateAfterPut(m: Message, op: Op, s: Store, t: Store, u: Store, now: Clocks, then_: Clocks)
    requires SoundOp(Put(m)) && SoundOp(op) && op.Correlate? && m.id !in s && FreeKey(s, op.key)
    requires Step(s, Put(m), now, t) && Step(t, op, then_, u)
    ensures forall id :: Matches(t, op.key, id) <==> id == m.id && Names(op.key, id, Merge(None, m))
    ensures m.id in u && u[m.id].core.status == (if Matches(t, op.key, m.id) then op.outcome else Pending)
    ensures u[m.id].core.dest == (if Matches(t, op.key, m.id) then Some(op.dest) else None)
    ensures forall id :: id in s ==> id in u && u[id] == s[id]
  {
    forall id
      ensures Matches(t, op.key, id) <==> id == m.id && Names(op.key, id, Merge(None, m))
    {
      assert id != m.id && Matches(t, op.key, id) ==> Matches(s, op.key, id);
    }
  }

  /** The packet's own receipt: same source endpoint, sender and nonce. */
  function ReceiptOf(payload: seq<byte>, receiver: seq<byte>, at: Sighting, hex: seq<byte> -> string): RawEvent
    requires |payload| >= PACKET_MIN
  {
    DecodeReceived(Origin(PacketSrcEid(payload), PacketSender(payload), PacketNonce(payload)), receiver, at, hex)
  }

  /** The send was seen on the chain that its endpoint stands for, and the integers of
      both events fit their columns. */
  predicate Intact(payload: seq<byte>, sent: Sighting, received: Sighting)
    requires |payload| >= PACKET_MIN
  {
    var eid := PacketSrcEid(payload);
    Storable(sent) && Storable(received) && PacketNonce(payload) < BIGINT_END &&
    eid in ENDPOINT_TO_CHAIN && ENDPOINT_TO_CHAIN[eid] == sent.chainID
  }

  /** End to end, for every packet of at least 113 bytes: once its send is processed,
      its receipt finds exactly that row, and settles it, if and only if the pair is
      intact. */
  lemma ReceiptFindsPacket(payload: seq<byte>, sent: Sighting, receiver: seq<byte>, received: Sighting, hex: seq<byte> -> string,
                           s: Store, t: Store, u: Store, now: Clocks, then_: Clocks)
    requires |payload| >= PACKET_MIN && Rendering(hex) && DecodeSent(payload, sent, hex).Ok?
    requires PacketGuid(payload) !in s
    requires Step(s, OpOf(DecodeSent(payload, sent, hex).value), now, t)
    requires OpOf(ReceiptOf(payload, receiver, received, hex)).Correlate? ==>
               FreeKey(s, OpOf(ReceiptOf(payload, receiver, received, hex)).key)
    requires Step(t, OpOf(ReceiptOf(payload, receiver, received, hex)), then_, u)
    ensures var op, guid := OpOf(ReceiptOf(payload, receiver, received, hex)), PacketGuid(payload);
            && ((guid in u && u[guid].core.status == Executed) <==> Intact(payload, sent, received))
            && (Intact(payload, sent, received) ==>
                  op.Correlate? && u[guid].core.dest == Some(op.dest) && forall id :: Matches(t, op.key, id) <==> id == guid)
  {
    SentOp(payload, sent, hex);
    EightBytesFit(payload[1..9]);
    ReceivedOp(Origin(PacketSrcEid(payload), PacketSender(payload), PacketNonce(payload)), receiver, received, hex);
    var put, op := OpOf(DecodeSent(payload, sent, hex).value), OpOf(ReceiptOf(payload, receiver, received, hex));
    if put.Put? && op.Correlate? {
      CorrelateAfterPut(put.msg, op, s, t, u, now, then_);
    } else if op.Correlate? {
      assert forall id :: !Matches(s, op.key, id);
    }
  }

  /** A Wormhole redemption looks for its sequence number among nonces that the
      publishing side always stores as 0: it finds the published row exactly when
      the sequence number is 0 and sender and chain agree. */
  lemma WormholeRedemption(published: RawEvent, redeemed: RawEvent, s: Store, t: Store, now: Clocks)
    requires published.eventType == "LogMessagePublished" && redeemed.eventType == "TransferRedeemed"
    requires published.protocol == redeemed.protocol
    requires OpOf(published).Put? && OpOf(redeemed).Correlate?
    requires Field(published, "message_id") !in s && Step(s, OpOf(published), now, t)
    ensures Matches(t, OpOf(redeemed).key, Field(published, "message_id")) <==>
            && ParseUint64(Field(redeemed, "sequence")) == Ok(0)
            && Field(redeemed, "sender") == Field(published, "sender")
            && ParseUint64(Field(redeemed, "src_chain_id")) == Ok(published.chainID)
  {
    assert Normalize(published) == LogMessagePublished(published);
    assert Normalize(redeemed) == TransferRedeemed(redeemed);
  }

  lemma CCIPOps(send: RawEvent, report: RawEvent)
    requires send.eventType == "CCIPSendRequested" && report.eventType == "ExecutionStateChanged"
    requires send.protocol == report.protocol && Field(send, "message_id") == Field(report, "message_id")
    requires OpOf(send).Put?
    ensures OpOf(send).msg.id == Field(send, "message_id") && !OpOf(report).Put?
    ensures OpOf(report).Correlate? ==>
              Names(OpOf(report).key, OpOf(send).msg.id, Merge(None, OpOf(send).msg)) &&
              OpOf(report).key.messageID == OpOf(send).msg.id &&
              OpOf(report).outcome == (if ParseUint64(Field(report, "state")) == Ok(2) then Executed else Failed)
  {
    assert Normalize(send) == CCIPSendRequested(send);
    assert Normalize(report) == CCIPExecutionStateChanged(report);
  }

  /** A correlation by message id, on a store that just got the message. */
  lemma SettlesById(m: Message, op: Op, s: Store, t: Store, u: Store, now: Clocks, then_: Clocks)
    requires SoundOp(Put(m)) && m.id != "" && m.id !in s && Step(s, Put(m), now, t) && Step(t, op, then_, u)
    requires op.Correlate? && op.key.messageID == m.id && Names(op.key, m.id, Merge(None, m))
    ensures m.id in u && t.Keys == u.Keys && u[m.id].core.status == op.outcome
    ensures forall other :: other in s && other != m.id ==> other in u && u[other] == s[other]
  {
    assert Matches(t, op.key, m.id);
  }

  /** A CCIP execution report, and no other message's, settles the row of the send
      with the same message id, with the status that its state number stands for. */
  lemma CCIPExecution(send: RawEvent, report: RawEvent, s: Store, t: Store, u: Store, now: Clocks, then_: Clocks)
    requires send.eventType == "CCIPSendRequested" && report.eventType == "ExecutionStateChanged"
    requires send.protocol == report.protocol && Field(send, "message_id") == Field(report, "message_id")
    requires OpOf(send).Put? && Field(send, "message_id") !in s
    requires Step(s, OpOf(send), now, t) && Step(t, OpOf(report), then_, u)
    ensures var id := Field(send, "message_id");
            && id in u && t.Keys == u.Keys
            && (forall other :: other in s && other != id ==> other in u && u[other] == s[other])
            && (OpOf(report).Skip? ==> u[id].core.status == Pending)
            && (OpOf(report).Correlate? ==>
                  u[id].core.status == (if ParseUint64(Field(report, "state")) == Ok(2) then Executed else Failed))
  {
    CCIPOps(send, report);
    if OpOf(report).Correlate? {
      SettlesById(OpOf(send).msg, OpOf(report), s, t, u, now, then_);
    }
  }

  /** Packets with different guids are different messages: after both sends each has its
      own row, with its own sender and nonce. */
  lemma TwoPacketsTwoRows(p: Packet, q: Packet, at: Sighting, at2: Sighting, hex: seq<byte> -> string,
                          s: Store, t: Store, u: Store, now: Clocks, then_: Clocks)
    requires ValidPacket(p) && ValidPacket(q) && p.guid != q.guid
    requires Storable(at) && Storable(at2) && p.nonce < BIGINT_END && q.nonce < BIGINT_END
    requires DecodeSent(Encode(p), at, hex).Ok? && DecodeSent(Encode(q), at2, hex).Ok?
    requires |Encode(p)| >= PACKET_MIN && |Encode(q)| >= PACKET_MIN
    requires Step(s, OpOf(DecodeSent(Encode(p), at, hex).value), now, t)
    requires Step(t, OpOf(DecodeSent(Encode(q), at2, hex).value), then_, u)
    requires PacketGuid(Encode(p)) !in s && PacketGuid(Encode(q)) !in s
    ensures PacketGuid(Encode(p)) != PacketGuid(Encode(q)) && u.Keys == s.Keys + {PacketGuid(Encode(p)), PacketGuid(Encode(q))}
    ensures StoredAs(u[PacketGuid(Encode(p))].core, hex(p.sender), p.nonce) && StoredAs(u[PacketGuid(Encode(q))].core, hex(q.sender), q.nonce)
  {
    GuidsDiffer(p, q);
    EncodedSentOp(p, at, hex);
    EncodedSentOp(q, at2, hex);
    TwoPuts(OpOf(DecodeSent(Encode(p), at, hex).value).msg, OpOf(DecodeSent(Encode(q), at2, hex).value).msg, s, t, u, now, then_);
  }

  lemma TwoPuts(m: Message, n: Message, s: Store, t: Store, u: Store, now: Clocks, then_: Clocks)
    requires m.id != n.id && m.id !in s && n.id !in s && Step(s, Put(m), now, t) && Step(t, Put(n), then_, u)
    ensures u.Keys == s.Keys + {m.id, n.id} && u[m.id].core == Merge(None, m) && u[n.id].core == Merge(None, n)
  {
  }

  predicate StoredAs(c: Core, sender: string, nonce: nat) {
    c.status.Pending? && c.source.sender == sender && c.payload.Some? && c.payload.value.nonce == nonce
  }

  lemma GuidsDiffer(p: Packet, q: Packet)
    requires ValidPacket(p) && ValidPacket(q) && |Encode(p)| >= PACKET_MIN && |Encode(q)| >= PACKET_MIN
    ensures PacketGuid(Encode(p)) == PacketGuid(Encode(q)) <==> p.guid == q.guid
  {
    EncodedParts(p);
    EncodedParts(q);
    if PacketGuid(Encode(p)) == PacketGuid(Encode(q)) {
      assert PacketGuid(Encode(p))[2..] == HexText(p.guid) && PacketGuid(Encode(q))[2..] == HexText(q.guid);
      HexTextInjective(p.guid, q.guid);
    }
  }

  lemma EncodedSentOp(p: Packet, at: Sighting, hex: seq<byte> -> string)
    requires ValidPacket(p) && Storable(at) && p.nonce < BIGINT_END && |Encode(p)| >= PACKET_MIN
    ensures DecodeSent(Encode(p), at, hex).Ok?
    ensures var op := OpOf(DecodeSent(Encode(p), at, hex).value);
            && op.Put? && op.msg.id == PacketGuid(Encode(p)) && op.msg.status == Pending && op.msg.source.sender == hex(p.sender)
            && op.msg.payload.Some? && op.msg.payload.value.nonce == p.nonce
  {
    EncodedParts(p);
    BytesRead(p.nonce, 8);
    assert (PADDING + p.sender)[12..] == p.sender;
    SentOp(Encode(p), at, hex);
  }

  /** A destination event settles the row that it finds: with what it reports as place and
      time, and as executed unless it is an execution report of a failure. */
  lemma DestinationSettles(ev: RawEvent, t: Store, u: Store, id: string, now: Clocks)
    requires OpOf(ev).Correlate? && Step(t, OpOf(ev), now, u)
    requires Matches(t, OpOf(ev).key, id) && forall other :: Matches(t, OpOf(ev).key, other) ==> other == id
    ensures id in u && u.Keys == t.Keys && forall other :: other in t && other != id ==> u[other] == t[other]
    ensures u[id].core.status ==
            if ev.eventType == "ExecutionStateChanged" && ParseUint64(Field(ev, "state")) == Ok(3) then Failed else Executed
    ensures u[id].core.dest ==
            Some(Destination(ev.chainID, ev.txHash, ev.block, ev.timestamp,
                             if ev.eventType == "PacketReceived" || ev.eventType == "TransferRedeemed" then Field(ev, "receiver") else "",
                             ev.logIndex))
  {
    OpOfExactly(ev);
  }

  /** An Axelar execution settles the message with its command id. */
  lemma AxelarExecution(m: Message, ev: RawEvent, s: Store, t: Store, u: Store, now: Clocks, then_: Clocks)
    requires SoundOp(Put(m)) && m.id != "" && m.id !in s && Step(s, Put(m), now, t)
    requires ev.eventType == "Executed" && ev.protocol == m.protocol && Field(ev, "command_id") == m.id
    requires FitsPlace(ev.chainID, ev.block, ev.logIndex) && Step(t, OpOf(ev), then_, u)
    ensures m.id in u && u.Keys == t.Keys && forall other :: other in s && other != m.id ==> other in u && u[other] == s[other]
    ensures u[m.id].core.status == Executed
    ensures u[m.id].core.dest == Some(Destination(ev.chainID, ev.txHash, ev.block, ev.timestamp, "", ev.logIndex))
  {
    OpOfExactly(ev);
    assert Accepted(ev);
    assert Matches(t, OpOf(ev).key, m.id);
    DestinationSettles(ev, t, u, m.id, then_);
  }
}
