/** Message values and the per-event normalization rules. The clock that the
    normalizer reads is not part of its result here: it is handed to the store
    together with the message. */
module Messages {
  import opened Basics

  datatype MessageType = TokenTransfer | PlainMessage | ContractCall

  datatype Status = Pending | Executed | Failed

  datatype Source = Source(
    chainID: nat, txHash: string, block: nat, timestamp: int, sender: string, logIndex: nat)

  datatype Destination = Destination(
    chainID: nat, txHash: string, block: nat, timestamp: int, receiver: string, logIndex: nat)

  datatype Payload = Payload(token: string, amount: string, data: string, nonce: nat)

  datatype Metadata = Metadata(fee: string, relayer: string, gasUsed: nat, latency: int)

  datatype Message = Message(
    id: string, protocol: string, typ: MessageType, status: Status,
    source: Source, payload: Option<Payload>, metadata: Option<Metadata>)

  /** With a message id the lookup is direct, otherwise by the other four fields. */
  datatype CorrelationKey = CorrelationKey(
    protocol: string, messageID: string, nonce: nat, sender: string, srcChainID: nat)

  datatype RawEvent = RawEvent(
    protocol: string, chainID: nat, block: nat, txHash: string, logIndex: nat,
    timestamp: int, eventType: string, data: map<string, string>)

  /** What the store is asked to do for one event. */
  datatype Op =
    | Put(msg: Message)
    | Correlate(key: CorrelationKey, dest: Destination, outcome: Status)
    | Skip

  /** Operations that normalization can produce: new messages are pending and carry
      both optional parts with no latency yet, correlations set a terminal status. */
  predicate SoundOp(op: Op) {
    match op
    case Put(m) => m.status.Pending? && m.payload.Some? && m.metadata.Some? && m.metadata.value.latency == 0
    case Correlate(_, _, outcome) => !outcome.Pending?
    case Skip => true
  }

  // ---- Column widths ----

  predicate FitsSource(s: Source) {
    s.chainID < BIGINT_END && s.block < BIGINT_END && s.logIndex < INTEGER_END
  }

  predicate FitsDestination(d: Destination) {
    d.chainID < BIGINT_END && d.block < BIGINT_END && d.logIndex < INTEGER_END
  }

  predicate FitsPayload(p: Option<Payload>) {
    p.Some? ==> p.value.nonce < BIGINT_END
  }

  predicate FitsMetadata(m: Option<Metadata>) {
    m.Some? ==> m.value.gasUsed < BIGINT_END
  }

  predicate FitsMessage(m: Message) {
    FitsSource(m.source) && FitsPayload(m.payload) && FitsMetadata(m.metadata)
  }

  predicate FitsKey(k: CorrelationKey) {
    k.messageID == "" ==> k.nonce < BIGINT_END && k.srcChainID < BIGINT_END
  }
}

module Normalizer {
  import opened Basics
  import opened Messages

  /** A correlation leaves the status open (`None`) except for CCIP. */
  datatype Normalized =
    | NewMessage(msg: Message)
    | Correlation(key: CorrelationKey, dest: Destination, status: Option<Status>)

  const NO_METADATA := Metadata("", "", 0, 0)

  function Field(ev: RawEvent, name: string): string {
    if name in ev.data then ev.data[name] else ""
  }

  function SourceOf(ev: RawEvent, sender: string): Source {
    Source(ev.chainID, ev.txHash, ev.block, ev.timestamp, sender, ev.logIndex)
  }

  function DestinationOf(ev: RawEvent, receiver: string): Destination {
    Destination(ev.chainID, ev.txHash, ev.block, ev.timestamp, receiver, ev.logIndex)
  }

  function Pend(id: string, ev: RawEvent, typ: MessageType, source: Source, payload: Payload, metadata: Metadata): Normalized {
    NewMessage(Message(id, ev.protocol, typ, Pending, source, Some(payload), Some(metadata)))
  }

  /** What every rule keeps: protocol, place and time are the event's; a new message has
      an id and waits for its destination, with payload and metadata; a correlation that
      sets a status sets a terminal one. */
  predicate Belongs(ev: RawEvent, n: Normalized) {
    match n
    case NewMessage(m) =>
      m.id != "" && m.protocol == ev.protocol && SoundOp(Put(m)) &&
      m.source.block == ev.block && m.source.timestamp == ev.timestamp && m.source.logIndex == ev.logIndex
    case Correlation(key, dest, status) =>
      key.protocol == ev.protocol && dest == DestinationOf(ev, dest.receiver) && status != Some(Pending)
  }

  function PacketSent(ev: RawEvent): (r: Result<Normalized>)
    ensures r.Ok? ==> Belongs(ev, r.value)
  {
    if Field(ev, "guid") == "" then Err("PacketSent missing guid")
    else
      var nonce := ParseUint64(Field(ev, "nonce"));
      if nonce.Err? then Err("PacketSent invalid nonce")
      else Ok(Pend(Field(ev, "guid"), ev, PlainMessage, SourceOf(ev, Field(ev, "sender")),
                   Payload("", "", Field(ev, "message"), nonce.value), NO_METADATA))
  }

  function PacketReceived(ev: RawEvent): (r: Result<Normalized>)
    ensures r.Ok? ==> Belongs(ev, r.value)
  {
    var nonce, sender, src := ParseUint64(Field(ev, "nonce")), Field(ev, "sender"), ParseUint64(Field(ev, "src_chain_id"));
    if nonce.Err? then Err("PacketReceived invalid nonce")
    else if sender == "" then Err("PacketReceived missing sender")
    else if src.Err? then Err("PacketReceived invalid src_chain_id")
    else Ok(Correlation(CorrelationKey(ev.protocol, "", nonce.value, sender, src.value),
                        DestinationOf(ev, Field(ev, "receiver")), None))
  }

  function OFTSent(ev: RawEvent): (r: Result<Normalized>)
    ensures r.Ok? ==> Belongs(ev, r.value)
  {
    if Field(ev, "guid") == "" then Err("OFTSent missing guid")
    else Ok(Pend(Field(ev, "guid"), ev, TokenTransfer, SourceOf(ev, Field(ev, "from_address")),
                 Payload("", Field(ev, "amount_sent"), "", 0), NO_METADATA))
  }

  function AxelarContractCall(ev: RawEvent): (r: Result<Normalized>)
    ensures r.Ok? ==> Belongs(ev, r.value)
  {
    if Field(ev, "payload_hash") == "" then Err("ContractCall missing payload_hash")
    else if Field(ev, "sender") == "" then Err("ContractCall missing sender")
    else Ok(Pend(Field(ev, "payload_hash"), ev, ContractCall, SourceOf(ev, Field(ev, "sender")),
                 Payload("", "", Field(ev, "payload"), 0), NO_METADATA))
  }

  function AxelarContractCallApproved(ev: RawEvent): (r: Result<Normalized>)
    ensures r.Ok? ==> Belongs(ev, r.value)
  {
    if Field(ev, "command_id") == "" then Err("ContractCallApproved missing command_id")
    else
      var parsed := ParseUint64(Field(ev, "src_chain_id"));
      // On a syntax error the ignored parse leaves 0, on overflow the largest value.
      var src := if parsed.Ok? then parsed.value
                 else if parsed.error == "value out of range" then UINT64_END - 1 else 0;
      Ok(Pend(Field(ev, "command_id"), ev, ContractCall,
              Source(src, Field(ev, "source_tx_hash"), ev.block, ev.timestamp, Field(ev, "source_address"), ev.logIndex),
              Payload("", "", "", 0), NO_METADATA))
  }

  function AxelarExecuted(ev: RawEvent): (r: Result<Normalized>)
    ensures r.Ok? ==> Belongs(ev, r.value)
  {
    if Field(ev, "command_id") == "" then Err("Executed missing command_id")
    else Ok(Correlation(CorrelationKey(ev.protocol, Field(ev, "command_id"), 0, "", 0), DestinationOf(ev, ""), None))
  }

  function LogMessagePublished(ev: RawEvent): (r: Result<Normalized>)
    ensures r.Ok? ==> Belongs(ev, r.value)
  {
    if Field(ev, "message_id") == "" then Err("LogMessagePublished missing message_id")
    else Ok(Pend(Field(ev, "message_id"), ev, PlainMessage, SourceOf(ev, Field(ev, "sender")),
                 Payload("", "", Field(ev, "payload"), 0), NO_METADATA))
  }

  function TransferRedeemed(ev: RawEvent): (r: Result<Normalized>)
    ensures r.Ok? ==> Belongs(ev, r.value)
  {
    var sender, src, sequence := Field(ev, "sender"), ParseUint64(Field(ev, "src_chain_id")), ParseUint64(Field(ev, "sequence"));
    if Field(ev, "message_id") == "" then Err("TransferRedeemed missing message_id")
    else if sender == "" then Err("TransferRedeemed missing sender")
    else if src.Err? then Err("TransferRedeemed invalid src_chain_id")
    else if sequence.Err? then Err("TransferRedeemed invalid sequence")
    else Ok(Correlation(CorrelationKey(ev.protocol, "", sequence.value, sender, src.value),
                        DestinationOf(ev, Field(ev, "receiver")), None))
  }

  function CCIPSendRequested(ev: RawEvent): (r: Result<Normalized>)
    ensures r.Ok? ==> Belongs(ev, r.value)
  {
    var sender, src, nonce := Field(ev, "sender"), ParseUint64(Field(ev, "src_chain_id")), ParseUint64(Field(ev, "nonce"));
    if Field(ev, "message_id") == "" then Err("CCIPSendRequested missing message_id")
    else if sender == "" then Err("CCIPSendRequested missing sender")
    else if src.Err? then Err("CCIPSendRequested invalid src_chain_id")
    else if nonce.Err? then Err("CCIPSendRequested invalid nonce")
    else
      var tokens := Field(ev, "token_count");
      Ok(Pend(Field(ev, "message_id"), ev, if tokens != "" && tokens != "0" then TokenTransfer else PlainMessage,
              Source(src.value, ev.txHash, ev.block, ev.timestamp, sender, ev.logIndex),
              Payload(Field(ev, "token"), Field(ev, "amount"), Field(ev, "data"), nonce.value),
              Metadata(Field(ev, "fee_token_amount"), "", 0, 0)))
  }

  function CCIPExecutionStateChanged(ev: RawEvent): (r: Result<Normalized>)
    ensures r.Ok? ==> Belongs(ev, r.value)
  {
    if Field(ev, "message_id") == "" then Err("ExecutionStateChanged missing message_id")
    else if Field(ev, "state") == "" then Err("ExecutionStateChanged missing state")
    else
      var state := ParseUint64(Field(ev, "state"));
      if state.Err? then Err("ExecutionStateChanged invalid state")
      else if state.value != 2 && state.value != 3 then Err("ExecutionStateChanged non-terminal state")
      else Ok(Correlation(CorrelationKey(ev.protocol, Field(ev, "message_id"), 0, "", 0), DestinationOf(ev, ""),
                          Some(if state.value == 2 then Executed else Failed)))
  }

  function Normalize(ev: RawEvent): (r: Result<Normalized>)
    ensures r.Ok? ==> Belongs(ev, r.value)
  {
    match ev.eventType
    case "PacketSent" => PacketSent(ev)
    case "PacketReceived" => PacketReceived(ev)
    case "OFTSent" => OFTSent(ev)
    case "ContractCall" => AxelarContractCall(ev)
    case "ContractCallApproved" => AxelarContractCallApproved(ev)
    case "Executed" => AxelarExecuted(ev)
    case "CCIPSendRequested" => CCIPSendRequested(ev)
    case "ExecutionStateChanged" => CCIPExecutionStateChanged(ev)
    case "LogMessagePublished" => LogMessagePublished(ev)
    case "TransferRedeemed" => TransferRedeemed(ev)
    case _ => Err("unsupported event type")
  }

  /** The store operation an event amounts to. An event that does not normalize, or
      whose integers do not fit their columns, changes nothing: the processor logs
      the error and goes on. */
  function OpOf(ev: RawEvent): (op: Op)
    ensures SoundOp(op)
    ensures op.Put? ==> op.msg.id != "" && op.msg.protocol == ev.protocol && FitsMessage(op.msg)
    ensures op.Correlate? ==> op.key.protocol == ev.protocol && op.dest.chainID == ev.chainID
    ensures op.Correlate? ==> FitsKey(op.key) && FitsDestination(op.dest)
    ensures op.Put? ==> op.msg.source.block == ev.block && op.msg.source.timestamp == ev.timestamp && op.msg.source.logIndex == ev.logIndex
    ensures op.Correlate? ==> op.dest == DestinationOf(ev, op.dest.receiver)
  {
    var r := Normalize(ev);
    if r.Ok? then Stored(ev, r.value) else Skip
  }

  function Stored(ev: RawEvent, n: Normalized): (op: Op)
    requires Belongs(ev, n)
    ensures SoundOp(op)
    ensures op.Put? ==> op.msg.id != "" && op.msg.protocol == ev.protocol && FitsMessage(op.msg)
    ensures op.Correlate? ==> op.key.protocol == ev.protocol && FitsKey(op.key) && FitsDestination(op.dest)
    ensures op.Put? ==> op.msg.source.block == ev.block && op.msg.source.timestamp == ev.timestamp && op.msg.source.logIndex == ev.logIndex
    ensures op.Correlate? ==> op.dest == DestinationOf(ev, op.dest.receiver)
  {
    match n
    case NewMessage(m) => if FitsMessage(m) then Put(m) else Skip
    case Correlation(key, dest, status) =>
      if FitsKey(key) && FitsDestination(dest)
      then Correlate(key, dest, if status.Some? then status.value else Executed)
      else Skip
  }

  // ---- The rules as a table ----

  datatype Rule = Rule(texts: set<string>, numbers: set<string>, idField: string)

  /** What each event type must carry, and where the message id comes from. */
  const RULES: map<string, Rule> := map[
    "PacketSent" := Rule({"guid"}, {"nonce"}, "guid"),
    "PacketReceived" := Rule({"sender"}, {"nonce", "src_chain_id"}, ""),
    "OFTSent" := Rule({"guid"}, {}, "guid"),
    "ContractCall" := Rule({"payload_hash", "sender"}, {}, "payload_hash"),
    "ContractCallApproved" := Rule({"command_id"}, {}, "command_id"),
    "Executed" := Rule({"command_id"}, {}, "command_id"),
    "CCIPSendRequested" := Rule({"message_id", "sender"}, {"src_chain_id", "nonce"}, "message_id"),
    "ExecutionStateChanged" := Rule({"message_id"}, {"state"}, "message_id"),
    "LogMessagePublished" := Rule({"message_id"}, {}, "message_id"),
    "TransferRedeemed" := Rule({"message_id", "sender"}, {"src_chain_id", "sequence"}, "")]

  const CORRELATIONS: set<string> := {"PacketReceived", "Executed", "ExecutionStateChanged", "TransferRedeemed"}

  predicate Meets(ev: RawEvent, rule: Rule) {
    (forall t :: t in rule.texts ==> Field(ev, t) != "") && (forall n :: n in rule.numbers ==> ParseUint64(Field(ev, n)).Ok?)
  }

  predicate Terminal(ev: RawEvent) {
    ev.eventType == "ExecutionStateChanged" ==>
      ParseUint64(Field(ev, "state")) == Ok(2) || ParseUint64(Field(ev, "state")) == Ok(3)
  }

  /** An event normalizes exactly when its type is known and it carries what its rule
      asks for, execution reports only with a terminal state; it correlates exactly
      when it is one of the four destination events; and its id, or the id it looks
      for, is the rule's field. */
  lemma NormalizesExactly(ev: RawEvent)
    ensures Normalize(ev).Ok? <==> ev.eventType in RULES && Meets(ev, RULES[ev.eventType]) && Terminal(ev)
    ensures Normalize(ev).Ok? ==> (Normalize(ev).value.Correlation? <==> ev.eventType in CORRELATIONS)
    ensures Normalize(ev).Ok? && Normalize(ev).value.NewMessage? ==>
              Normalize(ev).value.msg.id == Field(ev, RULES[ev.eventType].idField)
    ensures Normalize(ev).Ok? && Normalize(ev).value.Correlation? ==>
              Normalize(ev).value.key.messageID ==
              if RULES[ev.eventType].idField == "" then "" else Field(ev, RULES[ev.eventType].idField)
  {
    if ev.eventType in RULES {
      if ev.eventType in CORRELATIONS {
        CorrelationRule(ev, RULES[ev.eventType]);
      } else {
        MessageRule(ev, RULES[ev.eventType]);
      }
    }
  }

  lemma CorrelationRule(ev: RawEvent, rule: Rule)
    requires ev.eventType in CORRELATIONS && ev.eventType in RULES && rule == RULES[ev.eventType]
    ensures Normalize(ev).Ok? <==> Meets(ev, rule) && Terminal(ev)
    ensures Normalize(ev).Ok? ==> Normalize(ev).value.Correlation?
    ensures Normalize(ev).Ok? ==>
              Normalize(ev).value.key.messageID == if rule.idField == "" then "" else Field(ev, rule.idField)
  {
  }

  lemma MessageRule(ev: RawEvent, rule: Rule)
    requires ev.eventType in RULES && ev.eventType !in CORRELATIONS && rule == RULES[ev.eventType]
    ensures Normalize(ev).Ok? <==> Meets(ev, rule) && Terminal(ev)
    ensures Normalize(ev).Ok? ==> Normalize(ev).value.NewMessage? && Normalize(ev).value.msg.id == Field(ev, rule.idField)
  {
  }

  // ---- The stored columns as a table ----

  /** The fields that the columns of a new message come from. Without a field a text is
      empty and a number 0; the chain and the transaction are then the event's own. */
  datatype Columns = Columns(
    typ: MessageType, sender: string, srcChain: string, txHash: string, token: string, amount: string, data: string, nonce: string, fee: string)

  const MESSAGES: map<string, Columns> := map[
    "PacketSent" := Columns(PlainMessage, "sender", "", "", "", "", "message", "nonce", ""),
    "OFTSent" := Columns(TokenTransfer, "from_address", "", "", "", "amount_sent", "", "", ""),
    "ContractCall" := Columns(MessageType.ContractCall, "sender", "", "", "", "", "payload", "", ""),
    "ContractCallApproved" := Columns(MessageType.ContractCall, "source_address", "src_chain_id", "source_tx_hash", "", "", "", "", ""),
    "CCIPSendRequested" := Columns(PlainMessage, "sender", "src_chain_id", "", "token", "amount", "data", "nonce", "fee_token_amount"),
    "LogMessagePublished" := Columns(PlainMessage, "sender", "", "", "", "", "payload", "", "")]

  /** The fields that a correlation looks its message up by, and its receiver. */
  datatype Lookup = Lookup(nonce: string, sender: string, srcChain: string, receiver: string)

  const LOOKUPS: map<string, Lookup> := map[
    "PacketReceived" := Lookup("nonce", "sender", "src_chain_id", "receiver"),
    "Executed" := Lookup("", "", "", ""),
    "ExecutionStateChanged" := Lookup("", "", "", ""),
    "TransferRedeemed" := Lookup("sequence", "sender", "src_chain_id", "receiver")]

  function TextOf(ev: RawEvent, field: string): string {
    if field == "" || field !in ev.data then "" else ev.data[field]
  }

  /** A number that is left unchecked is 0 on a syntax error and the largest on overflow. */
  function NumberOf(ev: RawEvent, field: string): nat {
    match ParseUint64(TextOf(ev, field))
    case Ok(n) => n
    case Err(e) => if e == "value out of range" then UINT64_END - 1 else 0
  }

  /** CCIP sends with tokens are transfers. */
  function TypeOf(ev: RawEvent, typ: MessageType): MessageType {
    if ev.eventType == "CCIPSendRequested" && TextOf(ev, "token_count") != "" && TextOf(ev, "token_count") != "0" then TokenTransfer else typ
  }

  function MessageBy(ev: RawEvent, idField: string, c: Columns): Message {
    Message(TextOf(ev, idField), ev.protocol, TypeOf(ev, c.typ), Pending,
            Source(if c.srcChain == "" then ev.chainID else NumberOf(ev, c.srcChain),
                   if c.txHash == "" then ev.txHash else TextOf(ev, c.txHash),
                   ev.block, ev.timestamp, TextOf(ev, c.sender), ev.logIndex),
            Some(Payload(TextOf(ev, c.token), TextOf(ev, c.amount), TextOf(ev, c.data), NumberOf(ev, c.nonce))),
            Some(Metadata(TextOf(ev, c.fee), "", 0, 0)))
  }

  function KeyBy(ev: RawEvent, idField: string, l: Lookup): CorrelationKey {
    CorrelationKey(ev.protocol, TextOf(ev, idField), NumberOf(ev, l.nonce), TextOf(ev, l.sender), NumberOf(ev, l.srcChain))
  }

  /** Only an execution report with state 3 means failure. */
  function OutcomeBy(ev: RawEvent): Status {
    if ev.eventType == "ExecutionStateChanged" && ParseUint64(TextOf(ev, "state")) == Ok(3) then Failed else Executed
  }

  predicate Accepted(ev: RawEvent) {
    ev.eventType in RULES && Meets(ev, RULES[ev.eventType]) && Terminal(ev)
  }

  lemma PlainColumns(ev: RawEvent)
    requires Accepted(ev) && (ev.eventType == "PacketSent" || ev.eventType == "LogMessagePublished")
    ensures Normalize(ev) == Ok(NewMessage(MessageBy(ev, RULES[ev.eventType].idField, MESSAGES[ev.eventType])))
  {
    assert ParseUint64("") == Err("empty string");
    assert Normalize(ev) == if ev.eventType == "PacketSent" then PacketSent(ev) else LogMessagePublished(ev);
  }

  lemma TransferColumns(ev: RawEvent)
    requires Accepted(ev) && (ev.eventType == "OFTSent" || ev.eventType == "CCIPSendRequested")
    ensures Normalize(ev) == Ok(NewMessage(MessageBy(ev, RULES[ev.eventType].idField, MESSAGES[ev.eventType])))
  {
    assert ParseUint64("") == Err("empty string");
    assert Normalize(ev) == if ev.eventType == "OFTSent" then OFTSent(ev) else CCIPSendRequested(ev);
  }

  lemma CallColumns(ev: RawEvent)
    requires Accepted(ev) && (ev.eventType == "ContractCall" || ev.eventType == "ContractCallApproved")
    ensures Normalize(ev) == Ok(NewMessage(MessageBy(ev, RULES[ev.eventType].idField, MESSAGES[ev.eventType])))
  {
    assert ParseUint64("") == Err("empty string");
    assert Normalize(ev) == if ev.eventType == "ContractCall" then AxelarContractCall(ev) else AxelarContractCallApproved(ev);
  }

  lemma MessageColumns(ev: RawEvent)
    requires Accepted(ev) && ev.eventType in MESSAGES
    ensures Normalize(ev) == Ok(NewMessage(MessageBy(ev, RULES[ev.eventType].idField, MESSAGES[ev.eventType])))
  {
    match ev.eventType {
      case "PacketSent" => PlainColumns(ev);
      case "LogMessagePublished" => PlainColumns(ev);
      case "OFTSent" => TransferColumns(ev);
      case "CCIPSendRequested" => TransferColumns(ev);
      case _ => CallColumns(ev);
    }
  }

  lemma CorrelationColumns(ev: RawEvent)
    requires Accepted(ev) && ev.eventType in LOOKUPS
    ensures Normalize(ev).Ok? && Normalize(ev).value.Correlation?
    ensures var n := Normalize(ev).value;
            && n.key == KeyBy(ev, RULES[ev.eventType].idField, LOOKUPS[ev.eventType])
            && n.dest == Destination(ev.chainID, ev.txHash, ev.block, ev.timestamp, TextOf(ev, LOOKUPS[ev.eventType].receiver), ev.logIndex)
            && (if n.status.Some? then n.status.value else Executed) == OutcomeBy(ev)
  {
    assert ParseUint64("") == Err("empty string");
    match ev.eventType {
      case "PacketReceived" => assert Normalize(ev) == PacketReceived(ev);
      case "Executed" => assert Normalize(ev) == AxelarExecuted(ev);
      case "ExecutionStateChanged" => assert Normalize(ev) == CCIPExecutionStateChanged(ev);
      case "TransferRedeemed" => assert Normalize(ev) == TransferRedeemed(ev);
      case _ =>
    }
  }

  /** Integers of BIGINT and INTEGER columns. */
  predicate FitsPlace(chainID: nat, block: nat, logIndex: nat) {
    chainID < 0x8000_0000_0000_0000 && block < 0x8000_0000_0000_0000 && logIndex < 0x8000_0000
  }

  /** The operation of an event, column by column: nothing when the event is not accepted
      or an integer does not fit, otherwise what the tables say. */
  lemma OpOfExactly(ev: RawEvent)
    ensures !Accepted(ev) ==> OpOf(ev) == Skip
    ensures Accepted(ev) ==> (ev.eventType in MESSAGES <==> ev.eventType !in LOOKUPS)
    ensures Accepted(ev) && ev.eventType in MESSAGES ==>
              var m := MessageBy(ev, RULES[ev.eventType].idField, MESSAGES[ev.eventType]);
              OpOf(ev) == if FitsPlace(m.source.chainID, ev.block, ev.logIndex) && m.payload.value.nonce < 0x8000_0000_0000_0000
                          then Put(m) else Skip
    ensures Accepted(ev) && ev.eventType in LOOKUPS ==>
              var key := KeyBy(ev, RULES[ev.eventType].idField, LOOKUPS[ev.eventType]);
              OpOf(ev) ==
                if FitsPlace(ev.chainID, ev.block, ev.logIndex) &&
                   (key.messageID == "" ==> key.nonce < 0x8000_0000_0000_0000 && key.srcChainID < 0x8000_0000_0000_0000)
                then Correlate(key, Destination(ev.chainID, ev.txHash, ev.block, ev.timestamp,
                                                TextOf(ev, LOOKUPS[ev.eventType].receiver), ev.logIndex), OutcomeBy(ev))
                else Skip
  {
    NormalizesExactly(ev);
    if Accepted(ev) {
      if ev.eventType in MESSAGES {
        MessageColumns(ev);
      } else {
        CorrelationColumns(ev);
      }
    }
  }
}
