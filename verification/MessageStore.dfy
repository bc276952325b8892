/** The message store: five tables sharing one key, and what their transactions
    mean for the joined row of a message. */
module StoreModel {
  import opened Basics
  import opened Messages

  /** The joined row of one message without its two bookkeeping times. */
  datatype Core = Core(
    protocol: string, typ: MessageType, status: Status, source: Source,
    dest: Option<Destination>, payload: Option<Payload>, metadata: Option<Metadata>)

  datatype Rec = Rec(core: Core, created: int, updated: int)

  type Store = map<string, Rec>

  function CoreRow(s: Store, id: string): Option<Core> {
    if id in s then Some(s[id].core) else None
  }

  // ---- Upsert ----

  function LastNonEmpty(old_: string, new_: string): string {
    if new_ != "" then new_ else old_
  }

  function MergePayload(stored: Option<Payload>, p: Option<Payload>): Option<Payload> {
    if stored.None? then p
    else if p.None? then stored
    else Some(Payload(LastNonEmpty(stored.value.token, p.value.token),
                      LastNonEmpty(stored.value.amount, p.value.amount),
                      LastNonEmpty(stored.value.data, p.value.data), stored.value.nonce))
  }

  function MergeType(stored: MessageType, t: MessageType): MessageType {
    if t.PlainMessage? then stored else t
  }

  /** First write wins for protocol, status, source, nonce and metadata; the last
      telling write wins for the type and the three payload texts. */
  function Merge(stored: Option<Core>, m: Message): Core {
    match stored
    case None => Core(m.protocol, m.typ, m.status, m.source, None, m.payload, m.metadata)
    case Some(c) => c.(typ := MergeType(c.typ, m.typ), payload := MergePayload(c.payload, m.payload),
                       metadata := if c.metadata.Some? then c.metadata else m.metadata)
  }

  function PutIn(s: Store, m: Message, now: int): Store {
    s[m.id := Rec(Merge(CoreRow(s, m.id), m), if m.id in s then s[m.id].created else now, now)]
  }

  /** A put sets the creation time once and the update time always. */
  lemma PutTimes(s: Store, m: Message, now: int)
    ensures m.id in PutIn(s, m, now) && PutIn(s, m, now)[m.id].updated == now
    ensures PutIn(s, m, now)[m.id].created == if m.id in s then s[m.id].created else now
    ensures forall id :: id != m.id ==> (id in PutIn(s, m, now) <==> id in s) && (id in s ==> PutIn(s, m, now)[id] == s[id])
  {
  }

  // ---- Correlation lookup ----

  /** Does the key name this row, whatever the row's status? */
  predicate Names(key: CorrelationKey, id: string, c: Core) {
    c.protocol == key.protocol && c.payload.Some? &&
    if key.messageID != "" then id == key.messageID
    else c.payload.value.nonce == key.nonce && c.source.sender == key.sender && c.source.chainID == key.srcChainID
  }

  predicate Finds(key: CorrelationKey, id: string, c: Core) {
    c.status.Pending? && Names(key, id, c)
  }

  /** A key finds a row by its columns: always of its own protocol, pending and with a
      payload; by its id alone if it holds one, otherwise by nonce, sender and chain. */
  lemma FindsExactly(key: CorrelationKey, id: string, c: Core)
    ensures Finds(key, id, c) ==> c.protocol == key.protocol && c.status == Pending && c.payload.Some?
    ensures key.messageID != "" && c.protocol == key.protocol && c.status == Pending && c.payload.Some? ==>
              (Finds(key, id, c) <==> id == key.messageID)
    ensures key.messageID == "" && c.protocol == key.protocol && c.status == Pending && c.payload.Some? ==>
              (Finds(key, id, c) <==>
                 c.payload.value.nonce == key.nonce && c.source.sender == key.sender && c.source.chainID == key.srcChainID)
  {
  }

  predicate Matches(s: Store, key: CorrelationKey, id: string) {
    id in s && Finds(key, id, s[id].core)
  }

  // ---- Destination update ----

  function SettleMetadata(c: Core, dest: Destination): Option<Metadata> {
    if dest.timestamp > 0 && c.source.timestamp > 0 && c.metadata.Some?
    then Some(c.metadata.value.(latency := dest.timestamp - c.source.timestamp)) else c.metadata
  }

  function Settle(c: Core, dest: Destination, outcome: Status): Core {
    c.(status := outcome, dest := Some(dest), metadata := SettleMetadata(c, dest))
  }

  function SettleIn(s: Store, id: string, dest: Destination, outcome: Status, now: int): Store
    requires id in s
  {
    s[id := Rec(Settle(s[id].core, dest, outcome), s[id].created, now)]
  }

  /** A settled row keeps its creation time, and every other row is left alone. */
  lemma SettleTimes(s: Store, id: string, dest: Destination, outcome: Status, now: int)
    requires id in s
    ensures var t := SettleIn(s, id, dest, outcome, now);
            t.Keys == s.Keys && t[id].updated == now && t[id].created == s[id].created && forall i :: i in s && i != id ==> t[i] == s[i]
  {
  }
}

module MessageTables {
  import opened Basics
  import opened Messages
  import opened StoreModel

  datatype MessageRow = MessageRow(protocol: string, typ: MessageType, status: Status, created: int, updated: int)

  datatype Tables = Tables(
    messages: map<string, MessageRow>, sources: map<string, Source>, destinations: map<string, Destination>,
    payloads: map<string, Payload>, metadata: map<string, Metadata>)
  {
    /** The foreign keys hold and every message has its source. */
    ghost predicate Valid() {
      sources.Keys == messages.Keys && destinations.Keys <= messages.Keys &&
      payloads.Keys <= messages.Keys && metadata.Keys <= messages.Keys
    }

    ghost function Joined(id: string): Rec
      requires Valid() && id in messages
    {
      var m := messages[id];
      Rec(Core(m.protocol, m.typ, m.status, sources[id], Find(destinations, id), Find(payloads, id), Find(metadata, id)),
          m.created, m.updated)
    }

    ghost function Contents(): Store
      requires Valid()
    {
      map id | id in messages :: Joined(id)
    }
  }

  function Find<V>(table: map<string, V>, id: string): Option<V> {
    if id in table then Some(table[id]) else None
  }

  lemma SameStore(t: Tables, want: Store)
    requires t.Valid() && t.messages.Keys == want.Keys
    requires forall id :: id in t.messages ==> t.Joined(id) == want[id]
    ensures t.Contents() == want
  {
  }

  ghost predicate Upserted(t: Tables, u: Tables, msg: Message, now: int) {
    && u.messages == t.messages[msg.id :=
         if msg.id in t.messages then t.messages[msg.id].(typ := MergeType(t.messages[msg.id].typ, msg.typ), updated := now)
         else MessageRow(msg.protocol, msg.typ, msg.status, now, now)]
    && u.sources == (if msg.id in t.sources then t.sources else t.sources[msg.id := msg.source])
    && u.destinations == t.destinations
    && (if msg.payload.None? then u.payloads == t.payloads
        else u.payloads == t.payloads[msg.id := MergePayload(Find(t.payloads, msg.id), msg.payload).value])
    && u.metadata == (if msg.metadata.None? || msg.id in t.metadata then t.metadata
                      else t.metadata[msg.id := msg.metadata.value])
  }

  lemma UpsertedRow(t: Tables, u: Tables, msg: Message, now: int)
    requires t.Valid() && Upserted(t, u, msg, now)
    ensures u.Valid()
    ensures u.Joined(msg.id) == Rec(Merge(if msg.id in t.messages then Some(t.Joined(msg.id).core) else None, msg),
                                    if msg.id in t.messages then t.Joined(msg.id).created else now, now)
  {
  }

  lemma UpsertedOther(t: Tables, u: Tables, msg: Message, now: int, id: string)
    requires t.Valid() && u.Valid() && Upserted(t, u, msg, now)
    requires id in t.messages && id != msg.id
    ensures u.Joined(id) == t.Joined(id)
  {
  }

  /** The four statements of an upsert, joined, are one merge of the message's row. */
  lemma UpsertJoins(t: Tables, u: Tables, msg: Message, now: int)
    requires t.Valid() && Upserted(t, u, msg, now)
    ensures u.Valid() && u.Contents() == PutIn(t.Contents(), msg, now)
  {
    UpsertedRow(t, u, msg, now);
    forall id | id in t.messages && id != msg.id
      ensures u.Joined(id) == t.Joined(id)
    {
      UpsertedOther(t, u, msg, now, id);
    }
    SameStore(u, PutIn(t.Contents(), msg, now));
  }

  ghost predicate Settled(t: Tables, u: Tables, id: string, dest: Destination, outcome: Status, now: int)
    requires t.Valid() && id in t.messages
  {
    && u.messages == t.messages[id := t.messages[id].(status := outcome, updated := now)]
    && u.sources == t.sources && u.payloads == t.payloads
    && u.destinations == t.destinations[id := dest]
    && u.metadata == (if dest.timestamp > 0 && id in t.metadata && t.sources[id].timestamp > 0
                      then t.metadata[id := t.metadata[id].(latency := dest.timestamp - t.sources[id].timestamp)]
                      else t.metadata)
  }

  lemma SettledRow(t: Tables, u: Tables, id: string, dest: Destination, outcome: Status, now: int)
    requires t.Valid() && id in t.messages && Settled(t, u, id, dest, outcome, now)
    ensures u.Valid()
    ensures u.Joined(id) == Rec(Settle(t.Joined(id).core, dest, outcome), t.Joined(id).created, now)
  {
  }

  lemma SettleJoins(t: Tables, u: Tables, id: string, dest: Destination, outcome: Status, now: int)
    requires t.Valid() && id in t.messages && Settled(t, u, id, dest, outcome, now)
    ensures u.Valid() && u.Contents() == SettleIn(t.Contents(), id, dest, outcome, now)
  {
    SettledRow(t, u, id, dest, outcome, now);
    SameStore(u, SettleIn(t.Contents(), id, dest, outcome, now));
  }

  /** Each public method is one transaction: either all of its statements take
      effect or, when one of them fails, none does. */
  class PostgresMessageStore {
    var messages: map<string, MessageRow>
    var sources: map<string, Source>
    var destinations: map<string, Destination>
    var payloads: map<string, Payload>
    var metadata: map<string, Metadata>

    ghost function AllTables(): Tables
      reads this
    {
      Tables(messages, sources, destinations, payloads, metadata)
    }

    ghost predicate Valid()
      reads this
    {
      AllTables().Valid()
    }

    ghost function Contents(): Store
      requires Valid()
      reads this
    {
      AllTables().Contents()
    }

    constructor ()
      ensures Valid() && Contents() == map[]
    {
      messages, sources, destinations, payloads, metadata := map[], map[], map[], map[], map[];
    }

    // The four statements of the upsert transaction.

    method UpsertMessageRow(msg: Message, now: int)
      modifies this`messages
      ensures messages == old(messages)[msg.id :=
        if msg.id in old(messages)
        then old(messages)[msg.id].(typ := MergeType(old(messages)[msg.id].typ, msg.typ), updated := now)
        else MessageRow(msg.protocol, msg.typ, msg.status, now, now)]
    {
      if msg.id in messages {
        messages := messages[msg.id := messages[msg.id].(typ := MergeType(messages[msg.id].typ, msg.typ), updated := now)];
      } else {
        messages := messages[msg.id := MessageRow(msg.protocol, msg.typ, msg.status, now, now)];
      }
    }

    method InsertSource(id: string, source: Source) returns (ok: bool)
      modifies this`sources
      ensures ok == FitsSource(source)
      ensures sources == if ok && id !in old(sources) then old(sources)[id := source] else old(sources)
    {
      if !FitsSource(source) {
        return false;
      }
      if id !in sources {
        sources := sources[id := source];
      }
      return true;
    }

    method UpsertPayload(id: string, p: Payload) returns (ok: bool)
      modifies this`payloads
      ensures ok == FitsPayload(Some(p))
      ensures ok ==> payloads == old(payloads)[id :=
        MergePayload(Find(old(payloads), id), Some(p)).value]
      ensures !ok ==> payloads == old(payloads)
    {
      if !FitsPayload(Some(p)) {
        return false;
      }
      if id in payloads {
        var q := payloads[id];
        payloads := payloads[id := q.(token := LastNonEmpty(q.token, p.token), amount := LastNonEmpty(q.amount, p.amount),
                                      data := LastNonEmpty(q.data, p.data))];
      } else {
        payloads := payloads[id := p];
      }
      return true;
    }

    method InsertMetadata(id: string, m: Metadata) returns (ok: bool)
      modifies this`metadata
      ensures ok == FitsMetadata(Some(m))
      ensures metadata == if ok && id !in old(metadata) then old(metadata)[id := m] else old(metadata)
    {
      if !FitsMetadata(Some(m)) {
        return false;
      }
      if id !in metadata {
        metadata := metadata[id := m];
      }
      return true;
    }

    method ExecUpsert(msg: Message, now: int) returns (ok: bool)
      requires Valid()
      modifies this
      ensures ok == FitsMessage(msg)
      ensures ok ==> Upserted(old(AllTables()), AllTables(), msg, now)
      ensures !ok ==> destinations == old(destinations) && metadata == old(metadata)
    {
      UpsertMessageRow(msg, now);
      ok := InsertSource(msg.id, msg.source);
      if !ok { return; }
      if msg.payload.Some? {
        ok := UpsertPayload(msg.id, msg.payload.value);
        if !ok { return; }
      }
      if msg.metadata.Some? {
        ok := InsertMetadata(msg.id, msg.metadata.value);
      }
    }

    method UpsertMessage(msg: Message, now: int) returns (r: Result<()>)
      requires Valid()
      modifies this
      ensures Valid()
      ensures r.Ok? == FitsMessage(msg)
      ensures Contents() == if r.Ok? then PutIn(old(Contents()), msg, now) else old(Contents())
    {
      ghost var before := AllTables();
      var messages0, sources0, payloads0 := messages, sources, payloads;
      var ok := ExecUpsert(msg, now);
      if !ok {
        messages, sources, payloads := messages0, sources0, payloads0;
        assert AllTables() == before;
        return Err("rolled back");
      }
      UpsertJoins(before, AllTables(), msg, now);
      return Ok(());
    }

    predicate RowMatches(key: CorrelationKey, id: string)
      requires Valid()
      reads this
      ensures RowMatches(key, id) == Matches(Contents(), key, id)
    {
      id in messages && id in payloads && messages[id].protocol == key.protocol && messages[id].status.Pending? &&
      if key.messageID != "" then id == key.messageID
      else payloads[id].nonce == key.nonce && sources[id].sender == key.sender && sources[id].chainID == key.srcChainID
    }

    /** With several matching rows any one of them may be returned. */
    method FindByCorrelationKey(key: CorrelationKey) returns (r: Result<Option<string>>)
      requires Valid()
      ensures r.Ok? == FitsKey(key)
      ensures r.Ok? && r.value.Some? ==> Matches(Contents(), key, r.value.value)
      ensures r.Ok? && r.value.None? ==> forall id :: !Matches(Contents(), key, id)
    {
      if !FitsKey(key) {
        return Err("querying by correlation key");
      }
      if id :| id in messages && RowMatches(key, id) {
        return Ok(Some(id));
      }
      assert forall id :: RowMatches(key, id) ==> id in messages;
      return Ok(None);
    }

    method UpdateDestination(id: string, dest: Destination, outcome: Status, now: int) returns (r: Result<()>)
      requires Valid()
      modifies this
      ensures Valid()
      ensures r.Ok? == (FitsDestination(dest) && id in old(Contents()))
      ensures Contents() == if r.Ok? then SettleIn(old(Contents()), id, dest, outcome, now) else old(Contents())
    {
      // The destination table references the message.
      if !FitsDestination(dest) || id !in messages {
        return Err("upserting destination");
      }
      ghost var before := AllTables();
      destinations := destinations[id := dest];
      messages := messages[id := messages[id].(status := outcome, updated := now)];
      if dest.timestamp > 0 && id in metadata && sources[id].timestamp > 0 {
        metadata := metadata[id := metadata[id].(latency := dest.timestamp - sources[id].timestamp)];
      }
      SettleJoins(before, AllTables(), id, dest, outcome, now);
      return Ok(());
    }
  }
}
