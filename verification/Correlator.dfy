/** One event against the store: the step relation, its effect on a single message,
    and the correlator that takes the step. */
module Steps {
  import opened Basics
  import opened Messages
  import opened StoreModel

  /** The readings of the application clock and of the database clock. */
  datatype Clocks = Clocks(app: int, db: int)

  ghost predicate Step(s: Store, op: Op, now: Clocks, t: Store) {
    match op
    case Skip => t == s
    case Put(m) => t == PutIn(s, m, now.app)
    case Correlate(key, dest, outcome) =>
      || (exists id :: Matches(s, key, id) && t == SettleIn(s, id, dest, outcome, now.db))
      || ((forall id :: !Matches(s, key, id)) && t == s)
  }

  /** What one operation does to the row of one message, seen on its own. */
  function CoreStep(id: string, c: Option<Core>, op: Op): Option<Core> {
    match op
    case Skip => c
    case Put(m) => if m.id == id then Some(Merge(c, m)) else c
    case Correlate(key, dest, outcome) =>
      if c.Some? && Finds(key, id, c.value) then Some(Settle(c.value, dest, outcome)) else c
  }

  /** The row after the first `n` operations. */
  function After(id: string, c: Option<Core>, ops: seq<Op>, n: nat): Option<Core>
    requires n <= |ops|
  {
    if n == 0 then c else CoreStep(id, After(id, c, ops, n - 1), ops[n - 1])
  }

  ghost predicate Run(trace: seq<Store>, ops: seq<Op>, clocks: seq<Clocks>) {
    |trace| == |ops| + 1 && |clocks| == |ops| &&
    forall i :: 0 <= i < |ops| ==> Step(trace[i], ops[i], clocks[i], trace[i + 1])
  }

  ghost predicate Sound(ops: seq<Op>) {
    forall i :: 0 <= i < |ops| ==> SoundOp(ops[i])
  }
}

module Correlator {
  import opened Basics
  import opened Messages
  import opened StoreModel
  import opened MessageTables
  import opened Steps
  import opened Normalizer

  /** Processes one decoded event. Whether or not an error is reported, the store
      takes exactly the step of the event's operation. */
  method Process(store: PostgresMessageStore, ev: RawEvent, now: Clocks) returns (r: Result<()>)
    requires store.Valid()
    modifies store
    ensures store.Valid()
    ensures Step(old(store.Contents()), OpOf(ev), now, store.Contents())
    ensures r.Err? ==> OpOf(ev).Skip? && store.Contents() == old(store.Contents())
  {
    var result := Normalize(ev);
    if result.Err? {
      return Err(result.error);
    }
    match result.value {
      case NewMessage(m) =>
        r := store.UpsertMessage(m, now.app);
      case Correlation(key, dest, status) =>
        r := Correlate(store, key, dest, status, now);
    }
  }

  method ProcessLog(store: PostgresMessageStore, log: Option<RawEvent>, now: Clocks, ghost op: Op)
    requires store.Valid() && op == if log.Some? then OpOf(log.value) else Skip
    modifies store
    ensures store.Valid() && Step(old(store.Contents()), op, now, store.Contents())
  {
    if log.Some? {
      var _ := Process(store, log.value, now);
    }
  }

  /** What a run has put into the store stays there. */
  lemma {:induction false} PutsAreStored(trace: seq<Store>, ops: seq<Op>, clocks: seq<Clocks>, i: nat, n: nat)
    requires Run(trace, ops, clocks) && i < n <= |ops| && ops[i].Put?
    ensures ops[i].msg.id in trace[n]
  {
    assert Step(trace[n - 1], ops[n - 1], clocks[n - 1], trace[n - 1 + 1]);
    if i < n - 1 {
      PutsAreStored(trace, ops, clocks, i, n - 1);
    }
  }

  ghost predicate RunSoFar(trace: seq<Store>, ops: seq<Op>, clocks: seq<Clocks>, n: nat) {
    n <= |ops| == |clocks| && |trace| == n + 1 && forall i :: 0 <= i < n ==> Step(trace[i], ops[i], clocks[i], trace[i + 1])
  }

  lemma RunGoesOn(trace: seq<Store>, ops: seq<Op>, clocks: seq<Clocks>, n: nat, t: Store)
    requires RunSoFar(trace, ops, clocks, n) && n < |ops| && Step(trace[n], ops[n], clocks[n], t)
    ensures RunSoFar(trace + [t], ops, clocks, n + 1)
  {
  }

  /** The event loop of one batch is a run of the store over the operations of the
      batch's logs: no failing log or event stops it or leaves a trace, and every message
      whose source event is among them has a row afterwards. */
  method IndexLogs(store: PostgresMessageStore, logs: seq<Option<RawEvent>>, clocks: seq<Clocks>)
    returns (ghost trace: seq<Store>, ghost ops: seq<Op>)
    requires store.Valid() && |clocks| == |logs|
    modifies store
    ensures store.Valid()
    ensures |ops| == |logs| && Sound(ops)
    ensures forall i :: 0 <= i < |logs| && logs[i].Some? ==> ops[i] == OpOf(logs[i].value)
    ensures forall i :: 0 <= i < |logs| && logs[i].None? ==> ops[i] == Skip
    ensures Run(trace, ops, clocks)
    ensures trace[0] == old(store.Contents()) && trace[|logs|] == store.Contents()
    ensures forall i :: 0 <= i < |logs| && logs[i].Some? && OpOf(logs[i].value).Put? ==> OpOf(logs[i].value).msg.id in store.Contents()
  {
    trace := [store.Contents()];
    ops := seq(|logs|, i requires 0 <= i < |logs| => if logs[i].Some? then OpOf(logs[i].value) else Skip);
    for i := 0 to |logs|
      invariant store.Valid() && RunSoFar(trace, ops, clocks, i)
      invariant trace[0] == old(store.Contents()) && trace[i] == store.Contents()
    {
      ProcessLog(store, logs[i], clocks[i], ops[i]);
      RunGoesOn(trace, ops, clocks, i, store.Contents());
      trace := trace + [store.Contents()];
    }
    AllPutsAreStored(trace, ops, clocks);
  }

  lemma AllPutsAreStored(trace: seq<Store>, ops: seq<Op>, clocks: seq<Clocks>)
    requires Run(trace, ops, clocks)
    ensures forall i :: 0 <= i < |ops| && ops[i].Put? ==> ops[i].msg.id in trace[|ops|]
  {
    forall i | 0 <= i < |ops| && ops[i].Put?
      ensures ops[i].msg.id in trace[|ops|]
    {
      PutsAreStored(trace, ops, clocks, i, |ops|);
    }
  }

  method Correlate(store: PostgresMessageStore, key: CorrelationKey, dest: Destination, status: Option<Status>, now: Clocks)
    returns (r: Result<()>)
    requires store.Valid()
    modifies store
    ensures store.Valid()
    ensures FitsKey(key) && FitsDestination(dest) ==>
              Step(old(store.Contents()), Op.Correlate(key, dest, if status.Some? then status.value else Executed), now, store.Contents())
    ensures r.Err? ==> !FitsKey(key) || !FitsDestination(dest)
    ensures !FitsKey(key) || !FitsDestination(dest) ==> store.Contents() == old(store.Contents())
  {
    var found := store.FindByCorrelationKey(key);
    if found.Err? {
      return Err(found.error);
    }
    if found.value.None? {
      return Ok(());
    }
    var outcome := if status.Some? then status.value else Executed;
    r := store.UpdateDestination(found.value.value, dest, outcome, now.db);
  }
}
