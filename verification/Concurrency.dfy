/** Many processors sharing one store. A correlation is two transactions, a lookup and
    an update, and other processors may act between them. */
module Concurrency {
  import opened Basics
  import opened Messages
  import opened StoreModel
  import opened Steps
  import opened Lifecycle
  import opened Isolation

  /** One processor runs for each chain and protocol. */
  datatype Proc = Proc(chainID: nat, protocol: string)

  /** A processor that has found a message remembers it, and the event, until it updates. */
  datatype Holding = Holding(id: string, op: Op)

  datatype System = System(store: Store, held: map<Proc, Holding>)

  datatype Action =
    | Upsert(p: Proc, op: Op)
    | Lookup(p: Proc, op: Op)
    | Update(p: Proc)
    | Crash(p: Proc)

  /** The operations of the events that a processor sees. */
  predicate Observes(p: Proc, op: Op) {
    SoundOp(op) && (op.Correlate? ==> op.key.protocol == p.protocol && op.dest.chainID == p.chainID)
  }

  ghost predicate Act(s: System, a: Action, now: Clocks, t: System) {
    match a
    case Upsert(p, op) =>
      p !in s.held && op.Put? && Observes(p, op) && t == s.(store := PutIn(s.store, op.msg, now.app))
    case Lookup(p, op) =>
      p !in s.held && op.Correlate? && Observes(p, op) &&
      if exists id :: Matches(s.store, op.key, id)
      then exists id :: Matches(s.store, op.key, id) && t == s.(held := s.held[p := Holding(id, op)])
      else t == s
    case Update(p) =>
      p in s.held && s.held[p].op.Correlate? && s.held[p].id in s.store &&
      t == System(SettleIn(s.store, s.held[p].id, s.held[p].op.dest, s.held[p].op.outcome, now.db), s.held - {p})
    case Crash(p) => t == s.(held := s.held - {p})
  }

  ghost predicate Behaviour(trace: seq<System>, actions: seq<Action>, clocks: seq<Clocks>) {
    && |trace| == |actions| + 1 && |clocks| == |actions|
    && trace[0] == System(map[], map[])
    && forall i :: 0 <= i < |actions| ==> Act(trace[i], actions[i], clocks[i], trace[i + 1])
  }

  /** An event as the processor that sees it. */
  type Sighting = (Proc, Op)

  /** Every event of the behaviour is one of these. */
  ghost predicate Within(actions: seq<Action>, seen: set<Sighting>) {
    forall i :: 0 <= i < |actions| ==> Sees(actions[i], seen)
  }

  predicate Sees(a: Action, seen: set<Sighting>) {
    match a
    case Upsert(p, op) => (p, op) in seen
    case Lookup(p, op) => (p, op) in seen
    case Update(_) => true
    case Crash(_) => true
  }

  /** Does the first operation store a message that the second one's key names? */
  predicate Pairs(put: Op, op: Op) {
    put.Put? && op.Correlate? && Names(op.key, put.msg.id, Merge(None, put.msg))
  }

  /** Any two correlations that name one stored message are seen by one processor. */
  ghost predicate OneProcessorEach(seen: set<Sighting>) {
    forall x, y, z | x in seen && y in seen && z in seen && Pairs(z.1, x.1) && Pairs(z.1, y.1) :: x.0 == y.0
  }

  ghost predicate Sensible(seen: set<Sighting>) {
    forall x :: x in seen ==> Observes(x.0, x.1)
  }

  /** A stored row has the origin of one of the messages seen. */
  ghost predicate Stems(s: System, seen: set<Sighting>, id: string)
    requires id in s.store
  {
    exists z :: z in seen && StemsFrom(s.store[id].core, id, z.1)
  }

  predicate StemsFrom(c: Core, id: string, put: Op) {
    put.Put? && put.msg.id == id && SoundOp(put) && c.protocol == put.msg.protocol && c.source == put.msg.source &&
    c.payload.Some? && c.payload.value.nonce == put.msg.payload.value.nonce
  }

  /** Who holds a message holds it while it is pending and still named by the event. */
  ghost predicate Safe(s: System, seen: set<Sighting>) {
    && (forall id :: id in s.store ==> Stems(s, seen, id))
    && (forall p :: p in s.held ==> HoldsPending(s, seen, p))
  }

  lemma NamedIsPaired(c: Core, id: string, put: Op, op: Op)
    requires StemsFrom(c, id, put) && op.Correlate? && Names(op.key, id, c)
    ensures Pairs(put, op)
  {
  }

  lemma HoldersAgree(s: System, seen: set<Sighting>, id: string, p: Proc, q: Proc, x: Op, y: Op)
    requires id in s.store && Stems(s, seen, id) && OneProcessorEach(seen)
    requires (p, x) in seen && x.Correlate? && Names(x.key, id, s.store[id].core)
    requires (q, y) in seen && y.Correlate? && Names(y.key, id, s.store[id].core)
    ensures p == q
  {
    var z :| z in seen && StemsFrom(s.store[id].core, id, z.1);
    NamedIsPaired(s.store[id].core, id, z.1, x);
    NamedIsPaired(s.store[id].core, id, z.1, y);
    assert Pairs(z.1, (p, x).1) && Pairs(z.1, (q, y).1);
  }

  lemma ActKeepsStems(s: System, a: Action, now: Clocks, t: System, seen: set<Sighting>)
    requires Safe(s, seen) && Sensible(seen) && Act(s, a, now, t) && Sees(a, seen)
    ensures forall id :: id in t.store ==> Stems(t, seen, id)
  {
    forall id | id in t.store
      ensures Stems(t, seen, id)
    {
      if id in s.store {
        assert Stems(s, seen, id);
        var z :| z in seen && StemsFrom(s.store[id].core, id, z.1);
        assert StemsFrom(t.store[id].core, id, z.1);
      } else {
        assert StemsFrom(t.store[id].core, id, (a.p, a.op).1);
      }
    }
  }

  ghost predicate HoldsPending(s: System, seen: set<Sighting>, p: Proc)
    requires p in s.held
  {
    s.held[p].op.Correlate? && Observes(p, s.held[p].op) && (p, s.held[p].op) in seen &&
    Matches(s.store, s.held[p].op.key, s.held[p].id)
  }

  lemma HoldersDiffer(s: System, seen: set<Sighting>, p: Proc, q: Proc)
    requires OneProcessorEach(seen) && p in s.held && q in s.held && p != q
    requires HoldsPending(s, seen, p) && HoldsPending(s, seen, q) && Stems(s, seen, s.held[p].id)
    ensures s.held[p].id != s.held[q].id
  {
    var id := s.held[p].id;
    if s.held[q].id == id {
      HoldersAgree(s, seen, id, p, q, s.held[p].op, s.held[q].op);
    }
  }

  lemma SettleElsewhere(s: Store, id: string, dest: Destination, outcome: Status, now: int, key: CorrelationKey, other: string)
    requires id in s && Matches(s, key, other) && other != id
    ensures Matches(SettleIn(s, id, dest, outcome, now), key, other)
  {
  }

  lemma UpdateKeepsHeld(s: System, p: Proc, t: System, q: Proc, seen: set<Sighting>, now: int)
    requires p in s.held && q in s.held && q in t.held && t.held[q] == s.held[q] && HoldsPending(s, seen, q)
    requires s.held[p].op.Correlate? && s.held[p].id in s.store && s.held[p].id != s.held[q].id
    requires t.store == SettleIn(s.store, s.held[p].id, s.held[p].op.dest, s.held[p].op.outcome, now)
    ensures HoldsPending(t, seen, q)
  {
    var mine, other := s.held[p], s.held[q];
    SettleElsewhere(s.store, mine.id, mine.op.dest, mine.op.outcome, now, other.op.key, other.id);
  }

  lemma OtherActKeepsHeld(s: System, a: Action, now: Clocks, t: System, seen: set<Sighting>, p: Proc)
    requires Safe(s, seen) && Sensible(seen) && Act(s, a, now, t) && Sees(a, seen) && !a.Update? && p in t.held
    ensures HoldsPending(t, seen, p)
  {
  }

  lemma ActKeepsSafe(s: System, a: Action, now: Clocks, t: System, seen: set<Sighting>)
    requires Safe(s, seen) && OneProcessorEach(seen) && Sensible(seen) && Act(s, a, now, t) && Sees(a, seen)
    ensures Safe(t, seen)
  {
    ActKeepsStems(s, a, now, t, seen);
    forall p | p in t.held
      ensures HoldsPending(t, seen, p)
    {
      if a.Update? {
        assert HoldsPending(s, seen, a.p) && Stems(s, seen, s.held[a.p].id);
        HoldersDiffer(s, seen, a.p, p);
        UpdateKeepsHeld(s, a.p, t, p, seen, now.db);
      } else {
        OtherActKeepsHeld(s, a, now, t, seen, p);
      }
    }
  }

  /** In every reachable state a processor between lookup and update holds a message
      that is still pending. */
  lemma {:induction false} HeldIsPending(trace: seq<System>, actions: seq<Action>, clocks: seq<Clocks>, seen: set<Sighting>, n: nat)
    requires Behaviour(trace, actions, clocks) && Within(actions, seen) && Sensible(seen) && OneProcessorEach(seen)
    requires n <= |actions|
    ensures Safe(trace[n], seen)
  {
    if n > 0 {
      HeldIsPending(trace, actions, clocks, seen, n - 1);
      assert Act(trace[n - 1], actions[n - 1], clocks[n - 1], trace[n - 1 + 1]);
      ActKeepsSafe(trace[n - 1], actions[n - 1], clocks[n - 1], trace[n], seen);
    }
  }

  /** Each action is one atomic operation on the store: the update carries the whole
      correlation, and so does a lookup that finds nothing; a lookup that finds a message
      or a crash carries none of it. */
  ghost function Effect(s: System, a: Action): Op {
    match a
    case Upsert(_, op) => op
    case Lookup(_, op) => if op.Correlate? && exists id :: Matches(s.store, op.key, id) then Skip else op
    case Update(p) => if p in s.held then s.held[p].op else Skip
    case Crash(_) => Skip
  }

  ghost function Effects(trace: seq<System>, actions: seq<Action>): (ops: seq<Op>)
    requires |trace| == |actions| + 1
    ensures |ops| == |actions|
  {
    seq(|actions|, i requires 0 <= i < |actions| => Effect(trace[i], actions[i]))
  }

  ghost function Stores(trace: seq<System>): (stores: seq<Store>)
    ensures |stores| == |trace|
  {
    seq(|trace|, i requires 0 <= i < |trace| => trace[i].store)
  }

  lemma ActIsStep(s: System, a: Action, now: Clocks, t: System, seen: set<Sighting>)
    requires Safe(s, seen) && Act(s, a, now, t)
    ensures Step(s.store, Effect(s, a), now, t.store) && SoundOp(Effect(s, a))
  {
  }

  /** The concurrent system does nothing that one processor taking the operations one
      after the other could not do, so all that holds of runs holds of it. */
  lemma Linearizes(trace: seq<System>, actions: seq<Action>, clocks: seq<Clocks>, seen: set<Sighting>)
    requires Behaviour(trace, actions, clocks) && Within(actions, seen) && Sensible(seen) && OneProcessorEach(seen)
    ensures Run(Stores(trace), Effects(trace, actions), clocks) && Sound(Effects(trace, actions))
  {
    forall i | 0 <= i < |actions|
      ensures Step(trace[i].store, Effect(trace[i], actions[i]), clocks[i], trace[i + 1].store)
      ensures SoundOp(Effect(trace[i], actions[i]))
    {
      HeldIsPending(trace, actions, clocks, seen, i);
      assert Act(trace[i], actions[i], clocks[i], trace[i + 1]);
      ActIsStep(trace[i], actions[i], clocks[i], trace[i + 1], seen);
    }
  }

  /** In particular the lifecycle invariant holds in every reachable state, and what it
      fixes for a message stays fixed. */
  lemma ConcurrentLifecycle(trace: seq<System>, actions: seq<Action>, clocks: seq<Clocks>, seen: set<Sighting>, i: nat, j: nat)
    requires Behaviour(trace, actions, clocks) && Within(actions, seen) && Sensible(seen) && OneProcessorEach(seen)
    requires i <= j <= |actions|
    ensures AllOk(trace[j].store)
    ensures forall id :: id in trace[i].store ==> id in trace[j].store && Evolves(trace[i].store[id], trace[j].store[id])
  {
    Linearizes(trace, actions, clocks, seen);
    LifecycleOfRun(Stores(trace), Effects(trace, actions), clocks, i, j);
    assert Stores(trace)[i] == trace[i].store && Stores(trace)[j] == trace[j].store;
  }

  /** Two behaviours in which the operations on a message take effect in the same order
      end with the same row of it, whichever processors acted and however their lookups,
      updates and crashes interleaved. */
  lemma BehavioursAgree(trace1: seq<System>, actions1: seq<Action>, clocks1: seq<Clocks>,
                        trace2: seq<System>, actions2: seq<Action>, clocks2: seq<Clocks>,
                        seen: set<Sighting>, dir: Directory, id: string)
    requires Sensible(seen) && OneProcessorEach(seen)
    requires Behaviour(trace1, actions1, clocks1) && Within(actions1, seen)
    requires Behaviour(trace2, actions2, clocks2) && Within(actions2, seen)
    requires Unambiguous(Effects(trace1, actions1), dir) && Unambiguous(Effects(trace2, actions2), dir)
    requires Touching(dir, id, Effects(trace1, actions1), |actions1|) == Touching(dir, id, Effects(trace2, actions2), |actions2|)
    ensures CoreRow(trace1[|actions1|].store, id) == CoreRow(trace2[|actions2|].store, id)
  {
    Linearizes(trace1, actions1, clocks1, seen);
    Linearizes(trace2, actions2, clocks2, seen);
    assert Stores(trace1)[0] == trace1[0].store == map[] && Stores(trace2)[0] == trace2[0].store == map[];
    InterleavingIndependence(Stores(trace1), Effects(trace1, actions1), clocks1,
                             Stores(trace2), Effects(trace2, actions2), clocks2, dir, id);
    assert Stores(trace1)[|actions1|] == trace1[|actions1|].store && Stores(trace2)[|actions2|] == trace2[|actions2|].store;
  }

  // ---- Exactly when no terminal status is overwritten ----

  predicate UpdatesPending(s: System, a: Action) {
    a.Update? ==> a.p in s.held && s.held[a.p].id in s.store && s.store[s.held[a.p].id].core.status.Pending?
  }

  /** No behaviour over these events ever updates a message that is already settled. */
  ghost predicate NeverOverwrites(seen: set<Sighting>) {
    forall trace, actions, clocks, i | Behaviour(trace, actions, clocks) && Within(actions, seen) && 0 <= i < |actions| ::
      UpdatesPending(trace[i], actions[i])
  }

  lemma OneProcessorIsSafe(seen: set<Sighting>)
    requires Sensible(seen) && OneProcessorEach(seen)
    ensures NeverOverwrites(seen)
  {
    forall trace, actions, clocks, i | Behaviour(trace, actions, clocks) && Within(actions, seen) && 0 <= i < |actions|
      ensures UpdatesPending(trace[i], actions[i])
    {
      HeldIsPending(trace, actions, clocks, seen, i);
      assert Act(trace[i], actions[i], clocks[i], trace[i + 1]);
    }
  }

  /** Two processors that see correlations naming one message race: both look it up, and
      the second update overwrites the first. */
  lemma TwoProcessorsRace(x: Sighting, y: Sighting, z: Sighting, now: Clocks)
    returns (trace: seq<System>, actions: seq<Action>)
    requires Observes(x.0, x.1) && Observes(y.0, y.1) && Observes(z.0, z.1)
    requires Pairs(z.1, x.1) && Pairs(z.1, y.1) && x.0 != y.0
    ensures |actions| == 5 && Behaviour(trace, actions, seq(5, i => now)) && Within(actions, {x, y, z})
    ensures actions[4].Update? && !UpdatesPending(trace[4], actions[4])
    ensures var id := z.1.msg.id;
            && id in trace[4].store && trace[4].store[id].core.status == x.1.outcome
            && id in trace[5].store && trace[5].store[id].core.status == y.1.outcome
  {
    var m, a, b := z.1.msg, x.0, y.0;
    var s0 := System(map[], map[]);
    var s1 := s0.(store := PutIn(s0.store, m, now.app));
    assert Matches(s1.store, x.1.key, m.id) && Matches(s1.store, y.1.key, m.id);
    var s2 := s1.(held := s1.held[a := Holding(m.id, x.1)]);
    var s3 := s2.(held := s2.held[b := Holding(m.id, y.1)]);
    var s4 := System(SettleIn(s3.store, m.id, x.1.dest, x.1.outcome, now.db), s3.held - {a});
    var s5 := System(SettleIn(s4.store, m.id, y.1.dest, y.1.outcome, now.db), s4.held - {b});
    trace := [s0, s1, s2, s3, s4, s5];
    actions := [Upsert(z.0, z.1), Lookup(a, x.1), Lookup(b, y.1), Update(a), Update(b)];
    assert Act(s0, actions[0], now, s1) && Act(s1, actions[1], now, s2) && Act(s2, actions[2], now, s3);
    assert Act(s3, actions[3], now, s4) && Act(s4, actions[4], now, s5);
  }

  lemma OverwriteIn(seen: set<Sighting>, trace: seq<System>, actions: seq<Action>, clocks: seq<Clocks>, i: nat)
    requires Behaviour(trace, actions, clocks) && Within(actions, seen) && i < |actions|
    requires !UpdatesPending(trace[i], actions[i])
    ensures !NeverOverwrites(seen)
  {
  }

  lemma RaceOverwrites(seen: set<Sighting>, x: Sighting, y: Sighting, z: Sighting)
    requires x in seen && y in seen && z in seen && Sensible(seen)
    requires Pairs(z.1, x.1) && Pairs(z.1, y.1) && x.0 != y.0
    ensures !NeverOverwrites(seen)
  {
    var trace, actions := TwoProcessorsRace(x, y, z, Clocks(0, 0));
    OverwriteIn(seen, trace, actions, seq(5, i => Clocks(0, 0)), 4);
  }

  /** Over a set of events, each with the processor that sees it, whatever the order in
      which they are handled: no terminal status can ever be overwritten if and only if
      any two correlations that name one message are seen by the same processor. */
  lemma OverwritesExactly(seen: set<Sighting>)
    requires Sensible(seen)
    ensures NeverOverwrites(seen) <==> OneProcessorEach(seen)
  {
    if OneProcessorEach(seen) {
      OneProcessorIsSafe(seen);
    } else {
      var x, y, z :| x in seen && y in seen && z in seen && Pairs(z.1, x.1) && Pairs(z.1, y.1) && x.0 != y.0;
      RaceOverwrites(seen, x, y, z);
    }
  }

  /** Processors differ by chain alone here, so the condition can be read off the events:
      the destinations of any two such correlations are on one chain. */
  lemma OneProcessorIsOneChain(seen: set<Sighting>)
    requires Sensible(seen)
    ensures OneProcessorEach(seen) <==>
            forall x, y, z | x in seen && y in seen && z in seen && Pairs(z.1, x.1) && Pairs(z.1, y.1) ::
              x.1.dest.chainID == y.1.dest.chainID
  {
  }

  /** And what an update then writes is its event's status on a pending message. */
  lemma NoTerminalOverwritten(trace: seq<System>, actions: seq<Action>, clocks: seq<Clocks>, seen: set<Sighting>, i: nat)
    requires Behaviour(trace, actions, clocks) && Within(actions, seen) && Sensible(seen) && OneProcessorEach(seen)
    requires i < |actions| && actions[i].Update?
    ensures actions[i].p in trace[i].held
    ensures var h := trace[i].held[actions[i].p];
            && h.id in trace[i].store && trace[i].store[h.id].core.status.Pending?
            && h.id in trace[i + 1].store && trace[i + 1].store[h.id].core.status == h.op.outcome
  {
    HeldIsPending(trace, actions, clocks, seen, i);
    assert Act(trace[i], actions[i], clocks[i], trace[i + 1]);
  }
}
