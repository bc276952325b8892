/** What every run of operations keeps about every message, with no assumption on
    the order of events or on the uniqueness of correlation keys. */
module Lifecycle {
  import opened Basics
  import opened Messages
  import opened StoreModel
  import opened Steps

  function LatencyOf(c: Core): int {
    if c.dest.Some? && c.dest.value.timestamp > 0 && c.source.timestamp > 0
    then c.dest.value.timestamp - c.source.timestamp else 0
  }

  predicate LifeOk(c: Core) {
    && (c.status.Pending? <==> c.dest.None?)
    && c.payload.Some? && c.metadata.Some?
    && c.metadata.value.latency == LatencyOf(c)
  }

  /** A later row of the same message: written-once parts are kept, and once the
      status is terminal so are status, destination and latency. */
  predicate Evolves(c: Rec, d: Rec) {
    && d.created == c.created
    && d.core.protocol == c.core.protocol && d.core.source == c.core.source
    && (c.core.payload.Some? ==> d.core.payload.Some? && d.core.payload.value.nonce == c.core.payload.value.nonce)
    && (c.core.metadata.Some? ==> d.core.metadata.Some? && d.core.metadata.value.fee == c.core.metadata.value.fee)
    && (!c.core.status.Pending? ==>
          d.core.status == c.core.status && d.core.dest == c.core.dest &&
          (c.core.metadata.Some? ==> d.core.metadata == c.core.metadata))
  }

  ghost predicate AllOk(s: Store) {
    forall id :: id in s ==> LifeOk(s[id].core)
  }

  lemma StepKeeps(s: Store, op: Op, now: Clocks, t: Store)
    requires Step(s, op, now, t) && SoundOp(op) && AllOk(s)
    ensures AllOk(t)
    ensures forall id :: id in s ==> id in t && Evolves(s[id], t[id])
  {
  }

  /** In every reachable store: pending exactly when there is no destination, latency
      exactly the difference of two positive timestamps or 0; and no later step
      undoes a written-once value or a terminal status. */
  lemma {:induction false} LifecycleOfRun(trace: seq<Store>, ops: seq<Op>, clocks: seq<Clocks>, i: nat, j: nat)
    requires Run(trace, ops, clocks) && Sound(ops) && trace[0] == map[]
    requires i <= j <= |ops|
    ensures AllOk(trace[j])
    ensures forall id :: id in trace[i] ==> id in trace[j] && Evolves(trace[i][id], trace[j][id])
  {
    if i < j {
      LifecycleOfRun(trace, ops, clocks, i, j - 1);
      StepKeeps(trace[j - 1], ops[j - 1], clocks[j - 1], trace[j]);
    } else if 0 < j {
      LifecycleOfRun(trace, ops, clocks, j - 1, j - 1);
      StepKeeps(trace[j - 1], ops[j - 1], clocks[j - 1], trace[j]);
    }
  }
}

/** Correlation keys that each name at most one message, and what follows: the row
    of a message is decided by the operations that touch that message alone. */
module Isolation {
  import opened Basics
  import opened Messages
  import opened StoreModel
  import opened Steps

  /** The message that each composite key belongs to. */
  type Directory = map<CorrelationKey, string>

  function Owner(dir: Directory, key: CorrelationKey): Option<string> {
    if key.messageID != "" then Some(key.messageID)
    else if key in dir then Some(dir[key])
    else None
  }

  /** Every message that could be stored under a key of this stream is the key's owner. */
  ghost predicate Unambiguous(ops: seq<Op>, dir: Directory) {
    forall i, j | 0 <= i < |ops| && 0 <= j < |ops| && ops[i].Put? && ops[j].Correlate? &&
                  Names(ops[j].key, ops[i].msg.id, Merge(None, ops[i].msg)) ::
      Owner(dir, ops[j].key) == Some(ops[i].msg.id)
  }

  ghost predicate Owned(s: Store, ops: seq<Op>, dir: Directory) {
    forall id, j | id in s && 0 <= j < |ops| && ops[j].Correlate? && Names(ops[j].key, id, s[id].core) ::
      Owner(dir, ops[j].key) == Some(id)
  }

  predicate Whole(c: Option<Core>) {
    c.Some? ==> c.value.payload.Some? && c.value.metadata.Some?
  }

  ghost predicate WholeStore(s: Store) {
    forall id :: id in s ==> Whole(Some(s[id].core))
  }

  /** A store step is the single-message step for every message at once. */
  lemma StepIsPerMessage(s: Store, op: Op, now: Clocks, t: Store, ops: seq<Op>, dir: Directory, k: nat, id: string)
    requires k < |ops| && ops[k] == op && Step(s, op, now, t)
    requires Owned(s, ops, dir)
    ensures CoreRow(t, id) == CoreStep(id, CoreRow(s, id), op)
  {
    if op.Correlate? && t != s {
      var hit :| Matches(s, op.key, hit) && t == SettleIn(s, hit, op.dest, op.outcome, now.db);
      assert Owner(dir, ops[k].key) == Some(hit);
    } else if op.Correlate? && Matches(s, op.key, id) {
      assert t == SettleIn(s, id, op.dest, op.outcome, now.db) by {
        assert forall other :: Matches(s, op.key, other) ==> other == id by {
          assert Owner(dir, ops[k].key) == Some(id);
        }
      }
    }
  }

  lemma StepKeepsOwned(s: Store, op: Op, now: Clocks, t: Store, ops: seq<Op>, dir: Directory, k: nat)
    requires k < |ops| && ops[k] == op && Step(s, op, now, t)
    requires Sound(ops) && Unambiguous(ops, dir) && Owned(s, ops, dir) && WholeStore(s)
    ensures Owned(t, ops, dir) && WholeStore(t)
  {
    forall id, j | id in t && 0 <= j < |ops| && ops[j].Correlate? && Names(ops[j].key, id, t[id].core)
      ensures Owner(dir, ops[j].key) == Some(id)
    {
      if id in s {
        assert Names(ops[j].key, id, s[id].core);
      } else {
        assert op.Put? && op.msg.id == id && t[id].core == Merge(None, op.msg);
        assert Names(ops[j].key, ops[k].msg.id, Merge(None, ops[k].msg));
      }
    }
  }

  /** The store after any run, read off message by message. */
  lemma {:induction false} RunIsPerMessage(trace: seq<Store>, ops: seq<Op>, clocks: seq<Clocks>, dir: Directory, n: nat, id: string)
    requires Run(trace, ops, clocks) && Sound(ops) && Unambiguous(ops, dir)
    requires Owned(trace[0], ops, dir) && WholeStore(trace[0])
    requires n <= |ops|
    ensures Owned(trace[n], ops, dir) && WholeStore(trace[n])
    ensures CoreRow(trace[n], id) == After(id, CoreRow(trace[0], id), ops, n)
  {
    if n > 0 {
      RunIsPerMessage(trace, ops, clocks, dir, n - 1, id);
      StepKeepsOwned(trace[n - 1], ops[n - 1], clocks[n - 1], trace[n], ops, dir, n - 1);
      StepIsPerMessage(trace[n - 1], ops[n - 1], clocks[n - 1], trace[n], ops, dir, n - 1, id);
    }
  }

  // ---- Interleaving independence ----

  predicate Touches(dir: Directory, id: string, op: Op) {
    match op
    case Put(m) => m.id == id
    case Correlate(key, _, _) => Owner(dir, key) == Some(id)
    case Skip => false
  }

  function Touching(dir: Directory, id: string, ops: seq<Op>, n: nat): (r: seq<Op>)
    requires n <= |ops|
  {
    if n == 0 then []
    else Touching(dir, id, ops, n - 1) + if Touches(dir, id, ops[n - 1]) then [ops[n - 1]] else []
  }

  /** A row grown from nothing by these operations is named only by keys it owns. */
  lemma {:induction false} NamedByOwner(id: string, ops: seq<Op>, dir: Directory, n: nat, j: nat)
    requires Sound(ops) && Unambiguous(ops, dir) && n <= |ops|
    requires j < |ops| && ops[j].Correlate?
    ensures Whole(After(id, None, ops, n))
    ensures var c := After(id, None, ops, n);
            c.Some? && Names(ops[j].key, id, c.value) ==> Owner(dir, ops[j].key) == Some(id)
  {
    if n > 0 {
      NamedByOwner(id, ops, dir, n - 1, j);
    }
  }

  lemma {:induction false} AfterPrefix(id: string, c: Option<Core>, ops: seq<Op>, more: seq<Op>, n: nat)
    requires n <= |ops|
    ensures After(id, c, ops + more, n) == After(id, c, ops, n)
  {
    if n > 0 {
      AfterPrefix(id, c, ops, more, n - 1);
    }
  }

  lemma {:induction false} OnlyTouchingMatter(id: string, ops: seq<Op>, dir: Directory, n: nat)
    requires Sound(ops) && Unambiguous(ops, dir) && n <= |ops|
    ensures var mine := Touching(dir, id, ops, n);
            After(id, None, ops, n) == After(id, None, mine, |mine|)
  {
    if n > 0 {
      OnlyTouchingMatter(id, ops, dir, n - 1);
      var op, rest := ops[n - 1], Touching(dir, id, ops, n - 1);
      if Touches(dir, id, op) {
        AfterPrefix(id, None, rest, [op], |rest|);
        assert Touching(dir, id, ops, n) == rest + [op];
      } else {
        assert Touching(dir, id, ops, n) == rest;
        if op.Correlate? {
          NamedByOwner(id, ops, dir, n - 1, n - 1);
        }
      }
    }
  }

  /** Two runs from the empty store in which every message is touched by the same
      operations in the same order end with the same rows, however the operations
      of different messages interleave and whatever the clocks read. */
  lemma InterleavingIndependence(
      trace1: seq<Store>, ops1: seq<Op>, clocks1: seq<Clocks>,
      trace2: seq<Store>, ops2: seq<Op>, clocks2: seq<Clocks>, dir: Directory, id: string)
    requires Run(trace1, ops1, clocks1) && Sound(ops1) && Unambiguous(ops1, dir) && trace1[0] == map[]
    requires Run(trace2, ops2, clocks2) && Sound(ops2) && Unambiguous(ops2, dir) && trace2[0] == map[]
    requires Touching(dir, id, ops1, |ops1|) == Touching(dir, id, ops2, |ops2|)
    ensures CoreRow(trace1[|ops1|], id) == CoreRow(trace2[|ops2|], id)
  {
    RunIsPerMessage(trace1, ops1, clocks1, dir, |ops1|, id);
    RunIsPerMessage(trace2, ops2, clocks2, dir, |ops2|, id);
    OnlyTouchingMatter(id, ops1, dir, |ops1|);
    OnlyTouchingMatter(id, ops2, dir, |ops2|);
  }
}
