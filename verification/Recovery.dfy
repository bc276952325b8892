/** Crash recovery and replay: what happens to a message when a stretch of its event
    stream is processed again. */
module Recovery {
  import opened Basics
  import opened Messages
  import opened StoreModel
  import opened Steps
  import opened Lifecycle
  import opened Isolation

  // ---- The parts of a row that change after the first write ----

  datatype Facet = TypeFacet | TokenFacet | AmountFacet | DataFacet | LifeFacet

  datatype FacetValue =
    | TypeValue(typ: MessageType)
    | TextValue(text: string)
    | LifeValue(status: Status, dest: Option<Destination>, latency: int)

  const REGISTERS: set<Facet> := {TypeFacet, TokenFacet, AmountFacet, DataFacet}
  const ALL_FACETS: set<Facet> := REGISTERS + {LifeFacet}

  function View(c: Core, f: Facet): FacetValue
    requires Whole(Some(c))
  {
    match f
    case TypeFacet => TypeValue(c.typ)
    case TokenFacet => TextValue(c.payload.value.token)
    case AmountFacet => TextValue(c.payload.value.amount)
    case DataFacet => TextValue(c.payload.value.data)
    case LifeFacet => LifeValue(c.status, c.dest, c.metadata.value.latency)
  }

  /** The parts that the first write fixes. */
  predicate SameOrigin(c: Core, d: Core)
    requires Whole(Some(c)) && Whole(Some(d))
  {
    c.protocol == d.protocol && c.source == d.source && c.payload.value.nonce == d.payload.value.nonce &&
    c.metadata.value.(latency := 0) == d.metadata.value.(latency := 0)
  }

  lemma FacetsDecide(c: Core, d: Core)
    requires Whole(Some(c)) && Whole(Some(d)) && SameOrigin(c, d)
    requires forall f :: f in ALL_FACETS ==> View(c, f) == View(d, f)
    ensures c == d
  {
    assert View(c, TypeFacet) == View(d, TypeFacet) && View(c, TokenFacet) == View(d, TokenFacet);
    assert View(c, AmountFacet) == View(d, AmountFacet) && View(c, DataFacet) == View(d, DataFacet);
    assert View(c, LifeFacet) == View(d, LifeFacet);
  }

  // ---- One uninterrupted pass ----

  lemma {:induction false} PassKeeps(id: string, c: Option<Core>, ops: seq<Op>, m: nat, n: nat)
    requires Sound(ops) && Whole(c) && m <= n <= |ops|
    ensures Whole(After(id, c, ops, m)) && Whole(After(id, c, ops, n))
    ensures var a, b := After(id, c, ops, m), After(id, c, ops, n);
            a.Some? ==> b.Some? && SameOrigin(a.value, b.value) &&
                        (!a.value.status.Pending? || b.value.status.Pending? ==> View(a.value, LifeFacet) == View(b.value, LifeFacet))
  {
    if m < n {
      PassKeeps(id, c, ops, m, n - 1);
    } else if 0 < n {
      PassKeeps(id, c, ops, n - 1, n - 1);
    }
  }

  // ---- A second reader that jumps back ----

  /** Every correlation from `floor` on that names the message comes after its source. */
  ghost predicate SourcesFirst(id: string, c: Option<Core>, ops: seq<Op>, floor: nat) {
    forall d | floor <= d < |ops| && ops[d].Correlate? && After(id, c, ops, |ops|).Some? &&
               Names(ops[d].key, id, After(id, c, ops, |ops|).value) ::
      After(id, c, ops, d).Some?
  }

  /** Does this correlation give the row the very destination and status it ends with? */
  predicate Gives(op: Op, c: Core) {
    op.Correlate? && c.dest == Some(op.dest) && c.status == op.outcome
  }

  /** Weaker: a correlation that comes too early does what is done later anyway. */
  ghost predicate Harmless(id: string, c: Option<Core>, ops: seq<Op>, floor: nat) {
    forall d | floor <= d < |ops| && ops[d].Correlate? && After(id, c, ops, |ops|).Some? &&
               Names(ops[d].key, id, After(id, c, ops, |ops|).value) ::
      After(id, c, ops, d).Some? || Gives(ops[d], After(id, c, ops, |ops|).value)
  }

  /** A row grown from nothing by sound operations meets the lifecycle invariant. */
  lemma {:induction false} GrownLifeOk(id: string, ops: seq<Op>, n: nat)
    requires Sound(ops) && n <= |ops|
    ensures After(id, None, ops, n).Some? ==> LifeOk(After(id, None, ops, n).value)
  {
    if n > 0 {
      GrownLifeOk(id, ops, n - 1);
    }
  }

  /** Facet `f` of `x` is what one pass shows at some point not before `p`. */
  ghost predicate Seen(id: string, c: Option<Core>, ops: seq<Op>, p: nat, x: Core, f: Facet)
    requires Whole(Some(x))
  {
    exists m: nat :: SeenAt(id, c, ops, p, x, f, m)
  }

  ghost predicate SeenAt(id: string, c: Option<Core>, ops: seq<Op>, p: nat, x: Core, f: Facet, m: nat)
    requires Whole(Some(x))
  {
    p <= m <= |ops| && After(id, c, ops, m).Some? && Whole(After(id, c, ops, m)) &&
    View(x, f) == View(After(id, c, ops, m).value, f)
  }

  /** The invariant of a reader at position `p` holding `x`: nothing before `p` is
      missing, and each facet is as one pass leaves it at `p` or later. */
  ghost predicate Tracks(id: string, c: Option<Core>, ops: seq<Op>, p: nat, x: Option<Core>, fs: set<Facet>) {
    && p <= |ops| && Whole(x) && Whole(After(id, c, ops, |ops|))
    && (After(id, c, ops, p).Some? ==> x.Some?)
    && (x.Some? ==> After(id, c, ops, |ops|).Some? && SameOrigin(x.value, After(id, c, ops, |ops|).value) &&
                    forall f :: f in fs ==> Seen(id, c, ops, p, x.value, f))
  }

  lemma TracksOnePass(id: string, c: Option<Core>, ops: seq<Op>, p: nat, fs: set<Facet>)
    requires Sound(ops) && Whole(c) && p <= |ops|
    ensures Tracks(id, c, ops, p, After(id, c, ops, p), fs)
  {
    PassKeeps(id, c, ops, p, |ops|);
    var x := After(id, c, ops, p);
    if x.Some? {
      assert forall f :: f in fs ==> SeenAt(id, c, ops, p, x.value, f, p);
    }
  }

  lemma TracksRestart(id: string, c: Option<Core>, ops: seq<Op>, p: nat, x: Option<Core>, fs: set<Facet>, q: nat)
    requires Sound(ops) && Whole(c) && Tracks(id, c, ops, p, x, fs) && q <= p
    ensures Tracks(id, c, ops, q, x, fs)
  {
    PassKeeps(id, c, ops, q, p);
    if x.Some? {
      forall f | f in fs
        ensures Seen(id, c, ops, q, x.value, f)
      {
        var m: nat :| SeenAt(id, c, ops, p, x.value, f, m);
        assert SeenAt(id, c, ops, q, x.value, f, m);
      }
    }
  }

  /** A step leaves a register alone or writes a value that does not depend on the row. */
  lemma RegisterStep(id: string, x: Core, op: Op, f: Facet)
    requires Whole(Some(x)) && SoundOp(op) && f in REGISTERS
    ensures var y := CoreStep(id, Some(x), op);
            y.Some? && Whole(y) &&
            View(y.value, f) == if op.Put? && op.msg.id == id && View(Merge(None, op.msg), f) !in PLAIN
                                then View(Merge(None, op.msg), f) else View(x, f)
  {
  }

  const PLAIN := {TypeValue(PlainMessage), TextValue("")}

  lemma RegisterAlike(id: string, x: Core, b: Option<Core>, op: Op, f: Facet)
    requires Whole(Some(x)) && Whole(b) && SoundOp(op) && f in REGISTERS
    requires View(CoreStep(id, Some(x), op).value, f) != View(x, f) || (b.Some? && View(b.value, f) == View(x, f))
    ensures var y, c := CoreStep(id, Some(x), op), CoreStep(id, b, op);
            c.Some? && Whole(y) && Whole(c) && View(c.value, f) == View(y.value, f)
  {
    RegisterStep(id, x, op, f);
    if b.Some? {
      RegisterStep(id, b.value, op, f);
    }
  }

  /** A register follows the pass through one more operation. */
  lemma RegisterAdvances(id: string, c: Option<Core>, ops: seq<Op>, p: nat, x: Core, f: Facet)
    requires Sound(ops) && Whole(c) && p < |ops| && Whole(Some(x)) && f in REGISTERS
    requires Seen(id, c, ops, p, x, f)
    ensures var y := CoreStep(id, Some(x), ops[p]);
            y.Some? && Whole(y) && Seen(id, c, ops, p + 1, y.value, f)
  {
    RegisterStep(id, x, ops[p], f);
    var y := CoreStep(id, Some(x), ops[p]).value;
    var m: nat :| SeenAt(id, c, ops, p, x, f, m);
    if View(y, f) == View(x, f) && p < m {
      assert SeenAt(id, c, ops, p + 1, y, f, m);
    } else {
      PassWhole(id, c, ops, p);
      RegisterAlike(id, x, After(id, c, ops, p), ops[p], f);
      assert SeenAt(id, c, ops, p + 1, y, f, p + 1);
    }
  }

  lemma {:induction false} PassWhole(id: string, c: Option<Core>, ops: seq<Op>, n: nat)
    requires Sound(ops) && Whole(c) && n <= |ops|
    ensures Whole(After(id, c, ops, n))
  {
    if n > 0 {
      PassWhole(id, c, ops, n - 1);
    }
  }

  lemma SeenLifeOk(id: string, ops: seq<Op>, x: Core, m: nat)
    requires Sound(ops) && Whole(Some(x)) && SeenAt(id, None, ops, 0, x, LifeFacet, m)
    requires Whole(After(id, None, ops, |ops|)) && After(id, None, ops, |ops|).Some?
    requires SameOrigin(x, After(id, None, ops, |ops|).value)
    ensures LifeOk(x) && LifeOk(After(id, None, ops, |ops|).value)
  {
    GrownLifeOk(id, ops, m);
    GrownLifeOk(id, ops, |ops|);
    PassKeeps(id, None, ops, m, |ops|);
  }

  /** An early correlation that is harmless settles the row as the pass ends it. */
  lemma EarlySettlesAlike(x: Core, end: Core, op: Op)
    requires Whole(Some(x)) && Whole(Some(end)) && SameOrigin(x, end) && LifeOk(x) && LifeOk(end)
    requires x.status.Pending? && Gives(op, end)
    ensures View(Settle(x, op.dest, op.outcome), LifeFacet) == View(end, LifeFacet)
  {
  }

  lemma EarlyLifeAdvances(id: string, ops: seq<Op>, p: nat, x: Core)
    requires Sound(ops) && p < |ops| && ops[p].Correlate? && Finds(ops[p].key, id, x)
    requires Tracks(id, None, ops, p, Some(x), {LifeFacet})
    requires Gives(ops[p], After(id, None, ops, |ops|).value)
    ensures Seen(id, None, ops, p + 1, Settle(x, ops[p].dest, ops[p].outcome), LifeFacet)
  {
    var m: nat :| SeenAt(id, None, ops, p, x, LifeFacet, m);
    assert SeenAt(id, None, ops, 0, x, LifeFacet, m);
    SeenLifeOk(id, ops, x, m);
    EarlySettlesAlike(x, After(id, None, ops, |ops|).value, ops[p]);
    assert SeenAt(id, None, ops, p + 1, Settle(x, ops[p].dest, ops[p].outcome), LifeFacet, |ops|);
  }

  /** Rows of one origin and one life are settled alike. */
  lemma LifeAlike(id: string, x: Core, b: Core, op: Op)
    requires Whole(Some(x)) && Whole(Some(b)) && SoundOp(op) && SameOrigin(x, b) && View(x, LifeFacet) == View(b, LifeFacet)
    ensures var y, c := CoreStep(id, Some(x), op), CoreStep(id, Some(b), op);
            y.Some? && c.Some? && Whole(y) && Whole(c) && View(y.value, LifeFacet) == View(c.value, LifeFacet)
  {
  }

  /** Only a correlation that finds the row changes its life. */
  lemma LifeStep(id: string, x: Core, op: Op)
    requires Whole(Some(x)) && SoundOp(op)
    ensures var y := CoreStep(id, Some(x), op);
            y.Some? && Whole(y) && (View(y.value, LifeFacet) == View(x, LifeFacet) || (op.Correlate? && Finds(op.key, id, x)))
  {
  }

  /** Where the pass shows the life of `x` at `m`, it shows it at `p` too if it is pending. */
  lemma SeenPending(id: string, c: Option<Core>, ops: seq<Op>, p: nat, x: Core, m: nat)
    requires Sound(ops) && Whole(c) && Whole(Some(x)) && SeenAt(id, c, ops, p, x, LifeFacet, m)
    requires After(id, c, ops, p).Some? && (x.status.Pending? || m == p)
    ensures Whole(After(id, c, ops, p)) && View(After(id, c, ops, p).value, LifeFacet) == View(x, LifeFacet)
  {
    PassKeeps(id, c, ops, p, m);
  }

  lemma LaterLifeAdvances(id: string, c: Option<Core>, ops: seq<Op>, p: nat, x: Core)
    requires Sound(ops) && Whole(c) && p < |ops|
    requires Tracks(id, c, ops, p, Some(x), {LifeFacet})
    requires ops[p].Correlate? && Finds(ops[p].key, id, x) ==> After(id, c, ops, p).Some?
    ensures var y := CoreStep(id, Some(x), ops[p]);
            y.Some? && Whole(y) && Seen(id, c, ops, p + 1, y.value, LifeFacet)
  {
    LifeStep(id, x, ops[p]);
    var y := CoreStep(id, Some(x), ops[p]).value;
    var m: nat :| SeenAt(id, c, ops, p, x, LifeFacet, m);
    if View(y, LifeFacet) == View(x, LifeFacet) && p < m {
      assert SeenAt(id, c, ops, p + 1, y, LifeFacet, m);
    } else {
      SeenPending(id, c, ops, p, x, m);
      PassKeeps(id, c, ops, p, |ops|);
      LifeAlike(id, x, After(id, c, ops, p).value, ops[p]);
      assert SeenAt(id, c, ops, p + 1, y, LifeFacet, p + 1);
    }
  }

  /** If the next operation settles `x` although the pass drops it, it settles it as the
      pass ends it. */
  ghost predicate HarmlessAt(id: string, c: Option<Core>, ops: seq<Op>, p: nat, x: Core)
    requires p < |ops|
  {
    ops[p].Correlate? && Finds(ops[p].key, id, x) && After(id, c, ops, p).None? ==>
      After(id, c, ops, |ops|).Some? && Gives(ops[p], After(id, c, ops, |ops|).value)
  }

  lemma HarmlessIsAt(id: string, c: Option<Core>, ops: seq<Op>, p: nat, x: Core, fs: set<Facet>)
    requires p < |ops| && Tracks(id, c, ops, p, Some(x), fs) && Harmless(id, c, ops, p)
    ensures HarmlessAt(id, c, ops, p, x)
  {
  }

  /** So does the life of the message, when early correlations are harmless. */
  lemma LifeAdvances(id: string, c: Option<Core>, ops: seq<Op>, p: nat, x: Core)
    requires Sound(ops) && Whole(c) && p < |ops|
    requires Tracks(id, c, ops, p, Some(x), {LifeFacet})
    requires HarmlessAt(id, c, ops, p, x)
    ensures var y := CoreStep(id, Some(x), ops[p]);
            y.Some? && Whole(y) && Seen(id, c, ops, p + 1, y.value, LifeFacet)
  {
    if ops[p].Correlate? && Finds(ops[p].key, id, x) && After(id, c, ops, p).None? {
      PassKeeps(id, c, ops, 0, p);
      EarlyLifeAdvances(id, ops, p, x);
    } else {
      LaterLifeAdvances(id, c, ops, p, x);
    }
  }

  lemma TracksAdvance(id: string, c: Option<Core>, ops: seq<Op>, p: nat, x: Option<Core>, fs: set<Facet>)
    requires Sound(ops) && Whole(c) && p < |ops|
    requires Tracks(id, c, ops, p, x, fs)
    requires LifeFacet in fs && x.Some? ==> HarmlessAt(id, c, ops, p, x.value)
    ensures Tracks(id, c, ops, p + 1, CoreStep(id, x, ops[p]), fs)
  {
    PassKeeps(id, c, ops, p, p + 1);
    PassKeeps(id, c, ops, p + 1, |ops|);
    var y := CoreStep(id, x, ops[p]);
    if x.Some? {
      forall f | f in fs
        ensures Seen(id, c, ops, p + 1, y.value, f)
      {
        if f.LifeFacet? {
          LifeAdvances(id, c, ops, p, x.value);
        } else {
          RegisterAdvances(id, c, ops, p, x.value, f);
        }
      }
    } else {
      TracksOnePass(id, c, ops, p + 1, fs);
    }
  }

  lemma TracksEnd(id: string, c: Option<Core>, ops: seq<Op>, x: Option<Core>)
    requires Tracks(id, c, ops, |ops|, x, ALL_FACETS)
    ensures x == After(id, c, ops, |ops|)
  {
    if x.Some? {
      var d := After(id, c, ops, |ops|).value;
      forall f | f in ALL_FACETS
        ensures View(x.value, f) == View(d, f)
      {
        assert Seen(id, c, ops, |ops|, x.value, f);
      }
      FacetsDecide(x.value, d);
    }
  }
}
