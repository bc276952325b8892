/** Effectively-once indexing through crashes, and the effect of indexing the same
    events a second and a third time. */
module Replay {
  import opened Basics
  import opened Messages
  import opened StoreModel
  import opened Steps
  import opened Isolation
  import opened Recovery

  // ---- A processor that may crash anywhere ----

  /** Durable: the cursor and the store. Volatile: the position in the stream. */
  datatype Worker = Worker(cursor: nat, pos: nat, store: Store)

  /** A crash between lookup and update, or inside a transaction, leaves the store as
      it was before the event, so `Crash` covers it. */
  datatype Move = Handle | Persist | Crash

  ghost predicate MoveStep(w: Worker, mv: Move, now: Clocks, v: Worker, ops: seq<Op>) {
    match mv
    case Handle => w.pos < |ops| && v.pos == w.pos + 1 && v.cursor == w.cursor && Step(w.store, ops[w.pos], now, v.store)
    case Persist => v == w.(cursor := w.pos)
    case Crash => v == w.(pos := w.cursor)
  }

  ghost predicate Execution(trace: seq<Worker>, moves: seq<Move>, clocks: seq<Clocks>, ops: seq<Op>) {
    && |trace| == |moves| + 1 && |clocks| == |moves|
    && trace[0].cursor == trace[0].pos == 0
    && forall i :: 0 <= i < |moves| ==> MoveStep(trace[i], moves[i], clocks[i], trace[i + 1], ops)
  }

  /** The store is readable and has followed the stream up to the worker's position. */
  ghost predicate Follows(w: Worker, ops: seq<Op>, dir: Directory, id: string, c: Option<Core>) {
    && w.cursor <= w.pos <= |ops| && Owned(w.store, ops, dir) && WholeStore(w.store)
    && Tracks(id, c, ops, w.pos, CoreRow(w.store, id), ALL_FACETS)
  }

  lemma HandleFollows(w: Worker, now: Clocks, v: Worker, ops: seq<Op>, dir: Directory, id: string, c: Option<Core>)
    requires MoveStep(w, Handle, now, v, ops) && Follows(w, ops, dir, id, c)
    requires Sound(ops) && Unambiguous(ops, dir) && Whole(c)
    requires id in w.store ==> HarmlessAt(id, c, ops, w.pos, w.store[id].core)
    ensures Follows(v, ops, dir, id, c)
  {
    StepKeepsOwned(w.store, ops[w.pos], now, v.store, ops, dir, w.pos);
    StepIsPerMessage(w.store, ops[w.pos], now, v.store, ops, dir, w.pos, id);
    TracksAdvance(id, c, ops, w.pos, CoreRow(w.store, id), ALL_FACETS);
  }

  lemma JumpFollows(w: Worker, v: Worker, ops: seq<Op>, dir: Directory, id: string, c: Option<Core>)
    requires v.store == w.store && v.cursor <= v.pos <= w.pos && Follows(w, ops, dir, id, c)
    requires Sound(ops) && Whole(c)
    ensures Follows(v, ops, dir, id, c)
  {
    TracksRestart(id, c, ops, w.pos, CoreRow(w.store, id), ALL_FACETS, v.pos);
  }

  lemma {:induction false} ExecutionTracks(trace: seq<Worker>, moves: seq<Move>, clocks: seq<Clocks>, ops: seq<Op>,
                                           dir: Directory, id: string, n: nat)
    requires Execution(trace, moves, clocks, ops) && n <= |moves|
    requires Sound(ops) && Unambiguous(ops, dir) && Owned(trace[0].store, ops, dir) && WholeStore(trace[0].store)
    requires Harmless(id, CoreRow(trace[0].store, id), ops, 0)
    ensures Follows(trace[n], ops, dir, id, CoreRow(trace[0].store, id))
  {
    var c := CoreRow(trace[0].store, id);
    if n == 0 {
      TracksOnePass(id, c, ops, 0, ALL_FACETS);
    } else {
      ExecutionTracks(trace, moves, clocks, ops, dir, id, n - 1);
      assert MoveStep(trace[n - 1], moves[n - 1], clocks[n - 1], trace[n], ops);
      if moves[n - 1].Handle? {
        if id in trace[n - 1].store {
          HarmlessIsAt(id, c, ops, trace[n - 1].pos, trace[n - 1].store[id].core, ALL_FACETS);
        }
        HandleFollows(trace[n - 1], clocks[n - 1], trace[n], ops, dir, id, c);
      } else {
        JumpFollows(trace[n - 1], trace[n], ops, dir, id, c);
      }
    }
  }

  /** Whenever a processor that may crash anywhere, any number of times, stands at the
      end of its stream, every row equals that of an uninterrupted run over the same
      events, up to the two bookkeeping times. */
  lemma EffectivelyOnce(trace: seq<Worker>, moves: seq<Move>, clocks: seq<Clocks>, ops: seq<Op>,
                        smooth: seq<Store>, smoothClocks: seq<Clocks>, dir: Directory, id: string)
    requires Execution(trace, moves, clocks, ops) && trace[|moves|].pos == |ops|
    requires Run(smooth, ops, smoothClocks) && smooth[0] == trace[0].store
    requires Sound(ops) && Unambiguous(ops, dir) && Owned(trace[0].store, ops, dir) && WholeStore(trace[0].store)
    requires SourcesFirst(id, CoreRow(trace[0].store, id), ops, 0)
    ensures CoreRow(trace[|moves|].store, id) == CoreRow(smooth[|ops|], id)
  {
    assert Harmless(id, CoreRow(trace[0].store, id), ops, 0);
    ExecutionTracks(trace, moves, clocks, ops, dir, id, |moves|);
    TracksEnd(id, CoreRow(trace[0].store, id), ops, CoreRow(trace[|moves|].store, id));
    RunIsPerMessage(smooth, ops, smoothClocks, dir, |ops|, id);
  }

  // ---- Replays ----

  function Pass(id: string, c: Option<Core>, ops: seq<Op>): Option<Core> {
    After(id, c, ops, |ops|)
  }

  /** A second reading from `x`, tracked against the first pass from `c`. */
  lemma {:induction false} SecondReading(id: string, c: Option<Core>, ops: seq<Op>, floor: nat, x: Option<Core>, fs: set<Facet>, n: nat)
    requires Sound(ops) && Whole(c) && floor + n <= |ops|
    requires Tracks(id, c, ops, floor, x, fs)
    requires LifeFacet in fs ==> Harmless(id, c, ops, floor)
    ensures Tracks(id, c, ops, floor + n, After(id, x, ops[floor..], n), fs)
  {
    if n > 0 {
      SecondReading(id, c, ops, floor, x, fs, n - 1);
      var y := After(id, x, ops[floor..], n - 1);
      if LifeFacet in fs && y.Some? {
        HarmlessIsAt(id, c, ops, floor + n - 1, y.value, fs);
      }
      TracksAdvance(id, c, ops, floor + n - 1, After(id, x, ops[floor..], n - 1), fs);
    }
  }

  /** A correlation is stranded by a pass that leaves its message pending: it came
      before the source and was dropped. */
  ghost predicate Stranded(id: string, c: Option<Core>, ops: seq<Op>) {
    c.Some? && c.value.status.Pending? &&
    exists d :: 0 <= d < |ops| && ops[d].Correlate? && Names(ops[d].key, id, c.value)
  }

  lemma {:induction false} TerminalStays(id: string, c: Option<Core>, ops: seq<Op>, n: nat)
    requires Sound(ops) && Whole(c) && n <= |ops|
    requires c.Some? && !Stranded(id, c, ops)
    ensures Whole(After(id, c, ops, n)) && After(id, c, ops, n).Some?
    ensures View(After(id, c, ops, n).value, LifeFacet) == View(c.value, LifeFacet)
    ensures SameOrigin(c.value, After(id, c, ops, n).value)
  {
    if n > 0 {
      TerminalStays(id, c, ops, n - 1);
      var b := After(id, c, ops, n - 1).value;
      assert ops[n - 1].Correlate? ==> (Names(ops[n - 1].key, id, b) <==> Names(ops[n - 1].key, id, c.value));
    }
  }

  lemma {:induction false} StrandedSettles(id: string, c: Option<Core>, ops: seq<Op>, d: nat, n: nat)
    requires Sound(ops) && Whole(c) && c.Some? && c.value.status.Pending?
    requires d < n <= |ops| && ops[d].Correlate? && Names(ops[d].key, id, c.value)
    ensures Whole(After(id, c, ops, n)) && After(id, c, ops, n).Some? && !After(id, c, ops, n).value.status.Pending?
  {
    PassKeeps(id, c, ops, 0, d);
    PassKeeps(id, c, ops, d + 1, n);
  }

  /** Indexing the same events a second time changes a row exactly when the first
      pass stranded one of the message's correlations. */
  lemma SecondPassExactly(id: string, c: Option<Core>, ops: seq<Op>)
    requires Sound(ops) && Whole(c)
    ensures var once := Pass(id, c, ops);
            Pass(id, once, ops) == once <==> !Stranded(id, once, ops)
  {
    var once := Pass(id, c, ops);
    PassKeeps(id, c, ops, 0, |ops|);
    if Stranded(id, once, ops) {
      var d :| 0 <= d < |ops| && ops[d].Correlate? && Names(ops[d].key, id, once.value);
      StrandedSettles(id, once, ops, d, |ops|);
    } else {
      RegistersReturn(id, c, ops);
      var twice := Pass(id, once, ops);
      if once.Some? {
        TerminalStays(id, once, ops, |ops|);
        FacetsDecide(once.value, twice.value);
      }
    }
  }

  lemma RereadingTracks(id: string, c: Option<Core>, ops: seq<Op>)
    requires Sound(ops) && Whole(c)
    ensures Tracks(id, c, ops, |ops|, Pass(id, Pass(id, c, ops), ops), REGISTERS)
  {
    TracksOnePass(id, c, ops, |ops|, REGISTERS);
    TracksRestart(id, c, ops, |ops|, Pass(id, c, ops), REGISTERS, 0);
    SecondReading(id, c, ops, 0, Pass(id, c, ops), REGISTERS, |ops|);
    assert ops[0..] == ops;
  }

  lemma RegistersAtEnd(id: string, c: Option<Core>, ops: seq<Op>, x: Option<Core>)
    requires Tracks(id, c, ops, |ops|, x, REGISTERS)
    ensures Whole(x) && Whole(Pass(id, c, ops)) && (x.None? <==> Pass(id, c, ops).None?)
    ensures x.Some? ==> forall f :: f in REGISTERS ==> View(Pass(id, c, ops).value, f) == View(x.value, f)
  {
    if x.Some? {
      forall f | f in REGISTERS
        ensures View(Pass(id, c, ops).value, f) == View(x.value, f)
      {
        assert Seen(id, c, ops, |ops|, x.value, f);
      }
    }
  }

  lemma RegistersReturn(id: string, c: Option<Core>, ops: seq<Op>)
    requires Sound(ops) && Whole(c)
    ensures var once, twice := Pass(id, c, ops), Pass(id, Pass(id, c, ops), ops);
            Whole(once) && Whole(twice) && (once.None? <==> twice.None?) &&
            (once.Some? ==> forall f :: f in REGISTERS ==> View(once.value, f) == View(twice.value, f))
  {
    RereadingTracks(id, c, ops);
    RegistersAtEnd(id, c, ops, Pass(id, Pass(id, c, ops), ops));
  }

  /** When every correlation follows its source, nothing is stranded. */
  lemma OrderedIsNotStranded(id: string, c: Option<Core>, ops: seq<Op>)
    requires Sound(ops) && Whole(c) && SourcesFirst(id, c, ops, 0)
    ensures !Stranded(id, Pass(id, c, ops), ops)
  {
    var once := Pass(id, c, ops);
    forall d | once.Some? && 0 <= d < |ops| && ops[d].Correlate? && Names(ops[d].key, id, once.value)
      ensures !once.value.status.Pending?
    {
      PassKeeps(id, c, ops, d, d + 1);
      PassKeeps(id, c, ops, d, |ops|);
      PassKeeps(id, c, ops, d + 1, |ops|);
    }
  }

  /** After two passes nothing is stranded, so a third pass changes no row. */
  lemma ThirdPassChangesNothing(id: string, c: Option<Core>, ops: seq<Op>)
    requires Sound(ops) && Whole(c)
    ensures var twice := Pass(id, Pass(id, c, ops), ops); Pass(id, twice, ops) == twice
  {
    var once := Pass(id, c, ops);
    PassKeeps(id, c, ops, 0, |ops|);
    var twice := Pass(id, once, ops);
    PassKeeps(id, once, ops, 0, |ops|);
    if Stranded(id, twice, ops) {
      var d :| 0 <= d < |ops| && ops[d].Correlate? && Names(ops[d].key, id, twice.value);
      if once.Some? {
        StrandedSettles(id, once, ops, d, |ops|);
      } else {
        RegistersReturn(id, c, ops);
      }
      assert false;
    }
    SecondPassExactly(id, once, ops);
  }

  // ---- The same for runs of the store ----

  lemma PassOfRun(trace: seq<Store>, ops: seq<Op>, clocks: seq<Clocks>, dir: Directory, id: string)
    requires Run(trace, ops, clocks) && Sound(ops) && Unambiguous(ops, dir)
    requires Owned(trace[0], ops, dir) && WholeStore(trace[0])
    ensures Owned(trace[|ops|], ops, dir) && WholeStore(trace[|ops|])
    ensures CoreRow(trace[|ops|], id) == Pass(id, CoreRow(trace[0], id), ops)
  {
    RunIsPerMessage(trace, ops, clocks, dir, |ops|, id);
  }

  /** Three backfills of one range: the third leaves every row as the second did, and
      the second leaves a row as the first did exactly when nothing was stranded. */
  lemma BackfillConverges(run1: seq<Store>, run2: seq<Store>, run3: seq<Store>, ops: seq<Op>,
                          clocks1: seq<Clocks>, clocks2: seq<Clocks>, clocks3: seq<Clocks>, dir: Directory, id: string)
    requires Run(run1, ops, clocks1) && Run(run2, ops, clocks2) && Run(run3, ops, clocks3)
    requires run2[0] == run1[|ops|] && run3[0] == run2[|ops|]
    requires Sound(ops) && Unambiguous(ops, dir) && Owned(run1[0], ops, dir) && WholeStore(run1[0])
    ensures CoreRow(run3[|ops|], id) == CoreRow(run2[|ops|], id)
    ensures CoreRow(run2[|ops|], id) == CoreRow(run1[|ops|], id) <==> !Stranded(id, CoreRow(run1[|ops|], id), ops)
  {
    PassOfRun(run1, ops, clocks1, dir, id);
    PassOfRun(run2, ops, clocks2, dir, id);
    PassOfRun(run3, ops, clocks3, dir, id);
    SecondPassExactly(id, CoreRow(run1[0], id), ops);
    ThirdPassChangesNothing(id, CoreRow(run1[0], id), ops);
  }
}
