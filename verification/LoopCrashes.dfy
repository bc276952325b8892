/** Exactly when crashes of the indexing loop are harmless. */
module LoopCrashes {
  import opened Basics
  import opened Chain
  import opened ProcessorModel
  import opened ReorgSafety
  import opened Histories
  import opened Forks
  import opened Messages
  import opened StoreModel
  import opened Steps
  import opened Isolation
  import opened Registers
  import opened Crashes
  import opened Batches
  import opened Indexing

  // ---- Histories with their stores ----

  datatype Story = Story(disks: seq<Disk>, turns: seq<Turn>, work: seq<Work>, stores: seq<Store>)

  ghost predicate Tells(st: Story, cfg: Config, final: Block, events: Events) {
    History(cfg, st.disks, st.turns) && GrowsInto(st.turns, 0, final) &&
    Fills(cfg, st.disks, st.turns, events, st.work, st.stores)
  }

  function LastDisk(st: Story): Disk
    requires |st.disks| > 0
  {
    st.disks[|st.disks| - 1]
  }

  function LastStore(st: Story): Store
    requires |st.stores| > 0
  {
    st.stores[|st.stores| - 1]
  }

  predicate SameStart(st: Story, u: Story) {
    |st.disks| > 0 && |u.disks| > 0 && |st.stores| > 0 && |u.stores| > 0 &&
    u.disks[0] == st.disks[0] && u.stores[0] == st.stores[0]
  }

  lemma LongerHistory(cfg: Config, disks: seq<Disk>, turns: seq<Turn>, t: Turn, e: Disk)
    requires History(cfg, disks, turns) && Taken(cfg, disks[|turns|], t, e)
    ensures History(cfg, disks + [e], turns + [t])
  {
    var ds, ts := disks + [e], turns + [t];
    forall i | 0 <= i < |ts|
      ensures Taken(cfg, ds[i], ts[i], ds[i + 1])
    {
      assert i < |turns| ==> Taken(cfg, disks[i], turns[i], disks[i + 1]);
    }
  }

  /** What turn `i` of a history does to the store. */
  ghost predicate FillsAt(cfg: Config, events: Events, d: Disk, t: Turn, w: Work, s: Store, u: Store) {
    Worked(cfg, d, t, events, w) && w.run[0] == s && w.run[|w.run| - 1] == u
  }

  lemma LongerFilling(cfg: Config, disks: seq<Disk>, turns: seq<Turn>, events: Events, work: seq<Work>, stores: seq<Store>,
                      t: Turn, e: Disk, w: Work, u: Store)
    requires Fills(cfg, disks, turns, events, work, stores) && FillsAt(cfg, events, disks[|turns|], t, w, stores[|turns|], u)
    ensures Fills(cfg, disks + [e], turns + [t], events, work + [w], stores + [u])
  {
    var ds, ts, ws, ss := disks + [e], turns + [t], work + [w], stores + [u];
    forall i | 0 <= i < |ts|
      ensures FillsAt(cfg, events, ds[i], ts[i], ws[i], ss[i], ss[i + 1])
    {
      assert i < |turns| ==> FillsAt(cfg, events, disks[i], turns[i], work[i], stores[i], stores[i + 1]);
    }
  }

  lemma Longer(st: Story, cfg: Config, final: Block, events: Events, t: Turn, e: Disk, w: Work) returns (u: Story)
    requires Tells(st, cfg, final, events) && Taken(cfg, LastDisk(st), t, e) && Grown(t.env.tip, final)
    requires Worked(cfg, LastDisk(st), t, events, w) && w.run[0] == LastStore(st)
    ensures Tells(u, cfg, final, events) && SameStart(st, u)
    ensures LastDisk(u) == e && LastStore(u) == w.run[|w.run| - 1]
  {
    var last := w.run[|w.run| - 1];
    u := Story(st.disks + [e], st.turns + [t], st.work + [w], st.stores + [last]);
    LongerHistory(cfg, st.disks, st.turns, t, e);
    LongerFilling(cfg, st.disks, st.turns, events, st.work, st.stores, t, e, w, last);
  }

  lemma {:induction false} SomeRun(s: Store, ops: seq<Op>, now: Clocks) returns (run: seq<Store>, clocks: seq<Clocks>)
    ensures Run(run, ops, clocks) && run[0] == s
  {
    if ops == [] {
      run, clocks := [s], [];
    } else {
      var r, c := SomeRun(s, ops[..|ops| - 1], now);
      var t := SomeStep(r[|ops| - 1], ops[|ops| - 1], now);
      run, clocks := r + [t], c + [now];
      forall i | 0 <= i < |ops|
        ensures Step(run[i], ops[i], clocks[i], run[i + 1])
      {
        if i < |ops| - 1 {
          assert Step(r[i], ops[..|ops| - 1][i], c[i], r[i + 1]);
        }
      }
    }
  }

  /** A run over a stretch of the stream, seen from one message. */
  lemma {:induction false} RunRow(run: seq<Store>, ops: seq<Op>, clocks: seq<Clocks>, all: seq<Op>, dir: Directory, p: nat, id: string, n: nat)
    requires Run(run, ops, clocks) && n <= |ops| && Readable(run[0], all, dir)
    requires ComeNext(all, p, ops)
    ensures Readable(run[n], all, dir) && CoreRow(run[n], id) == Between(id, CoreRow(run[0], id), all, p, p + n)
  {
    if n > 0 {
      RunRow(run, ops, clocks, all, dir, p, id, n - 1);
      var k := p + n - 1;
      assert Step(run[n - 1], ops[n - 1], clocks[n - 1], run[n - 1 + 1]) && all[k] == ops[n - 1];
      StepKeepsOwned(run[n - 1], all[k], clocks[n - 1], run[n], all, dir, k);
      StepIsPerMessage(run[n - 1], all[k], clocks[n - 1], run[n], all, dir, k, id);
    }
  }

  // ---- Telling a story ----

  function Offset(events: Events, final: Block, c: nat): nat
    requires c <= Height(final)
  {
    |OpsTo(events, final, c)|
  }

  /** The story so far has come to block `c`, and the row of the message is what it was at
      operation `p`, read on from there. */
  ghost predicate Stands(st: Story, cfg: Config, final: Block, events: Events, dir: Directory, id: string, c: nat, x: Option<Core>, p: nat) {
    && Tells(st, cfg, final, events) && LastDisk(st).cursor == c <= Height(final) && Settled(LastDisk(st), final)
    && Readable(LastStore(st), Stream(events, final), dir)
    && p <= Offset(events, final, c) <= |Stream(events, final)|
    && CoreRow(LastStore(st), id) == Between(id, x, Stream(events, final), p, Offset(events, final, c))
  }

  /** A run that goes on with the next `|ops|` operations of the stream. */
  lemma ReadOn(s: Store, ops: seq<Op>, all: seq<Op>, dir: Directory, id: string, p: nat) returns (run: seq<Store>, clocks: seq<Clocks>)
    requires Readable(s, all, dir) && ComeNext(all, p, ops)
    ensures Run(run, ops, clocks) && run[0] == s && Readable(run[|ops|], all, dir)
    ensures CoreRow(run[|ops|], id) == Between(id, CoreRow(s, id), all, p, p + |ops|)
  {
    run, clocks := SomeRun(s, ops, Clocks(0, 0));
    RunRow(run, ops, clocks, all, dir, p, id, |ops|);
  }

  /** Where a turn leaves the disk, and which operations it reads. */
  lemma TurnReads(cfg: Config, d: Disk, t: Turn, e: Disk, final: Block, events: Events, extra: nat)
    requires cfg.watched && Taken(cfg, d, t, e) && Settled(d, final) && Grown(t.env.tip, final)
    ensures Settled(e, final) && d.cursor <= e.cursor <= Height(final)
    ensures ComeNext(Stream(events, final), Offset(events, final, d.cursor),
                     Handled(Iteration(cfg, d, t.env).effects, t.cut, events, extra))
  {
    TurnHandles(cfg, d, t, e, final, events, extra);
    TurnOnward(cfg, d, t, e, final);
    StretchReads(events, final, d.cursor, Min(d.cursor + cfg.batchSize, Height(final)),
                 Handled(Iteration(cfg, d, t.env).effects, t.cut, events, extra));
  }

  /** One more turn, which reads the `n` next operations. */
  lemma OneTurn(st: Story, cfg: Config, final: Block, events: Events, dir: Directory, id: string,
                t: Turn, extra: nat, e: Disk, n: nat) returns (u: Story)
    requires cfg.watched && Tells(st, cfg, final, events) && Settled(LastDisk(st), final)
    requires Readable(LastStore(st), Stream(events, final), dir)
    requires Taken(cfg, LastDisk(st), t, e) && Grown(t.env.tip, final)
    requires n == |Handled(Iteration(cfg, LastDisk(st), t.env).effects, t.cut, events, extra)|
    ensures Tells(u, cfg, final, events) && SameStart(st, u) && LastDisk(u) == e
    ensures Settled(e, final) && e.cursor <= Height(final) && LastDisk(st).cursor <= Height(final)
    ensures Readable(LastStore(u), Stream(events, final), dir)
    ensures var p := Offset(events, final, LastDisk(st).cursor);
            && p + n <= |Stream(events, final)|
            && CoreRow(LastStore(u), id) == Between(id, CoreRow(LastStore(st), id), Stream(events, final), p, p + n)
  {
    var d := LastDisk(st);
    var ops := Handled(Iteration(cfg, d, t.env).effects, t.cut, events, extra);
    TurnReads(cfg, d, t, e, final, events, extra);
    var run, clocks := ReadOn(LastStore(st), ops, Stream(events, final), dir, id, Offset(events, final, d.cursor));
    assert |run| - 1 == |ops| == n;
    u := Longer(st, cfg, final, events, t, e, Work(extra, run, clocks));
    assert LastStore(u) == run[n];
  }

  /** What a turn without failures does when the head is at `to`. */
  lemma QuietTurn(cfg: Config, d: Disk, final: Block, to: nat)
    requires cfg.watched && Settled(d, final) && d.cursor < to <= Height(final) && to <= d.cursor + cfg.batchSize
    ensures var env := Env(final, Some(to), NO_FAULTS);
            && ValidEnv(env) && Grown(final, final)
            && Iteration(cfg, d, env).effects == BatchBody(cfg, env, d.cursor + 1, to) + [SetCursor(to)]
  {
    var env := Env(final, Some(to), NO_FAULTS);
    SettledDoesNotRewind(cfg, d, env, final);
    assert CheckReorg(cfg, d, env, d.cursor + 1) == Clean;
    assert Iteration(cfg, d, env) == Batch(cfg, env, d.cursor + 1, to);
  }

  lemma WholeTurnIs(cfg: Config, d: Disk, final: Block, events: Events, to: nat) returns (t: Turn, e: Disk)
    requires cfg.watched && Settled(d, final) && d.cursor < to <= Height(final) && to <= d.cursor + cfg.batchSize
    ensures Taken(cfg, d, t, e) && Grown(t.env.tip, final) && e.cursor == to
    ensures Offset(events, final, d.cursor) + |Handled(Iteration(cfg, d, t.env).effects, t.cut, events, 0)| == Offset(events, final, to)
  {
    QuietTurn(cfg, d, final, to);
    var env := Env(final, Some(to), NO_FAULTS);
    var es := Iteration(cfg, d, env).effects;
    assert es[..|es|] == es;
    t, e := Turn(env, |es|), DoAll(d, es);
    WholeBatchOnward(cfg, d, env, final, to);
    TurnHandles(cfg, d, t, e, final, events, 0);
  }

  /** One block further. */
  lemma NextBlock(st: Story, cfg: Config, final: Block, events: Events, dir: Directory, id: string, c: nat, x: Option<Core>, p: nat) returns (u: Story)
    requires cfg.watched && cfg.batchSize > 0 && Stands(st, cfg, final, events, dir, id, c, x, p) && c < Height(final)
    ensures Stands(u, cfg, final, events, dir, id, c + 1, x, p) && SameStart(st, u)
  {
    var m, q := Offset(events, final, c), Offset(events, final, c + 1);
    var t, e := WholeTurnIs(cfg, LastDisk(st), final, events, c + 1);
    u := OneTurn(st, cfg, final, events, dir, id, t, 0, e, q - m);
    BetweenJoins(id, x, Stream(events, final), p, m, q);
  }

  /** Reading block after block. */
  lemma {:induction false} StepsTo(st: Story, cfg: Config, final: Block, events: Events, dir: Directory, id: string,
                                   c: nat, x: Option<Core>, p: nat, k: nat) returns (u: Story)
    requires cfg.watched && cfg.batchSize > 0 && Stands(st, cfg, final, events, dir, id, c, x, p) && c <= k <= Height(final)
    ensures Stands(u, cfg, final, events, dir, id, k, x, p) && SameStart(st, u)
    decreases k - c
  {
    if c == k {
      u := st;
    } else {
      var v := NextBlock(st, cfg, final, events, dir, id, c, x, p);
      u := StepsTo(v, cfg, final, events, dir, id, c + 1, x, p, k);
    }
  }

  /** Operation `f` lies in this block. */
  predicate Holds(events: Events, final: Block, f: nat, block: nat) {
    0 < block <= Height(final) && Offset(events, final, block - 1) <= f < Offset(events, final, block)
  }

  /** A turn that is cut right after operation `f` of block `block`. */
  lemma CutTurnIs(cfg: Config, d: Disk, final: Block, events: Events, f: nat, block: nat) returns (t: Turn, extra: nat, e: Disk)
    requires cfg.watched && Settled(d, final) && CanHold(d.cursor, block, cfg.batchSize) && Holds(events, final, f, block)
    ensures Taken(cfg, d, t, e) && Grown(t.env.tip, final) && e.cursor == d.cursor
    ensures Offset(events, final, d.cursor) + |Handled(Iteration(cfg, d, t.env).effects, t.cut, events, extra)| == f + 1
  {
    QuietTurn(cfg, d, final, block);
    var env, c := Env(final, Some(block), NO_FAULTS), d.cursor;
    var es := Iteration(cfg, d, env).effects;
    BatchEffectsAre(cfg, env, c + 1, block);
    extra := f + 1 - Offset(events, final, block - 1);
    t, e := Turn(env, block - 1 - c), DoAll(d, es[..block - 1 - c]);
    CutMovesCursor(cfg, d, env, final, block, es, block - 1 - c);
    CutHandlesUpTo(events, final, c, block - 1 - c, es, extra);
  }

  lemma OffsetStep(events: Events, final: Block, k: nat)
    requires 0 < k <= Height(final)
    ensures Offset(events, final, k) == Offset(events, final, k - 1) + |events(At(final, k))|
  {
  }

  lemma WholeBlocksLength(events: Events, final: Block, c: nat, k: nat)
    requires c <= k <= Height(final)
    ensures Offset(events, final, c) + |BlockOps(events, IndexEffects(final, c + 1, k + 1))| == Offset(events, final, k)
  {
    IndexOps(events, final, final, c, k);
  }

  lemma PartLength(blocks: seq<Op>, next: seq<Op>, extra: nat)
    requires extra <= |next|
    ensures |blocks + Part(next, extra)| == |blocks| + extra
  {
  }

  lemma CutHandlesUpTo(events: Events, final: Block, c: nat, cut: nat, es: seq<Effect>, extra: nat)
    requires c + cut < Height(final) && IndexEffects(final, c + 1, c + cut + 2) <= es
    requires Offset(events, final, c + cut) + extra <= Offset(events, final, c + cut + 1)
    ensures cut <= |es|
    ensures Offset(events, final, c) + |Handled(es, cut, events, extra)| == Offset(events, final, c + cut) + extra
  {
    HandledInside(events, final, c + 1, c + cut + 2, es, cut, extra);
    WholeBlocksLength(events, final, c, c + cut);
    OffsetStep(events, final, c + cut + 1);
    PartLength(BlockOps(events, IndexEffects(final, c + 1, c + cut + 1)), events(At(final, c + cut + 1)), extra);
  }

  lemma ReadToSource(id: string, x: Option<Core>, all: seq<Op>, p: nat, n: nat)
    requires p <= n <= |all|
    ensures Between(id, Between(id, x, all, 0, p), all, p, n) == After(id, x, all, n)
  {
    BetweenJoins(id, x, all, 0, p, n);
    BetweenFromStart(id, x, all, n);
  }

  lemma StandsAnew(st: Story, cfg: Config, final: Block, events: Events, dir: Directory, id: string, c: nat, x: Option<Core>)
    requires Tells(st, cfg, final, events) && LastDisk(st).cursor == c <= Height(final) && Settled(LastDisk(st), final)
    requires Readable(LastStore(st), Stream(events, final), dir) && CoreRow(LastStore(st), id) == x
    ensures Stands(st, cfg, final, events, dir, id, c, x, Offset(events, final, c))
  {
    OpsToPrefix(events, final, c, Height(final));
  }

  /** The turn at block `c` is cut right after operation `f`. */
  lemma CutAt(st: Story, cfg: Config, final: Block, events: Events, dir: Directory, id: string, c: nat, x: Option<Core>, f: nat, block: nat)
    returns (u: Story)
    requires cfg.watched && Stands(st, cfg, final, events, dir, id, c, x, 0)
    requires Holds(events, final, f, block) && CanHold(c, block, cfg.batchSize)
    ensures f < |Stream(events, final)| && SameStart(st, u)
    ensures Stands(u, cfg, final, events, dir, id, c, After(id, x, Stream(events, final), f + 1), Offset(events, final, c))
  {
    var all, p := Stream(events, final), Offset(events, final, c);
    var t, extra, e := CutTurnIs(cfg, LastDisk(st), final, events, f, block);
    u := OneTurn(st, cfg, final, events, dir, id, t, extra, e, f + 1 - p);
    ReadToSource(id, x, all, p, f + 1);
    StandsAnew(u, cfg, final, events, dir, id, c, After(id, x, all, f + 1));
  }

  /** The loop comes to block `c`, a turn is cut right after operation `f`, and then the
      loop goes on to the head. */
  lemma CutOnce(cfg: Config, final: Block, events: Events, d: Disk, s: Store, dir: Directory, id: string, f: nat, c: nat, block: nat)
    returns (st: Story)
    requires cfg.watched && cfg.batchSize > 0 && Settled(d, final) && d.cursor == 0
    requires Readable(s, Stream(events, final), dir)
    requires Holds(events, final, f, block) && CanHold(c, block, cfg.batchSize)
    ensures Tells(st, cfg, final, events) && FromTo(st, d, s, final)
    ensures f < |Stream(events, final)| && c <= Height(final) && Offset(events, final, c) <= |Stream(events, final)|
    ensures CoreRow(LastStore(st), id) ==
            Between(id, After(id, CoreRow(s, id), Stream(events, final), f + 1),
                    Stream(events, final), Offset(events, final, c), |Stream(events, final)|)
  {
    var row := CoreRow(s, id);
    var st0 := Story([d], [], [], [s]);
    assert Stands(st0, cfg, final, events, dir, id, 0, row, 0);
    var st1 := StepsTo(st0, cfg, final, events, dir, id, 0, row, 0, c);
    var st2 := CutAt(st1, cfg, final, events, dir, id, c, row, f, block);
    st := StepsTo(st2, cfg, final, events, dir, id, c, After(id, row, Stream(events, final), f + 1), Offset(events, final, c), Height(final));
  }

  predicate FromTo(st: Story, d: Disk, s: Store, final: Block) {
    |st.disks| > 0 && |st.stores| > 0 && st.disks[0] == d && st.stores[0] == s && LastDisk(st).cursor == Height(final)
  }

  // ---- Exactly ----

  /** Every history of the loop over the growing chain that reaches its head leaves this
      row, whatever fails and wherever it crashes. */
  ghost predicate AlwaysLeaves(cfg: Config, final: Block, events: Events, d: Disk, s: Store, id: string, row: Option<Core>) {
    forall st: Story :: Tells(st, cfg, final, events) && FromTo(st, d, s, final) ==> CoreRow(LastStore(st), id) == row
  }

  lemma NearRepeatsLeaveAlike(cfg: Config, final: Block, events: Events, d: Disk, s: Store, dir: Directory, id: string,
                              smooth: seq<Store>, clocks: seq<Clocks>)
    requires cfg.watched && Settled(d, final) && d.cursor == 0
    requires Readable(s, Stream(events, final), dir)
    requires Run(smooth, Stream(events, final), clocks) && smooth[0] == s
    requires NearOnesRepeat(id, CoreRow(s, id), Stream(events, final), MarksOf(events, final), cfg.batchSize)
    ensures AlwaysLeaves(cfg, final, events, d, s, id, CoreRow(smooth[|smooth| - 1], id))
  {
    forall st: Story | Tells(st, cfg, final, events) && FromTo(st, d, s, final)
      ensures CoreRow(LastStore(st), id) == CoreRow(smooth[|smooth| - 1], id)
    {
      LoopIndexesOnce(cfg, st.disks, st.turns, final, events, st.work, st.stores, |st.turns|, smooth, clocks, dir, id);
    }
  }

  /** A history of the loop with one crash that ends with another row: batches up to a
      block, a turn cut right after the source, and turns up to the head. */
  lemma LoopShows(cfg: Config, final: Block, events: Events, d: Disk, s: Store, dir: Directory, id: string) returns (st: Story)
    requires cfg.watched && cfg.batchSize > 0 && Settled(d, final) && d.cursor == 0
    requires Readable(s, Stream(events, final), dir)
    requires !NearOnesRepeat(id, CoreRow(s, id), Stream(events, final), MarksOf(events, final), cfg.batchSize)
    ensures Tells(st, cfg, final, events) && FromTo(st, d, s, final)
    ensures CoreRow(LastStore(st), id) !=
            After(id, CoreRow(s, id), Stream(events, final), |Stream(events, final)|)
  {
    var ops, marks := Stream(events, final), MarksOf(events, final);
    var f: nat, lo: nat, early: nat :| Near(marks, cfg.batchSize, f, lo) && FirstEarly(id, ops, f, lo, early) &&
                                       !Repeated(id, ops, f, early);
    var c: nat, block: nat :| NearBy(marks, cfg.batchSize, f, lo, c, block);
    st := CutOnce(cfg, final, events, d, s, dir, id, f, c, block);
    FirstEarlyShows(id, ops, f, lo, early);
  }

  /** Take any batch size of at least 1 and a chain that grows. Every history of the loop
      that reaches the head, whatever fails and wherever it crashes, leaves the row of an
      uninterrupted run, if and only if wherever a batch that reaches the message's source
      may start, the first correlation of the message from there on, if it comes before
      the source, repeats the first one after it. */
  lemma LoopCrashesHarmlessExactly(cfg: Config, final: Block, events: Events, d: Disk, s: Store, dir: Directory, id: string,
                                   smooth: seq<Store>, clocks: seq<Clocks>)
    requires cfg.watched && cfg.batchSize > 0 && Settled(d, final) && d.cursor == 0
    requires Readable(s, Stream(events, final), dir)
    requires Run(smooth, Stream(events, final), clocks) && smooth[0] == s
    ensures AlwaysLeaves(cfg, final, events, d, s, id, CoreRow(smooth[|smooth| - 1], id)) <==>
            NearOnesRepeat(id, CoreRow(s, id), Stream(events, final), MarksOf(events, final), cfg.batchSize)
  {
    var ops := Stream(events, final);
    if NearOnesRepeat(id, CoreRow(s, id), ops, MarksOf(events, final), cfg.batchSize) {
      NearRepeatsLeaveAlike(cfg, final, events, d, s, dir, id, smooth, clocks);
    } else {
      var st := LoopShows(cfg, final, events, d, s, dir, id);
      RunIsPerMessage(smooth, ops, clocks, dir, |ops|, id);
    }
  }

  /** When no two correlations of the message report the same destination: if and only if
      none comes before its source within a batch that may hold the source. */
  lemma LoopOrderDecidesExactly(cfg: Config, final: Block, events: Events, d: Disk, s: Store, dir: Directory, id: string,
                                smooth: seq<Store>, clocks: seq<Clocks>)
    requires cfg.watched && cfg.batchSize > 0 && Settled(d, final) && d.cursor == 0
    requires Readable(s, Stream(events, final), dir)
    requires Run(smooth, Stream(events, final), clocks) && smooth[0] == s
    requires DistinctDestinations(id, Stream(events, final))
    ensures AlwaysLeaves(cfg, final, events, d, s, id, CoreRow(smooth[|smooth| - 1], id)) <==>
            NoneNear(id, CoreRow(s, id), Stream(events, final), MarksOf(events, final), cfg.batchSize)
  {
    LoopCrashesHarmlessExactly(cfg, final, events, d, s, dir, id, smooth, clocks);
    DistinctNeedNone(id, CoreRow(s, id), Stream(events, final), MarksOf(events, final), cfg.batchSize);
  }
}
