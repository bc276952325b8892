/** Which blocks stay indexed under a replaced fork. */
module Forks {
  import opened Basics
  import opened Chain
  import opened ProcessorModel
  import opened ReorgSafety
  import opened Histories

  /** Every block up to the cursor was last indexed as it is on the chain `tip`. */
  ghost predicate IndexedAs(d: Disk, tip: Block) {
    d.cursor <= Height(tip) && forall h :: 0 < h <= d.cursor ==> h in d.indexed && d.indexed[h] == At(tip, h)
  }

  /** And the records up to the cursor are of that chain too. */
  ghost predicate Faithful(d: Disk, tip: Block) {
    IndexedAs(d, tip) && forall h :: h in d.records && 0 < h <= d.cursor ==> d.records[h].hash == At(tip, h)
  }

  /** The lowest height from which on every height up to `k` is recorded. */
  function WindowStart(records: map<nat, Record>, k: nat): (w: nat)
    ensures 1 <= w <= k + 1
    ensures forall h :: w <= h <= k ==> h in records
    ensures w == 1 || w - 1 !in records
  {
    if k == 0 || k !in records then k + 1 else WindowStart(records, k - 1)
  }

  lemma WindowStartIs(records: map<nat, Record>, k: nat, w: nat)
    requires 1 <= w <= k + 1 && (forall h :: w <= h <= k ==> h in records) && (w == 1 || w - 1 !in records)
    ensures WindowStart(records, k) == w
  {
    var v := WindowStart(records, k);
    assert v < w ==> w - 1 in records;
  }

  // ---- The turn that meets another chain ----

  /** A turn in which no call fails and there is a batch to do. */
  predicate Clear(cfg: Config, d: Disk, env: Env) {
    ValidEnv(env) && env.faults == NO_FAULTS && env.latest.Some? && d.cursor < env.latest.value &&
    cfg.watched && cfg.tracking && cfg.batchSize > 0
  }

  /** What one turn leaves, whatever the records: below the window every block is as it
      was indexed on the old chain, from there up to the cursor it is live. */
  ghost predicate Divided(e: Disk, was: Block, tip: Block, w: nat) {
    && 0 < w <= e.cursor + 1 && w <= Height(was) + 1 && e.cursor <= Height(tip)
    && (forall h :: 0 < h < w ==> h in e.indexed && e.indexed[h] == At(was, h))
    && (forall h :: w <= h <= e.cursor ==> h in e.indexed && e.indexed[h] == At(tip, h))
  }

  lemma ClearIsCleanOrRewind(cfg: Config, d: Disk, env: Env)
    requires Clear(cfg, d, env)
    ensures Rewinding(cfg, d, env) || Iteration(cfg, d, env).outcome == Advanced
    ensures Rewinding(cfg, d, env) <==> d.cursor in d.records && d.records[d.cursor].hash != At(env.tip, d.cursor)
  {
  }

  lemma ClearTurnDivides(cfg: Config, d: Disk, env: Env, was: Block)
    requires Clear(cfg, d, env) && Faithful(d, was)
    ensures Divided(Next(cfg, d, env), was, env.tip, WindowStart(d.records, d.cursor))
  {
    ClearIsCleanOrRewind(cfg, d, env);
    if Rewinding(cfg, d, env) {
      RewindPostcondition(cfg, d, env);
      RewindDivides(d, Next(cfg, d, env), env.tip, was);
    } else {
      AdvancedDo(cfg, d, env);
      BatchDivides(d, env, was, BatchEnd(cfg, d, env));
    }
  }

  lemma AgreeUpTo(a: Block, b: Block, n: nat)
    requires n <= Height(a) && n <= Height(b) && At(a, n) == At(b, n)
    ensures forall h :: 0 <= h <= n ==> At(a, h) == At(b, h)
  {
    forall h | 0 <= h <= n
      ensures At(a, h) == At(b, h)
    {
      AgreeBelow(a, b, n, h);
    }
  }

  lemma RewindDivides(d: Disk, e: Disk, tip: Block, was: Block)
    requires Faithful(d, was) && e.cursor <= d.cursor <= Height(tip) && e.indexed == d.indexed
    requires forall h :: e.cursor < h <= d.cursor ==> h in d.records
    requires e.cursor == 0 || e.cursor !in d.records || d.records[e.cursor].hash == At(tip, e.cursor)
    ensures Divided(e, was, tip, WindowStart(d.records, d.cursor))
  {
    var w := WindowStart(d.records, d.cursor);
    assert w - 1 <= e.cursor;
    if w <= e.cursor {
      AgreeUpTo(was, tip, e.cursor);
    }
  }

  lemma BatchDivides(d: Disk, env: Env, was: Block, to: nat)
    requires Faithful(d, was) && d.cursor < to <= Height(env.tip)
    requires d.cursor in d.records ==> d.records[d.cursor].hash == At(env.tip, d.cursor)
    ensures Divided(Written(d, env, d.cursor + 1, to), was, env.tip, WindowStart(d.records, d.cursor))
  {
    var w := WindowStart(d.records, d.cursor);
    if w <= d.cursor {
      assert d.cursor in d.records;
      AgreeUpTo(was, env.tip, d.cursor);
    }
  }

  /** So nothing stale is left exactly when the chains agree below the window. */
  lemma DividedIsLive(e: Disk, was: Block, tip: Block, w: nat)
    requires Divided(e, was, tip, w)
    ensures IndexedAs(e, tip) <==> w == 1 || At(was, w - 1) == At(tip, w - 1)
  {
    if w > 1 && At(was, w - 1) == At(tip, w - 1) {
      AgreeUpTo(was, tip, w - 1);
    }
    if w > 1 && IndexedAs(e, tip) {
      assert e.indexed[w - 1] == At(was, w - 1);
    }
  }

  // ---- A chain that only grows ----

  predicate Grown(tip: Block, final: Block) {
    Height(tip) <= Height(final) && At(final, Height(tip)) == tip
  }

  lemma GrownAgrees(tip: Block, final: Block, h: nat)
    requires Grown(tip, final) && h <= Height(tip)
    ensures At(tip, h) == At(final, h)
  {
    AgreeBelow(tip, final, Height(tip), h);
  }

  /** No record at or above the cursor contradicts the chain. */
  ghost predicate Settled(d: Disk, final: Block) {
    d.cursor <= Height(final) && 0 !in d.records &&
    forall h :: h in d.records && h >= d.cursor ==> h <= Height(final) && d.records[h].hash == At(final, h)
  }

  /** An effect that only adds live blocks above the cursor. */
  predicate Onward(e: Effect, cursor: nat, final: Block) {
    match e
    case IndexBlock(h, b) => cursor < h <= Height(final) && b == At(final, h)
    case SaveHash(h, b) => cursor < h <= Height(final) && b == At(final, h)
    case Prune(_) => true
    case DeleteFrom(_) => false
    case SetCursor(_) => false
  }

  /** What was indexed up to `k` is still indexed so. */
  ghost predicate KeepsIndexed(d: Disk, e: Disk, k: nat) {
    forall h :: 0 <= h <= k ==> (h in d.indexed <==> h in e.indexed) && (h in d.indexed ==> e.indexed[h] == d.indexed[h])
  }

  lemma {:induction false} OnwardKeeps(d: Disk, es: seq<Effect>, final: Block)
    requires Settled(d, final) && forall i :: 0 <= i < |es| ==> Onward(es[i], d.cursor, final)
    ensures var e := DoAll(d, es); Settled(e, final) && e.cursor == d.cursor && KeepsIndexed(d, e, d.cursor)
  {
    if es != [] {
      OnwardKeeps(d, es[..|es| - 1], final);
    }
  }

  lemma {:induction false} HashesKeepIndexed(d: Disk, es: seq<Effect>)
    requires forall i :: 0 <= i < |es| ==> !es[i].IndexBlock?
    ensures DoAll(d, es).indexed == d.indexed
  {
    if es != [] {
      HashesKeepIndexed(d, es[..|es| - 1]);
    }
  }

  lemma {:induction false} IndexIsOnward(tip: Block, final: Block, from: nat, end: nat, c: nat, i: nat)
    requires Grown(tip, final) && c < from && end <= Height(tip) + 1 && i < |IndexEffects(tip, from, end)|
    ensures Onward(IndexEffects(tip, from, end)[i], c, final)
  {
    if i < |IndexEffects(tip, from, end)| - 1 {
      IndexIsOnward(tip, final, from, end - 1, c, i);
    } else {
      GrownAgrees(tip, final, end - 1);
    }
  }

  lemma BodyIsOnward(cfg: Config, env: Env, final: Block, from: nat, to: nat, c: nat, i: nat)
    requires Grown(env.tip, final) && c < from <= to <= Height(env.tip) && i < |BatchBody(cfg, env, from, to)|
    ensures Onward(BatchBody(cfg, env, from, to)[i], c, final)
  {
    var index := IndexEffects(env.tip, from, to + 1);
    if i < |index| {
      IndexIsOnward(env.tip, final, from, to + 1, c, i);
    } else {
      GrownAgrees(env.tip, final, from);
      GrownAgrees(env.tip, final, to);
      assert BatchBody(cfg, env, from, to)[i] == HashEffects(cfg, env, from, to)[i - |index|];
      HashIsOnward(cfg, env, final, from, to, c, i - |index|);
    }
  }

  lemma HashIsOnward(cfg: Config, env: Env, final: Block, from: nat, to: nat, c: nat, i: nat)
    requires c < from <= to <= Height(env.tip) <= Height(final) && i < |HashEffects(cfg, env, from, to)|
    requires At(env.tip, from) == At(final, from) && At(env.tip, to) == At(final, to)
    ensures Onward(HashEffects(cfg, env, from, to)[i], c, final)
  {
  }

  lemma HashesAreNotIndexing(cfg: Config, env: Env, from: nat, to: nat)
    requires from <= to <= Height(env.tip)
    ensures forall i :: 0 <= i < |HashEffects(cfg, env, from, to)| ==> !HashEffects(cfg, env, from, to)[i].IndexBlock?
  {
  }

  lemma WholeBodyIndexes(cfg: Config, d: Disk, env: Env, from: nat, to: nat)
    requires 0 < from <= to <= Height(env.tip)
    ensures DoAll(d, BatchBody(cfg, env, from, to)).indexed == d.indexed + LiveRange(env.tip, from, to + 1)
  {
    var index, hash := IndexEffects(env.tip, from, to + 1), HashEffects(cfg, env, from, to);
    IndexEffectsDo(d, env.tip, from, to + 1);
    DoBoth(d, index, hash);
    HashesAreNotIndexing(cfg, env, from, to);
    HashesKeepIndexed(DoAll(d, index), hash);
  }

  /** The blocks between the cursors of `d` and `e` are indexed as on the chain. */
  ghost predicate NewlyLive(d: Disk, e: Disk, final: Block) {
    d.cursor <= e.cursor <= Height(final) &&
    forall h :: d.cursor < h <= e.cursor ==> h in e.indexed && e.indexed[h] == At(final, h)
  }

  lemma WholeBatchOnward(cfg: Config, d: Disk, env: Env, final: Block, to: nat)
    requires Settled(d, final) && Grown(env.tip, final) && d.cursor < to <= Height(env.tip)
    ensures var e := DoAll(d, BatchBody(cfg, env, d.cursor + 1, to) + [SetCursor(to)]);
            Settled(e, final) && e.cursor == to && KeepsIndexed(d, e, d.cursor) && NewlyLive(d, e, final)
  {
    var body := BatchBody(cfg, env, d.cursor + 1, to);
    forall i | 0 <= i < |body|
      ensures Onward(body[i], d.cursor, final)
    {
      BodyIsOnward(cfg, env, final, d.cursor + 1, to, d.cursor, i);
    }
    OnwardKeeps(d, body, final);
    WholeBodyIndexes(cfg, d, env, d.cursor + 1, to);
    DoOneMore(d, body, SetCursor(to));
    forall h | d.cursor < h <= to
      ensures At(env.tip, h) == At(final, h)
    {
      GrownAgrees(env.tip, final, h);
    }
  }

  lemma CutBatchOnward(cfg: Config, d: Disk, env: Env, final: Block, to: nat, cut: nat)
    requires Settled(d, final) && Grown(env.tip, final) && d.cursor < to <= Height(env.tip)
    requires cut <= |BatchBody(cfg, env, d.cursor + 1, to)|
    ensures var e := DoAll(d, BatchBody(cfg, env, d.cursor + 1, to)[..cut]);
            Settled(e, final) && e.cursor == d.cursor && KeepsIndexed(d, e, d.cursor)
  {
    var body := BatchBody(cfg, env, d.cursor + 1, to);
    forall i | 0 <= i < cut
      ensures Onward(body[..cut][i], d.cursor, final)
    {
      BodyIsOnward(cfg, env, final, d.cursor + 1, to, d.cursor, i);
    }
    OnwardKeeps(d, body[..cut], final);
  }

  /** The effects of a turn that does not rewind. */
  lemma BatchShape(cfg: Config, d: Disk, env: Env)
    requires ValidEnv(env) && cfg.watched && !Rewinding(cfg, d, env)
    ensures var plan := Iteration(cfg, d, env);
            if plan.effects == [] then plan.outcome != Advanced
            else env.latest.Some? && d.cursor < BatchEnd(cfg, d, env) <= Height(env.tip) &&
                 var body := BatchBody(cfg, env, d.cursor + 1, BatchEnd(cfg, d, env));
                 plan.effects == if plan.outcome == Advanced then body + [SetCursor(BatchEnd(cfg, d, env))] else body
  {
  }

  /** A completed batch has indexed exactly its blocks, each as it is on the live chain. */
  lemma AdvanceIndexes(cfg: Config, d: Disk, env: Env)
    requires ValidEnv(env) && cfg.watched && Iteration(cfg, d, env).outcome == Advanced
    ensures var e := Next(cfg, d, env);
            && d.cursor < e.cursor <= Height(env.tip)
            && (forall h :: d.cursor < h <= e.cursor ==> h in e.indexed && e.indexed[h] == At(env.tip, h))
            && (forall h :: !(d.cursor < h <= e.cursor) ==> (h in e.indexed <==> h in d.indexed) && (h in d.indexed ==> e.indexed[h] == d.indexed[h]))
  {
    BatchShape(cfg, d, env);
    BatchIndexes(cfg, d, env, BatchEnd(cfg, d, env));
  }

  lemma BatchIndexes(cfg: Config, d: Disk, env: Env, to: nat)
    requires d.cursor < to <= Height(env.tip)
    ensures var e := DoAll(d, BatchBody(cfg, env, d.cursor + 1, to) + [SetCursor(to)]);
            e.cursor == to && e.indexed == d.indexed + LiveRange(env.tip, d.cursor + 1, to + 1)
  {
    WholeBodyIndexes(cfg, d, env, d.cursor + 1, to);
    DoOneMore(d, BatchBody(cfg, env, d.cursor + 1, to), SetCursor(to));
  }

  lemma SettledDoesNotRewind(cfg: Config, d: Disk, env: Env, final: Block)
    requires Settled(d, final) && ValidEnv(env) && Grown(env.tip, final)
    ensures !Rewinding(cfg, d, env)
  {
    if d.cursor <= Height(env.tip) {
      GrownAgrees(env.tip, final, d.cursor);
    }
  }

  lemma TurnOnward(cfg: Config, d: Disk, t: Turn, e: Disk, final: Block)
    requires cfg.watched && Taken(cfg, d, t, e) && Settled(d, final) && Grown(t.env.tip, final)
    ensures Settled(e, final) && KeepsIndexed(d, e, d.cursor) && NewlyLive(d, e, final)
  {
    var plan := Iteration(cfg, d, t.env);
    SettledDoesNotRewind(cfg, d, t.env, final);
    BatchShape(cfg, d, t.env);
    if t.cut == 0 {
      assert plan.effects[..t.cut] == [];
    } else {
      var to := BatchEnd(cfg, d, t.env);
      var body := BatchBody(cfg, t.env, d.cursor + 1, to);
      if t.cut <= |body| {
        assert plan.effects[..t.cut] == body[..t.cut];
        CutBatchOnward(cfg, d, t.env, final, to, t.cut);
      } else {
        assert plan.effects[..t.cut] == body + [SetCursor(to)];
        WholeBatchOnward(cfg, d, t.env, final, to);
      }
    }
  }

  ghost predicate GrowsInto(turns: seq<Turn>, m: nat, final: Block) {
    forall i :: m <= i < |turns| ==> Grown(turns[i].env.tip, final)
  }

  /** On a chain that only grows the cursor never falls, and what lies at or below it is
      never indexed again: a block that is stale by then is stale for good. */
  lemma {:induction false} GrowthIsForGood(cfg: Config, disks: seq<Disk>, turns: seq<Turn>, final: Block, m: nat, n: nat)
    requires History(cfg, disks, turns) && cfg.watched && m <= n <= |turns|
    requires Settled(disks[m], final) && GrowsInto(turns, m, final)
    ensures Settled(disks[n], final) && KeepsIndexed(disks[m], disks[n], disks[m].cursor)
    ensures NewlyLive(disks[m], disks[n], final)
  {
    if m < n {
      GrowthIsForGood(cfg, disks, turns, final, m, n - 1);
      assert Taken(cfg, disks[n - 1], turns[n - 1], disks[n]);
      TurnOnward(cfg, disks[n - 1], turns[n - 1], disks[n], final);
    }
  }

  /** The first turn that meets the other chain: no call fails and it is not cut. */
  ghost predicate MeetsClearly(cfg: Config, d: Disk, t: Turn) {
    Clear(cfg, d, t.env) && Completed(cfg, d, t)
  }

  lemma ClearTurnSettles(cfg: Config, d: Disk, t: Turn, e: Disk, final: Block)
    requires Taken(cfg, d, t, e) && MeetsClearly(cfg, d, t) && Grown(t.env.tip, final)
    requires 0 !in d.records && forall h :: h in d.records ==> h <= d.cursor
    ensures e == Next(cfg, d, t.env) && Settled(e, final)
  {
    assert Iteration(cfg, d, t.env).effects[..t.cut] == Iteration(cfg, d, t.env).effects;
    ClearIsCleanOrRewind(cfg, d, t.env);
    if Rewinding(cfg, d, t.env) {
      RewindPostcondition(cfg, d, t.env);
      GrownAgrees(t.env.tip, final, e.cursor);
    } else {
      AdvancedDo(cfg, d, t.env);
      GrownAgrees(t.env.tip, final, e.cursor);
    }
  }

  /** Indexed along one chain with whatever records, none of them above the cursor. */
  ghost predicate Uniform(d: Disk, was: Block) {
    Faithful(d, was) && 0 !in d.records && forall h :: h in d.records ==> h <= d.cursor
  }

  lemma FirstMeeting(cfg: Config, d: Disk, t: Turn, e: Disk, was: Block, final: Block)
    requires Taken(cfg, d, t, e) && MeetsClearly(cfg, d, t) && Grown(t.env.tip, final) && Uniform(d, was)
    ensures Settled(e, final) && Divided(e, was, t.env.tip, WindowStart(d.records, d.cursor))
  {
    ClearTurnSettles(cfg, d, t, e, final);
    ClearTurnDivides(cfg, d, t.env, was);
  }

  lemma StaysDivided(cfg: Config, disks: seq<Disk>, turns: seq<Turn>, was: Block, final: Block, m: nat, n: nat, w: nat)
    requires History(cfg, disks, turns) && m < n <= |turns| && GrowsInto(turns, m, final)
    requires MeetsClearly(cfg, disks[m], turns[m]) && Uniform(disks[m], was)
    requires w == WindowStart(disks[m].records, disks[m].cursor)
    ensures Divided(disks[n], was, final, w)
  {
    assert Taken(cfg, disks[m], turns[m], disks[m + 1]);
    FirstMeeting(cfg, disks[m], turns[m], disks[m + 1], was, final);
    GrowthIsForGood(cfg, disks, turns, final, m + 1, n);
    DividedStays(disks[m + 1], disks[n], was, turns[m].env.tip, final, w);
  }

  /** The chain `was`, whose records may be as sparse as they like, is replaced by one
      that then grows into `final`. From the first clear turn on, whatever fails or
      crashes later: every block below the window keeps its old indexing for good,
      every block above it is live. So the replaced fork leaves nothing behind if and
      only if it forked off above the window, or the window begins at block 1. */
  lemma ReplacedForkExactly(cfg: Config, disks: seq<Disk>, turns: seq<Turn>, was: Block, final: Block, m: nat, n: nat)
    requires History(cfg, disks, turns) && m < n <= |turns| && GrowsInto(turns, m, final)
    requires MeetsClearly(cfg, disks[m], turns[m]) && Uniform(disks[m], was)
    ensures var w := WindowStart(disks[m].records, disks[m].cursor);
            && Divided(disks[n], was, final, w)
            && (IndexedAs(disks[n], final) <==> w == 1 || At(was, w - 1) == At(final, w - 1))
  {
    var w := WindowStart(disks[m].records, disks[m].cursor);
    StaysDivided(cfg, disks, turns, was, final, m, n, w);
    DividedIsLive(disks[n], was, final, w);
  }

  lemma DividedStays(d: Disk, e: Disk, was: Block, tip: Block, final: Block, w: nat)
    requires Divided(d, was, tip, w) && Grown(tip, final)
    requires KeepsIndexed(d, e, d.cursor) && NewlyLive(d, e, final)
    ensures Divided(e, was, final, w)
  {
    forall h | w <= h <= d.cursor
      ensures At(tip, h) == At(final, h)
    {
      GrownAgrees(tip, final, h);
    }
  }

  // ---- How far down the records reach ----

  /** A completed batch of three or more blocks leaves a window of one block; a narrower
      one extends the window that was there, down to where it is pruned. */
  lemma WindowAfterBatch(cfg: Config, d: Disk, env: Env)
    requires Clear(cfg, d, env) && !Rewinding(cfg, d, env) && forall h :: h in d.records ==> h <= d.cursor
    ensures var from, to, old_ := d.cursor + 1, BatchEnd(cfg, d, env), WindowStart(d.records, d.cursor);
            && d.cursor < to
            && Next(cfg, d, env).cursor == to
            && WindowStart(Next(cfg, d, env).records, to) ==
               if to > from + 1 then to else if old_ + 256 < to then to - 256 else old_
  {
    var from, to, old_ := d.cursor + 1, BatchEnd(cfg, d, env), WindowStart(d.records, d.cursor);
    ClearIsCleanOrRewind(cfg, d, env);
    AdvancedDo(cfg, d, env);
    WindowStartIs(Next(cfg, d, env).records, to,
                  if to > from + 1 then to else if old_ + REORG_PRUNE_DEPTH < to then to - REORG_PRUNE_DEPTH else old_);
  }

  lemma RecordedOne(d: Disk, env: Env, from: nat, to: nat, h: nat)
    requires from <= to <= Height(env.tip) && h in Recorded(d.records, env, from, to)
    ensures h == from || h == to || h in d.records
    ensures Recorded(d.records, env, from, to)[h] ==
            if h == from || h == to then RecordOf(At(env.tip, h)) else d.records[h]
  {
  }

  lemma WrittenIsUniform(d: Disk, env: Env, to: nat)
    requires Uniform(d, env.tip) && d.cursor < to <= Height(env.tip)
    ensures Uniform(Written(d, env, d.cursor + 1, to), env.tip)
  {
    var records := Recorded(d.records, env, d.cursor + 1, to);
    forall h | h in records
      ensures 0 < h <= to && records[h].hash == At(env.tip, h)
    {
      RecordedLive(d, env, to, h);
    }
  }

  lemma RecordedLive(d: Disk, env: Env, to: nat, h: nat)
    requires Uniform(d, env.tip) && d.cursor < to <= Height(env.tip) && h in Recorded(d.records, env, d.cursor + 1, to)
    ensures 0 < h <= to && Recorded(d.records, env, d.cursor + 1, to)[h].hash == At(env.tip, h)
  {
    RecordedOne(d, env, d.cursor + 1, to, h);
  }

  lemma BatchIsUniform(cfg: Config, d: Disk, t: Turn, e: Disk)
    requires Taken(cfg, d, t, e) && MeetsClearly(cfg, d, t) && Uniform(d, t.env.tip)
    ensures !Rewinding(cfg, d, t.env) && e == Next(cfg, d, t.env) && Uniform(e, t.env.tip)
  {
    assert Iteration(cfg, d, t.env).effects[..t.cut] == Iteration(cfg, d, t.env).effects;
    ClearIsCleanOrRewind(cfg, d, t.env);
    AdvancedDo(cfg, d, t.env);
    WrittenIsUniform(d, t.env, BatchEnd(cfg, d, t.env));
  }

  lemma WideBatchLeaves(cfg: Config, d: Disk, t: Turn, e: Disk)
    requires Taken(cfg, d, t, e) && MeetsClearly(cfg, d, t) && Uniform(d, t.env.tip)
    requires d.cursor + 3 <= BatchEnd(cfg, d, t.env)
    ensures Uniform(e, t.env.tip) && e.cursor == BatchEnd(cfg, d, t.env) == WindowStart(e.records, e.cursor)
  {
    BatchIsUniform(cfg, d, t, e);
    WindowAfterBatch(cfg, d, t.env);
  }

  /** Batches of three or more blocks hide forks: when the turn after such a batch meets
      another chain, every block below the batch's last keeps its old indexing for good,
      although nothing fails; so a block stays stale if and only if the last block but
      one was replaced. */
  lemma WideBatchHidesFork(cfg: Config, disks: seq<Disk>, turns: seq<Turn>, before: Block, after: Block, m: nat, n: nat)
    requires History(cfg, disks, turns) && m + 1 < n <= |turns| && GrowsInto(turns, m + 1, after)
    requires MeetsClearly(cfg, disks[m], turns[m]) && turns[m].env.tip == before && Uniform(disks[m], before)
    requires MeetsClearly(cfg, disks[m + 1], turns[m + 1])
    requires disks[m].cursor + 3 <= BatchEnd(cfg, disks[m], turns[m].env)
    ensures var to := BatchEnd(cfg, disks[m], turns[m].env);
            && Divided(disks[n], before, after, to)
            && (IndexedAs(disks[n], after) <==> At(before, to - 1) == At(after, to - 1))
  {
    assert Taken(cfg, disks[m], turns[m], disks[m + 1]);
    WideBatchLeaves(cfg, disks[m], turns[m], disks[m + 1]);
    ReplacedForkExactly(cfg, disks, turns, before, after, m + 1, n);
  }

  // ---- Narrow batches, over whole histories ----

  /** Every completed batch spans at most two blocks and has saved its hashes. */
  ghost predicate AllNarrow(cfg: Config, disks: seq<Disk>, turns: seq<Turn>) {
    |disks| == |turns| + 1 &&
    forall i :: 0 <= i < |turns| ==> ValidEnv(turns[i].env) && Narrow(cfg, disks[i], turns[i].env)
  }

  predicate Narrow(cfg: Config, d: Disk, env: Env)
    requires ValidEnv(env)
  {
    Iteration(cfg, d, env).outcome == Advanced ==>
      && cfg.watched && cfg.tracking && BatchEnd(cfg, d, env) <= d.cursor + 2
      && d.cursor + 1 !in env.faults.save && BatchEnd(cfg, d, env) !in env.faults.save
  }

  /** The highest block that a turn before the `n`-th has aimed at. */
  function Aimed(cfg: Config, disks: seq<Disk>, turns: seq<Turn>, n: nat): nat
    requires n <= |turns| < |disks|
  {
    if n == 0 then disks[0].cursor
    else
      var before := Aimed(cfg, disks, turns, n - 1);
      if turns[n - 1].env.latest.None? then before else Max(before, BatchEnd(cfg, disks[n - 1], turns[n - 1].env))
  }

  function Max(a: nat, b: nat): nat {
    if a < b then b else a
  }

  /** The lowest block that is certain to be recorded. */
  function Floor(first: nat, aimed: nat): nat {
    if aimed > first + REORG_PRUNE_DEPTH then aimed - REORG_PRUNE_DEPTH else first
  }

  ghost predicate ReachesBack(d: Disk, lo: nat) {
    forall h :: lo <= h <= d.cursor ==> h in d.records
  }

  /** An effect that removes no record from `lo` up to the cursor, nor moves the cursor. */
  predicate Sparing(e: Effect, cursor: nat, lo: nat) {
    match e
    case IndexBlock(_, _) => true
    case SaveHash(_, _) => true
    case Prune(below) => below <= lo
    case DeleteFrom(h) => h > cursor
    case SetCursor(_) => false
  }

  lemma {:induction false} SparingReachesBack(d: Disk, es: seq<Effect>, lo: nat)
    requires ReachesBack(d, lo) && forall i :: 0 <= i < |es| ==> Sparing(es[i], d.cursor, lo)
    ensures ReachesBack(DoAll(d, es), lo) && DoAll(d, es).cursor == d.cursor
  {
    if es != [] {
      SparingReachesBack(d, es[..|es| - 1], lo);
    }
  }

  lemma BodyIsSparing(cfg: Config, env: Env, from: nat, to: nat, c: nat, lo: nat, i: nat)
    requires from <= to <= Height(env.tip) && to <= lo + REORG_PRUNE_DEPTH && i < |BatchBody(cfg, env, from, to)|
    ensures Sparing(BatchBody(cfg, env, from, to)[i], c, lo)
  {
    var index := IndexEffects(env.tip, from, to + 1);
    if i < |index| {
      IndexEffectsAbove(env.tip, from, to + 1, i);
    } else {
      assert BatchBody(cfg, env, from, to)[i] == HashEffects(cfg, env, from, to)[i - |index|];
      HashIsSparing(cfg, env, from, to, c, lo, i - |index|);
    }
  }

  lemma HashIsSparing(cfg: Config, env: Env, from: nat, to: nat, c: nat, lo: nat, i: nat)
    requires from <= to <= Height(env.tip) && to <= lo + REORG_PRUNE_DEPTH && i < |HashEffects(cfg, env, from, to)|
    ensures Sparing(HashEffects(cfg, env, from, to)[i], c, lo)
  {
  }

  lemma CutBodyReachesBack(cfg: Config, d: Disk, env: Env, to: nat, cut: nat, lo: nat)
    requires ReachesBack(d, lo) && d.cursor < to <= Height(env.tip) && to <= lo + REORG_PRUNE_DEPTH
    requires cut <= |BatchBody(cfg, env, d.cursor + 1, to)|
    ensures ReachesBack(DoAll(d, BatchBody(cfg, env, d.cursor + 1, to)[..cut]), lo)
  {
    var done := BatchBody(cfg, env, d.cursor + 1, to)[..cut];
    forall i | 0 <= i < cut
      ensures Sparing(done[i], d.cursor, lo)
    {
      BodyIsSparing(cfg, env, d.cursor + 1, to, d.cursor, lo, i);
    }
    SparingReachesBack(d, done, lo);
  }

  lemma WholeBatchReachesBack(cfg: Config, d: Disk, env: Env, lo: nat)
    requires ValidEnv(env) && Narrow(cfg, d, env) && Iteration(cfg, d, env).outcome == Advanced
    requires ReachesBack(d, lo) && BatchEnd(cfg, d, env) <= lo + REORG_PRUNE_DEPTH
    ensures ReachesBack(Next(cfg, d, env), lo)
  {
    AdvancedDo(cfg, d, env);
  }

  lemma TurnReachesBack(cfg: Config, d: Disk, t: Turn, e: Disk, lo: nat)
    requires Taken(cfg, d, t, e) && Narrow(cfg, d, t.env) && ReachesBack(d, lo)
    requires t.env.latest.Some? ==> BatchEnd(cfg, d, t.env) <= lo + REORG_PRUNE_DEPTH
    ensures ReachesBack(e, lo)
  {
    var plan := Iteration(cfg, d, t.env);
    if t.cut == |plan.effects| && plan.outcome == Advanced {
      assert plan.effects[..t.cut] == plan.effects;
      WholeBatchReachesBack(cfg, d, t.env, lo);
    } else if plan.effects == [] {
      assert plan.effects[..t.cut] == [];
    } else if Rewinding(cfg, d, t.env) {
      RewindCut(d, t.env, WalkBack(d, t.env, d.cursor), t.cut);
    } else {
      var to := BatchEnd(cfg, d, t.env);
      NarrowShape(cfg, d, t.env);
      assert plan.effects[..t.cut] == BatchBody(cfg, t.env, d.cursor + 1, to)[..t.cut];
      CutBodyReachesBack(cfg, d, t.env, to, t.cut, lo);
    }
  }

  lemma NarrowShape(cfg: Config, d: Disk, env: Env)
    requires ValidEnv(env) && Narrow(cfg, d, env) && !Rewinding(cfg, d, env) && Iteration(cfg, d, env).effects != []
    ensures cfg.watched
    ensures env.latest.Some? && d.cursor < BatchEnd(cfg, d, env) <= Height(env.tip)
    ensures var plan, body := Iteration(cfg, d, env), BatchBody(cfg, env, d.cursor + 1, BatchEnd(cfg, d, env));
            plan.effects == if plan.outcome == Advanced then body + [SetCursor(BatchEnd(cfg, d, env))] else body
  {
  }

  /** However the chain changes and whatever fails or crashes, the records reach from
      the cursor down to the prune depth below the highest block aimed at so far. */
  lemma {:induction false} RecordsReachBack(cfg: Config, disks: seq<Disk>, turns: seq<Turn>, first: nat, n: nat)
    requires History(cfg, disks, turns) && AllNarrow(cfg, disks, turns) && n <= |turns|
    requires ReachesBack(disks[0], first)
    ensures ReachesBack(disks[n], Floor(first, Aimed(cfg, disks, turns, n)))
  {
    if n > 0 {
      RecordsReachBack(cfg, disks, turns, first, n - 1);
      assert Taken(cfg, disks[n - 1], turns[n - 1], disks[n]);
      TurnReachesBack(cfg, disks[n - 1], turns[n - 1], disks[n], Floor(first, Aimed(cfg, disks, turns, n)));
    }
  }

  /** The chain that the blocks up to the cursor were last indexed from. */
  ghost function Base(cfg: Config, disks: seq<Disk>, turns: seq<Turn>, was: Block, n: nat): Block
    requires n <= |turns| < |disks|
  {
    if n == 0 then was
    else if BatchCompleted(cfg, disks[n - 1], turns[n - 1]) then turns[n - 1].env.tip
    else Base(cfg, disks, turns, was, n - 1)
  }

  /** Whenever a batch completes, its chain shares with the one indexed before the block
      at the floor of the records, or at the cursor when that is lower. */
  ghost predicate AllShallow(cfg: Config, disks: seq<Disk>, turns: seq<Turn>, was: Block, first: nat, n: nat) {
    forall i :: 0 <= i < n ==> Shallow(cfg, disks, turns, was, first, i)
  }

  ghost predicate Shallow(cfg: Config, disks: seq<Disk>, turns: seq<Turn>, was: Block, first: nat, i: nat) {
    i < |turns| < |disks| && 0 < first &&
    (BatchCompleted(cfg, disks[i], turns[i]) ==>
       Shares(Base(cfg, disks, turns, was, i), turns[i].env.tip,
              Min(disks[i].cursor, Floor(first, Aimed(cfg, disks, turns, i)) - 1)))
  }

  predicate Shares(a: Block, b: Block, h: nat) {
    h == 0 || (h <= Height(a) && h <= Height(b) && At(a, h) == At(b, h))
  }

  ghost predicate NeverStale(cfg: Config, disks: seq<Disk>, turns: seq<Turn>, n: nat) {
    forall i :: 0 <= i < n ==> Healed(cfg, disks, turns, i)
  }

  ghost predicate Healed(cfg: Config, disks: seq<Disk>, turns: seq<Turn>, i: nat) {
    i < |turns| < |disks| && (BatchCompleted(cfg, disks[i], turns[i]) ==> IndexedAs(disks[i + 1], turns[i].env.tip))
  }

  /** A completed batch leaves nothing stale exactly when its chain shares the block at
      the cursor that it started from. */
  lemma AdvanceIsLive(cfg: Config, d: Disk, t: Turn, e: Disk, base: Block)
    requires Taken(cfg, d, t, e) && Narrow(cfg, d, t.env) && BatchCompleted(cfg, d, t) && IndexedAs(d, base)
    ensures d.cursor < Height(t.env.tip) && e.cursor > d.cursor
    ensures IndexedAs(e, t.env.tip) <==> Shares(base, t.env.tip, d.cursor)
    ensures d.cursor in d.records ==> At(t.env.tip, d.cursor) == d.records[d.cursor].hash
  {
    assert Iteration(cfg, d, t.env).effects[..t.cut] == Iteration(cfg, d, t.env).effects;
    AdvancedDo(cfg, d, t.env);
    if d.cursor > 0 {
      assert d.indexed[d.cursor] == At(base, d.cursor) && e.indexed[d.cursor] == d.indexed[d.cursor];
      if Shares(base, t.env.tip, d.cursor) {
        AgreeUpTo(base, t.env.tip, d.cursor);
      }
    }
  }

  lemma OtherTurnShape(cfg: Config, d: Disk, t: Turn, e: Disk)
    requires Taken(cfg, d, t, e) && Narrow(cfg, d, t.env) && !BatchCompleted(cfg, d, t) && !Rewinding(cfg, d, t.env)
    requires Iteration(cfg, d, t.env).effects != []
    ensures t.env.latest.Some? && d.cursor < BatchEnd(cfg, d, t.env) <= Height(t.env.tip)
    ensures var body := BatchBody(cfg, t.env, d.cursor + 1, BatchEnd(cfg, d, t.env));
            t.cut <= |body| && e == DoAll(d, body[..t.cut])
  {
    NarrowShape(cfg, d, t.env);
    var plan, body := Iteration(cfg, d, t.env), BatchBody(cfg, t.env, d.cursor + 1, BatchEnd(cfg, d, t.env));
    assert t.cut <= |body|;
    assert plan.effects[..t.cut] == body[..t.cut];
  }

  lemma CutBodyKeepsIndexed(cfg: Config, d: Disk, env: Env, to: nat, cut: nat)
    requires d.cursor < to <= Height(env.tip) && cut <= |BatchBody(cfg, env, d.cursor + 1, to)|
    ensures var e := DoAll(d, BatchBody(cfg, env, d.cursor + 1, to)[..cut]);
            e.cursor == d.cursor && KeepsIndexed(d, e, d.cursor)
  {
    var done := BatchBody(cfg, env, d.cursor + 1, to)[..cut];
    forall i | 0 <= i < cut
      ensures Quiet(done[i], d.cursor)
    {
      BodyIsQuiet(cfg, env, d.cursor + 1, to, d.cursor, i);
    }
    QuietKeepsIndexed(d, done);
  }

  lemma OtherTurnKeepsBase(cfg: Config, d: Disk, t: Turn, e: Disk, base: Block)
    requires Taken(cfg, d, t, e) && Narrow(cfg, d, t.env) && !BatchCompleted(cfg, d, t) && IndexedAs(d, base)
    ensures IndexedAs(e, base)
  {
    var plan := Iteration(cfg, d, t.env);
    if plan.effects == [] {
      assert plan.effects[..t.cut] == [];
    } else if Rewinding(cfg, d, t.env) {
      RewindCut(d, t.env, WalkBack(d, t.env, d.cursor), t.cut);
    } else {
      OtherTurnShape(cfg, d, t, e);
      CutBodyKeepsIndexed(cfg, d, t.env, BatchEnd(cfg, d, t.env), t.cut);
    }
  }

  lemma {:induction false} QuietKeepsIndexed(d: Disk, es: seq<Effect>)
    requires forall i :: 0 <= i < |es| ==> Quiet(es[i], d.cursor)
    ensures DoAll(d, es).cursor == d.cursor && KeepsIndexed(d, DoAll(d, es), d.cursor)
  {
    if es != [] {
      QuietKeepsIndexed(d, es[..|es| - 1]);
    }
  }

  /** As long as nothing was left stale, the base is what the disk was indexed from. */
  lemma {:induction false} BaseIsIndexed(cfg: Config, disks: seq<Disk>, turns: seq<Turn>, was: Block, n: nat)
    requires History(cfg, disks, turns) && AllNarrow(cfg, disks, turns) && n <= |turns|
    requires IndexedAs(disks[0], was) && NeverStale(cfg, disks, turns, n)
    ensures IndexedAs(disks[n], Base(cfg, disks, turns, was, n))
  {
    if n > 0 {
      BaseIsIndexed(cfg, disks, turns, was, n - 1);
      assert Taken(cfg, disks[n - 1], turns[n - 1], disks[n]);
      assert Healed(cfg, disks, turns, n - 1) && disks[n - 1 + 1] == disks[n];
      if !BatchCompleted(cfg, disks[n - 1], turns[n - 1]) {
        OtherTurnKeepsBase(cfg, disks[n - 1], turns[n - 1], disks[n], Base(cfg, disks, turns, was, n - 1));
      }
    }
  }

  /** One turn of a history, with both readings of what its batch leaves. */
  lemma BatchHealsExactly(cfg: Config, disks: seq<Disk>, turns: seq<Turn>, was: Block, first: nat, i: nat)
    requires History(cfg, disks, turns) && AllNarrow(cfg, disks, turns) && i < |turns| && 0 < first
    requires Dense(disks[i]) && ReachesBack(disks[i], Floor(first, Aimed(cfg, disks, turns, i)))
    requires IndexedAs(disks[i], Base(cfg, disks, turns, was, i))
    ensures Healed(cfg, disks, turns, i) <==> Shallow(cfg, disks, turns, was, first, i)
  {
    var d, t, base, lo := disks[i], turns[i], Base(cfg, disks, turns, was, i), Floor(first, Aimed(cfg, disks, turns, i));
    if BatchCompleted(cfg, d, t) {
      assert Taken(cfg, d, t, disks[i + 1]);
      AdvanceIsLive(cfg, d, t, disks[i + 1], base);
      if lo <= d.cursor {
        assert d.cursor in d.records && Truthful(d, d.cursor);
        AgreeUpTo(base, t.env.tip, d.cursor);
      }
    }
  }

  lemma OneTurnHealsExactly(cfg: Config, disks: seq<Disk>, turns: seq<Turn>, was: Block, first: nat, i: nat)
    requires History(cfg, disks, turns) && AllNarrow(cfg, disks, turns) && i < |turns| && NeverStale(cfg, disks, turns, i)
    requires Dense(disks[0]) && IndexedAs(disks[0], was) && 0 < first && ReachesBack(disks[0], first)
    ensures Healed(cfg, disks, turns, i) <==> Shallow(cfg, disks, turns, was, first, i)
  {
    BaseIsIndexed(cfg, disks, turns, was, i);
    NarrowIsSolid(cfg, disks, turns);
    SafeOverHistory(cfg, disks, turns, i);
    RecordsReachBack(cfg, disks, turns, first, i);
    BatchHealsExactly(cfg, disks, turns, was, first, i);
  }

  /** Two conditions that agree at every index up to the first failure. */
  lemma {:induction false} AllAgree(p: nat -> bool, q: nat -> bool, n: nat)
    requires forall i: nat :: i < n && (forall j: nat :: j < i ==> p(j)) ==> (p(i) <==> q(i))
    ensures (forall i: nat :: i < n ==> p(i)) <==> (forall i: nat :: i < n ==> q(i))
  {
    if n > 0 {
      AllAgree(p, q, n - 1);
    }
  }

  /** Over any history of chain changes, failures and crashes with narrow batches, every
      completed batch leaves every block up to the cursor indexed as on its live chain
      if and only if no change goes deeper than the records: the prune depth below the
      highest block aimed at. */
  lemma ForksHealExactly(cfg: Config, disks: seq<Disk>, turns: seq<Turn>, was: Block, first: nat, n: nat)
    requires History(cfg, disks, turns) && AllNarrow(cfg, disks, turns) && n <= |turns|
    requires Dense(disks[0]) && IndexedAs(disks[0], was) && 0 < first && ReachesBack(disks[0], first)
    ensures NeverStale(cfg, disks, turns, n) <==> AllShallow(cfg, disks, turns, was, first, n)
  {
    var p := (i: nat) => Healed(cfg, disks, turns, i);
    var q := (i: nat) => Shallow(cfg, disks, turns, was, first, i);
    forall i: nat | i < n && forall j: nat :: j < i ==> p(j)
      ensures p(i) <==> q(i)
    {
      assert forall j: nat :: j < i ==> p(j) == Healed(cfg, disks, turns, j);
      OneTurnHealsExactly(cfg, disks, turns, was, first, i);
    }
    AllAgree(p, q, n);
    assert forall i: nat :: i < n ==> p(i) == Healed(cfg, disks, turns, i) && q(i) == Shallow(cfg, disks, turns, was, first, i);
  }

  lemma NarrowIsSolid(cfg: Config, disks: seq<Disk>, turns: seq<Turn>)
    requires AllNarrow(cfg, disks, turns)
    ensures AllSolid(cfg, disks, turns)
  {
    forall i | 0 <= i < |turns|
      ensures ValidEnv(turns[i].env) && Solid(cfg, disks[i], turns[i].env)
    {
      assert Narrow(cfg, disks[i], turns[i].env);
    }
  }

  // ---- A condition that does not mention the run ----

  /** The highest confirmed block that a turn before the `n`-th has seen. */
  function HighestSeen(turns: seq<Turn>, start: nat, n: nat): nat
    requires n <= |turns|
  {
    if n == 0 then start
    else
      var before := HighestSeen(turns, start, n - 1);
      if turns[n - 1].env.latest.None? then before else Max(before, turns[n - 1].env.latest.value)
  }

  lemma {:induction false} AimedIsSeen(cfg: Config, disks: seq<Disk>, turns: seq<Turn>, n: nat)
    requires n <= |turns| < |disks|
    ensures Aimed(cfg, disks, turns, n) <= HighestSeen(turns, disks[0].cursor, n)
  {
    if n > 0 {
      AimedIsSeen(cfg, disks, turns, n - 1);
    }
  }

  /** As far as both chains go, they agree up to height `h`. */
  predicate AgreeUp(a: Block, b: Block, h: nat) {
    Shares(a, b, Min(h, Min(Height(a), Height(b))))
  }

  /** No chain seen differs from an earlier one below the prune depth under the highest
      confirmed block seen before. */
  ghost predicate ShallowChanges(turns: seq<Turn>, was: Block, first: nat, start: nat) {
    0 < first &&
    forall i :: 0 <= i < |turns| ==>
      AgreeUp(was, turns[i].env.tip, Floor(first, HighestSeen(turns, start, i)) - 1) &&
      forall j :: 0 <= j < i ==> AgreeUp(turns[j].env.tip, turns[i].env.tip, Floor(first, HighestSeen(turns, start, i)) - 1)
  }

  lemma AgreeLower(a: Block, b: Block, h: nat, k: nat)
    requires AgreeUp(a, b, h) && k <= h && k <= Height(a) && k <= Height(b)
    ensures Shares(a, b, k)
  {
    var m := Min(h, Min(Height(a), Height(b)));
    if k > 0 {
      AgreeBelow(a, b, m, k);
    }
  }

  lemma {:induction false} BaseIsSeen(cfg: Config, disks: seq<Disk>, turns: seq<Turn>, was: Block, n: nat)
    requires n <= |turns| < |disks|
    ensures Base(cfg, disks, turns, was, n) == was || exists j :: 0 <= j < n && turns[j].env.tip == Base(cfg, disks, turns, was, n)
  {
    if n > 0 {
      BaseIsSeen(cfg, disks, turns, was, n - 1);
    }
  }

  lemma ShallowChangeIsShallow(cfg: Config, disks: seq<Disk>, turns: seq<Turn>, was: Block, first: nat, i: nat)
    requires History(cfg, disks, turns) && AllNarrow(cfg, disks, turns) && i < |turns|
    requires ShallowChanges(turns, was, first, disks[0].cursor) && IndexedAs(disks[i], Base(cfg, disks, turns, was, i))
    ensures Shallow(cfg, disks, turns, was, first, i)
  {
    if BatchCompleted(cfg, disks[i], turns[i]) {
      var base, tip := Base(cfg, disks, turns, was, i), turns[i].env.tip;
      assert Taken(cfg, disks[i], turns[i], disks[i + 1]);
      AdvanceIsLive(cfg, disks[i], turns[i], disks[i + 1], base);
      BaseIsSeen(cfg, disks, turns, was, i);
      AimedIsSeen(cfg, disks, turns, i);
      AgreeLower(base, tip, Floor(first, HighestSeen(turns, disks[0].cursor, i)) - 1,
                 Min(disks[i].cursor, Floor(first, Aimed(cfg, disks, turns, i)) - 1));
    }
  }

  lemma NextTurnHeals(cfg: Config, disks: seq<Disk>, turns: seq<Turn>, was: Block, first: nat, i: nat)
    requires History(cfg, disks, turns) && AllNarrow(cfg, disks, turns) && i < |turns| && NeverStale(cfg, disks, turns, i)
    requires Dense(disks[0]) && IndexedAs(disks[0], was) && ShallowChanges(turns, was, first, disks[0].cursor)
    requires ReachesBack(disks[0], first)
    ensures Healed(cfg, disks, turns, i)
  {
    BaseIsIndexed(cfg, disks, turns, was, i);
    ShallowChangeIsShallow(cfg, disks, turns, was, first, i);
    OneTurnHealsExactly(cfg, disks, turns, was, first, i);
  }

  /** Read before any run: if no chain that is seen differs from an earlier one below the
      prune depth under the highest confirmed block seen before, no completed batch ever
      leaves a stale block, whatever fails and wherever the loop crashes. */
  lemma {:induction false} ShallowChangesHeal(cfg: Config, disks: seq<Disk>, turns: seq<Turn>, was: Block, first: nat, n: nat)
    requires History(cfg, disks, turns) && AllNarrow(cfg, disks, turns) && n <= |turns|
    requires Dense(disks[0]) && IndexedAs(disks[0], was) && ShallowChanges(turns, was, first, disks[0].cursor)
    requires ReachesBack(disks[0], first)
    ensures NeverStale(cfg, disks, turns, n)
  {
    if n > 0 {
      ShallowChangesHeal(cfg, disks, turns, was, first, n - 1);
      NextTurnHeals(cfg, disks, turns, was, first, n - 1);
    }
  }
}
