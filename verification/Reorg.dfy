/** Safety of the loop under chain reorganizations. */
module ReorgSafety {
  import opened Basics
  import opened Chain
  import opened ProcessorModel

  // ---- The backward walk, for any records whatever ----

  /** The walk has found a record that differs from the live chain at every height it
      passed, and stopped at 0, at a height that cannot be read, at a gap or at a match. */
  lemma {:induction false} WalkFinds(d: Disk, env: Env, k: nat)
    requires k <= Height(env.tip)
    ensures var r := WalkBack(d, env, k);
            && (forall h :: r < h <= k ==> Legible(env, h) && h in d.records && d.records[h].hash != At(env.tip, h))
            && (r == 0 || !Legible(env, r) || r !in d.records || d.records[r].hash == At(env.tip, r))
  {
    if k > 0 && k in d.records && At(env.tip, k) != d.records[k].hash && Legible(env, k) {
      WalkFinds(d, env, k - 1);
    }
  }

  /** Neither the record nor the header at this height fails to be read. */
  predicate Legible(env: Env, h: nat) {
    h !in env.faults.walkGet && h !in env.faults.walkHeader
  }

  /** What a rewind leaves, for arbitrary (sparse) records and failures: the walk's
      findings, no record above the new cursor unless the deletion fails, and real
      progress unless the mismatch was at height 0 or cannot be read again. */
  lemma RewindPostcondition(cfg: Config, d: Disk, env: Env)
    requires ValidEnv(env) && Rewinding(cfg, d, env)
    ensures var e := Next(cfg, d, env);
            && e.cursor <= d.cursor < Height(env.tip)
            && (forall h :: e.cursor < h <= d.cursor ==> Legible(env, h) && h in d.records && d.records[h].hash != At(env.tip, h))
            && (e.cursor == 0 || !Legible(env, e.cursor) || e.cursor !in d.records || d.records[e.cursor].hash == At(env.tip, e.cursor))
            && (e.cursor < d.cursor <==> d.cursor > 0 && Legible(env, d.cursor))
            && (forall h :: h in e.records <==> h in d.records && (env.faults.deleteHashes || h <= e.cursor))
            && (forall h :: h in e.records ==> e.records[h] == d.records[h])
            && e.indexed == d.indexed
  {
    var r := WalkBack(d, env, d.cursor);
    WalkFinds(d, env, d.cursor);
    assert CheckReorg(cfg, d, env, d.cursor + 1) == Rewind(r);
    DoOne(d, SetCursor(r));
    DoOneMore(d, [SetCursor(r)], DeleteFrom(r + 1));
    assert Iteration(cfg, d, env).effects == [SetCursor(r)] + if env.faults.deleteHashes then [] else [DeleteFrom(r + 1)];
  }

  // ---- The invariant ----

  /** Up to the cursor, the records are one window that ends at the cursor (or none),
      each linked to the next by its parent hash, and each is the hash under which its
      block was last indexed. Every height up to the cursor has been indexed. Block 0
      is never recorded. */
  ghost predicate Dense(d: Disk) {
    && 0 !in d.records
    && (forall h :: h in d.records && h <= d.cursor ==> Truthful(d, h) && (h < d.cursor ==> Linked(d, h)))
    && (forall h :: 0 < h <= d.cursor ==> h in d.indexed)
  }

  predicate Truthful(d: Disk, h: nat)
    requires h in d.records
  {
    h in d.indexed && d.indexed[h] == d.records[h].hash && Height(d.records[h].hash) == h
  }

  predicate Linked(d: Disk, h: nat)
    requires h in d.records
  {
    h + 1 in d.records && d.records[h + 1].hash.Child? && d.records[h + 1].hash.parent == d.records[h].hash
  }

  /** An effect that leaves recorded and indexed blocks up to the cursor alone, or only
      forgets records from below or lowers the cursor. */
  predicate Quiet(e: Effect, cursor: nat) {
    match e
    case IndexBlock(h, _) => h > cursor
    case SaveHash(h, _) => h > cursor
    case Prune(_) => true
    case DeleteFrom(h) => h > cursor
    case SetCursor(_) => false
  }

  lemma QuietKeepsDense(d: Disk, e: Effect)
    requires Dense(d) && Quiet(e, d.cursor)
    ensures Dense(Do(d, e)) && Do(d, e).cursor == d.cursor
  {
    var f := Do(d, e);
    forall h | h in f.records && h <= f.cursor
      ensures Truthful(f, h) && (h < f.cursor ==> Linked(f, h))
    {
      assert Truthful(d, h) && (h < d.cursor ==> Linked(d, h));
    }
  }

  lemma {:induction false} AllQuietKeepsDense(d: Disk, es: seq<Effect>)
    requires Dense(d) && forall i :: 0 <= i < |es| ==> Quiet(es[i], d.cursor)
    ensures Dense(DoAll(d, es)) && DoAll(d, es).cursor == d.cursor
  {
    if es != [] {
      AllQuietKeepsDense(d, es[..|es| - 1]);
      QuietKeepsDense(DoAll(d, es[..|es| - 1]), es[|es| - 1]);
    }
  }

  lemma LowerCursorKeepsDense(d: Disk, c: nat)
    requires Dense(d) && c <= d.cursor
    ensures Dense(d.(cursor := c))
  {
    var f := d.(cursor := c);
    forall h | h in f.records && h <= f.cursor
      ensures Truthful(f, h) && (h < f.cursor ==> Linked(f, h))
    {
      assert Truthful(d, h) && (h < d.cursor ==> Linked(d, h));
    }
  }

  // ---- What a batch body does ----

  function LiveRange(tip: Block, from: nat, end: nat): map<nat, Block>
    requires end <= Height(tip) + 1
  {
    map h | from <= h < end :: At(tip, h)
  }

  lemma LiveRangeExtends(m: map<nat, Block>, tip: Block, from: nat, end: nat)
    requires from <= end <= Height(tip)
    ensures m + LiveRange(tip, from, end + 1) == (m + LiveRange(tip, from, end))[end := At(tip, end)]
  {
  }

  lemma {:induction false} IndexEffectsDo(d: Disk, tip: Block, from: nat, end: nat)
    requires from <= end <= Height(tip) + 1
    ensures DoAll(d, IndexEffects(tip, from, end)) == d.(indexed := d.indexed + LiveRange(tip, from, end))
  {
    if from == end {
      assert d.indexed + LiveRange(tip, from, end) == d.indexed;
    } else {
      var m := end - 1;
      IndexEffectsDo(d, tip, from, m);
      OneBlockMore(d, tip, from, m, IndexEffects(tip, from, m));
      assert IndexEffects(tip, from, end) == IndexEffects(tip, from, m) + [IndexBlock(m, At(tip, m))];
    }
  }

  lemma OneBlockMore(d: Disk, tip: Block, from: nat, end: nat, es: seq<Effect>)
    requires from <= end <= Height(tip)
    requires DoAll(d, es) == d.(indexed := d.indexed + LiveRange(tip, from, end))
    ensures DoAll(d, es + [IndexBlock(end, At(tip, end))]) == d.(indexed := d.indexed + LiveRange(tip, from, end + 1))
  {
    DoOneMore(d, es, IndexBlock(end, At(tip, end)));
    LiveRangeExtends(d.indexed, tip, from, end);
  }

  lemma {:induction false} IndexEffectsAbove(tip: Block, from: nat, end: nat, i: nat)
    requires end <= Height(tip) + 1 && i < |IndexEffects(tip, from, end)|
    ensures IndexEffects(tip, from, end)[i].IndexBlock? && IndexEffects(tip, from, end)[i].height >= from
  {
    if i < |IndexEffects(tip, from, end)| - 1 {
      IndexEffectsAbove(tip, from, end - 1, i);
    }
  }

  function Recorded(records: map<nat, Record>, env: Env, from: nat, to: nat): map<nat, Record>
    requires from <= to <= Height(env.tip)
  {
    var saved := records[from := RecordOf(At(env.tip, from))][to := RecordOf(At(env.tip, to))];
    if to > REORG_PRUNE_DEPTH && !env.faults.prune
    then map h | h in saved && h + REORG_PRUNE_DEPTH >= to :: saved[h] else saved
  }

  lemma HashEffectsDo(cfg: Config, d: Disk, env: Env, from: nat, to: nat)
    requires from <= to <= Height(env.tip) && cfg.tracking
    requires from !in env.faults.save && to !in env.faults.save
    ensures DoAll(d, HashEffects(cfg, env, from, to)) == d.(records := Recorded(d.records, env, from, to))
  {
    var saves := SaveEffects(env, from, to);
    var first, last := SaveHash(from, At(env.tip, from)), SaveHash(to, At(env.tip, to));
    DoOne(d, first);
    DoOneMore(d, [first], last);
    assert saves == if from == to then [first] else [first] + [last];
    var saved := d.(records := d.records[from := RecordOf(At(env.tip, from))][to := RecordOf(At(env.tip, to))]);
    assert DoAll(d, saves) == saved;
    DoBoth(d, saves, PruneEffects(env, to));
    if to > REORG_PRUNE_DEPTH && !env.faults.prune {
      DoOne(saved, Prune(to - REORG_PRUNE_DEPTH));
      assert Do(saved, Prune(to - REORG_PRUNE_DEPTH)).records == Recorded(d.records, env, from, to);
    }
  }

  lemma BodyIsQuiet(cfg: Config, env: Env, from: nat, to: nat, c: nat, i: nat)
    requires c < from <= to <= Height(env.tip) && i < |BatchBody(cfg, env, from, to)|
    ensures Quiet(BatchBody(cfg, env, from, to)[i], c)
  {
    var index, hash := IndexEffects(env.tip, from, to + 1), HashEffects(cfg, env, from, to);
    if i < |index| {
      IndexEffectsAbove(env.tip, from, to + 1, i);
    } else {
      assert BatchBody(cfg, env, from, to)[i] == hash[i - |index|];
      HashEffectsAreQuiet(cfg, env, from, to, c, i - |index|);
    }
  }

  lemma HashEffectsAreQuiet(cfg: Config, env: Env, from: nat, to: nat, c: nat, i: nat)
    requires c < from <= to <= Height(env.tip) && i < |HashEffects(cfg, env, from, to)|
    ensures Quiet(HashEffects(cfg, env, from, to)[i], c)
  {
  }

  /** A batch whose hashes were all saved, and that spans at most two blocks, or so
      many that its own first block is pruned at once. Over such a wide batch no
      stale record may be left behind by a crash. */
  ghost predicate Solid(cfg: Config, d: Disk, env: Env)
    requires ValidEnv(env)
  {
    Iteration(cfg, d, env).outcome == Advanced ==>
      var from, to := d.cursor + 1, BatchEnd(cfg, d, env);
      && cfg.watched && cfg.tracking && from !in env.faults.save && to !in env.faults.save
      && NarrowOrWide(d, env, from, to)
  }

  /** After a completed batch every recorded block up to the cursor was last indexed
      under its live hash. */
  ghost predicate LiveWindow(d: Disk, tip: Block) {
    d.cursor <= Height(tip) &&
    forall h :: h in d.records && h <= d.cursor ==>
      d.records[h].hash == At(tip, h) && h in d.indexed && d.indexed[h] == At(tip, h)
  }

  /** The disk after a completed batch, table by table. */
  lemma AdvancedDo(cfg: Config, d: Disk, env: Env)
    requires ValidEnv(env) && Iteration(cfg, d, env).outcome == Advanced && cfg.watched && cfg.tracking
    requires d.cursor + 1 !in env.faults.save && BatchEnd(cfg, d, env) !in env.faults.save
    ensures var from, to := d.cursor + 1, BatchEnd(cfg, d, env);
            && from <= to <= Height(env.tip)
            && (d.cursor in d.records ==> At(env.tip, d.cursor) == d.records[d.cursor].hash)
            && Next(cfg, d, env) == Written(d, env, from, to)
  {
    var from, to := d.cursor + 1, BatchEnd(cfg, d, env);
    assert CheckReorg(cfg, d, env, from) == Clean;
    BatchDo(cfg, d, env, from, to);
  }

  lemma HashesOnIndexed(cfg: Config, d: Disk, env: Env, from: nat, to: nat, indexed: map<nat, Block>)
    requires from <= to <= Height(env.tip) && cfg.tracking
    requires from !in env.faults.save && to !in env.faults.save
    ensures DoAll(d.(indexed := indexed), HashEffects(cfg, env, from, to)) ==
            Disk(d.cursor, Recorded(d.records, env, from, to), indexed)
  {
    HashEffectsDo(cfg, d.(indexed := indexed), env, from, to);
  }

  lemma BatchBodyDo(cfg: Config, d: Disk, env: Env, from: nat, to: nat)
    requires from <= to <= Height(env.tip) && cfg.tracking
    requires from !in env.faults.save && to !in env.faults.save
    ensures DoAll(d, BatchBody(cfg, env, from, to)) == Written(d, env, from, to).(cursor := d.cursor)
  {
    IndexEffectsDo(d, env.tip, from, to + 1);
    HashesOnIndexed(cfg, d, env, from, to, d.indexed + LiveRange(env.tip, from, to + 1));
    DoBoth(d, IndexEffects(env.tip, from, to + 1), HashEffects(cfg, env, from, to));
  }

  lemma BatchDo(cfg: Config, d: Disk, env: Env, from: nat, to: nat)
    requires from <= to <= Height(env.tip) && cfg.tracking
    requires from !in env.faults.save && to !in env.faults.save
    ensures DoAll(d, BatchBody(cfg, env, from, to) + [SetCursor(to)]) == Written(d, env, from, to)
  {
    BatchBodyDo(cfg, d, env, from, to);
    DoOneMore(d, BatchBody(cfg, env, from, to), SetCursor(to));
  }

  lemma AdvanceKeepsDense(cfg: Config, d: Disk, env: Env)
    requires ValidEnv(env) && Dense(d) && Solid(cfg, d, env) && Iteration(cfg, d, env).outcome == Advanced
    ensures Dense(Next(cfg, d, env)) && LiveWindow(Next(cfg, d, env), env.tip)
  {
    AdvancedDo(cfg, d, env);
    var from, to := d.cursor + 1, BatchEnd(cfg, d, env);
    WrittenWindow(d, env, from, to);
    WindowIsLive(Next(cfg, d, env), env.tip);
  }

  /** The disk that a completed batch leaves. */
  function Written(d: Disk, env: Env, from: nat, to: nat): Disk
    requires from <= to <= Height(env.tip)
  {
    Disk(to, Recorded(d.records, env, from, to), d.indexed + LiveRange(env.tip, from, to + 1))
  }

  predicate NarrowOrWide(d: Disk, env: Env, from: nat, to: nat) {
    to <= from + 1 ||
    (from + REORG_PRUNE_DEPTH < to && !env.faults.prune && forall h | h in d.records :: !(from < h < to))
  }

  lemma WrittenTruthful(d: Disk, env: Env, from: nat, to: nat, h: nat)
    requires Dense(d) && from == d.cursor + 1 && from <= to <= Height(env.tip) && NarrowOrWide(d, env, from, to)
    requires h <= to && h in Recorded(d.records, env, from, to)
    ensures Truthful(Written(d, env, from, to), h)
  {
    if h < from {
      assert Truthful(d, h);
    }
  }

  /** Records from before the batch that it keeps. */
  lemma OlderStay(before: map<nat, Record>, records: map<nat, Record>, env: Env, from: nat, to: nat, h: nat)
    requires from <= to <= Height(env.tip) && records == Recorded(before, env, from, to)
    requires h in records && h < from
    ensures h in before && records[h] == before[h]
    ensures h + 1 < from && h + 1 in before ==> h + 1 in records && records[h + 1] == before[h + 1]
    ensures h + 1 == from ==> from in records && records[from] == RecordOf(At(env.tip, from))
  {
  }

  /** A record above the cursor that is followed by another is that of the first block. */
  lemma NewerAreEnds(d: Disk, records: map<nat, Record>, env: Env, from: nat, to: nat, h: nat)
    requires from <= to <= Height(env.tip) && records == Recorded(d.records, env, from, to) && NarrowOrWide(d, env, from, to)
    requires h in records && from <= h < to
    ensures h == from && to == from + 1 && to in records
    ensures records[h] == RecordOf(At(env.tip, h)) && records[to] == RecordOf(At(env.tip, to))
  {
  }

  lemma WrittenLinked(d: Disk, env: Env, from: nat, to: nat, h: nat)
    requires Dense(d) && from == d.cursor + 1 && from <= to <= Height(env.tip) && NarrowOrWide(d, env, from, to)
    requires d.cursor in d.records ==> At(env.tip, d.cursor) == d.records[d.cursor].hash
    requires h < to && h in Recorded(d.records, env, from, to)
    ensures Linked(Written(d, env, from, to), h)
  {
    var records := Recorded(d.records, env, from, to);
    ParentAt(env.tip, h + 1);
    if h < from {
      OlderStay(d.records, records, env, from, to, h);
      assert h < d.cursor ==> Linked(d, h);
    } else {
      NewerAreEnds(d, records, env, from, to, h);
    }
  }

  lemma WrittenWindow(d: Disk, env: Env, from: nat, to: nat)
    requires Dense(d) && from == d.cursor + 1 && from <= to <= Height(env.tip) && NarrowOrWide(d, env, from, to)
    requires d.cursor in d.records ==> At(env.tip, d.cursor) == d.records[d.cursor].hash
    ensures Dense(Written(d, env, from, to))
  {
    var e := Written(d, env, from, to);
    forall h | h in e.records && h <= e.cursor
      ensures Truthful(e, h) && (h < e.cursor ==> Linked(e, h))
    {
      WrittenTruthful(d, env, from, to, h);
      if h < to {
        WrittenLinked(d, env, from, to, h);
      }
    }
  }

  /** A window whose last block is live is live throughout. */
  lemma WindowIsLive(d: Disk, tip: Block)
    requires Dense(d) && d.cursor <= Height(tip)
    requires d.cursor in d.records ==> d.records[d.cursor].hash == At(tip, d.cursor)
    ensures LiveWindow(d, tip)
  {
    forall h | h in d.records && h <= d.cursor
      ensures d.records[h].hash == At(tip, h)
    {
      LiveFrom(d, tip, h);
    }
  }

  lemma {:induction false} LiveFrom(d: Disk, tip: Block, h: nat)
    requires Dense(d) && d.cursor <= Height(tip)
    requires d.cursor in d.records ==> d.records[d.cursor].hash == At(tip, d.cursor)
    requires h in d.records && h <= d.cursor
    ensures d.records[h].hash == At(tip, h)
    decreases d.cursor - h
  {
    assert Truthful(d, h);
    if h < d.cursor {
      assert Linked(d, h);
      LiveFrom(d, tip, h + 1);
      ParentAt(tip, h + 1);
    }
  }

  // ---- One turn, cut anywhere ----

  /** A rewind cut anywhere has done nothing, moved the cursor, or deleted as well. */
  lemma RewindCut(d: Disk, env: Env, r: nat, cut: nat)
    requires cut <= |RewindEffects(env, r)|
    ensures var e := DoAll(d, RewindEffects(env, r)[..cut]);
            e == d || e == d.(cursor := r) || e == Do(d.(cursor := r), DeleteFrom(r + 1))
  {
    DoOne(d, SetCursor(r));
    if cut == 0 {
      assert RewindEffects(env, r)[..cut] == [];
    } else if cut == 1 {
      assert RewindEffects(env, r)[..cut] == [SetCursor(r)];
    } else {
      assert RewindEffects(env, r)[..cut] == [SetCursor(r)] + [DeleteFrom(r + 1)];
      DoOneMore(d, [SetCursor(r)], DeleteFrom(r + 1));
    }
  }

  lemma RewindCutKeepsDense(d: Disk, env: Env, r: nat, cut: nat)
    requires Dense(d) && r <= d.cursor && cut <= |RewindEffects(env, r)|
    ensures Dense(DoAll(d, RewindEffects(env, r)[..cut]))
  {
    RewindCut(d, env, r, cut);
    LowerCursorKeepsDense(d, r);
    QuietKeepsDense(d.(cursor := r), DeleteFrom(r + 1));
  }

  lemma BodyCutKeepsDense(cfg: Config, d: Disk, env: Env, from: nat, to: nat, cut: nat)
    requires Dense(d) && d.cursor < from <= to <= Height(env.tip) && cut <= |BatchBody(cfg, env, from, to)|
    ensures Dense(DoAll(d, BatchBody(cfg, env, from, to)[..cut]))
  {
    var done := BatchBody(cfg, env, from, to)[..cut];
    forall i | 0 <= i < cut
      ensures Quiet(done[i], d.cursor)
    {
      BodyIsQuiet(cfg, env, from, to, d.cursor, i);
    }
    AllQuietKeepsDense(d, done);
  }

  /** The effects of a turn are nothing, those of a rewind, or a batch body, with the
      cursor update after it when the turn advances. */
  lemma TurnShape(cfg: Config, d: Disk, env: Env)
    requires ValidEnv(env) && Solid(cfg, d, env)
    ensures var plan := Iteration(cfg, d, env);
            || plan.effects == []
            || (Rewinding(cfg, d, env) && plan.outcome != Advanced && plan.effects == RewindEffects(env, WalkBack(d, env, d.cursor)))
            || (!Rewinding(cfg, d, env) && env.latest.Some? && d.cursor < BatchEnd(cfg, d, env) <= Height(env.tip) &&
                var body := BatchBody(cfg, env, d.cursor + 1, BatchEnd(cfg, d, env));
                if plan.outcome == Advanced then plan.effects == body + [SetCursor(BatchEnd(cfg, d, env))]
                else plan.effects == body)
  {
  }

  /** The invariant survives a crash after any number of the turn's durable writes,
      whatever calls fail and however the chain has changed since the last turn. */
  lemma TurnKeepsDense(cfg: Config, d: Disk, env: Env, cut: nat)
    requires ValidEnv(env) && Dense(d) && Solid(cfg, d, env) && cut <= |Iteration(cfg, d, env).effects|
    ensures Dense(DoAll(d, Iteration(cfg, d, env).effects[..cut]))
  {
    var plan := Iteration(cfg, d, env);
    TurnShape(cfg, d, env);
    if cut == |plan.effects| && plan.outcome == Advanced {
      assert plan.effects[..cut] == plan.effects;
      AdvanceKeepsDense(cfg, d, env);
    } else if plan.effects == [] {
      assert plan.effects[..cut] == [];
    } else if Rewinding(cfg, d, env) {
      RewindCutKeepsDense(d, env, WalkBack(d, env, d.cursor), cut);
    } else {
      var from, to := d.cursor + 1, BatchEnd(cfg, d, env);
      assert plan.effects[..cut] == BatchBody(cfg, env, from, to)[..cut];
      BodyCutKeepsDense(cfg, d, env, from, to, cut);
    }
  }

  /** With a window of records, a rewind without read or delete failures goes to the
      highest block that the records share with the live chain, and keeps exactly the
      records that are live. */
  lemma RewindFindsCommonAncestor(cfg: Config, d: Disk, env: Env)
    requires ValidEnv(env) && Dense(d) && Rewinding(cfg, d, env)
    requires env.faults.walkGet == {} && env.faults.walkHeader == {} && !env.faults.deleteHashes
    ensures var e := Next(cfg, d, env);
            && LiveWindow(e, env.tip)
            && (forall h :: 0 < h <= d.cursor && h in d.records ==>
                  (h in e.records <==> d.records[h].hash == At(env.tip, h)) && (h in e.records <==> h <= e.cursor))
  {
    RewindPostcondition(cfg, d, env);
    var e := Next(cfg, d, env);
    TurnKeepsDense(cfg, d, env, |Iteration(cfg, d, env).effects|);
    assert Iteration(cfg, d, env).effects[..|Iteration(cfg, d, env).effects|] == Iteration(cfg, d, env).effects;
    WindowIsLive(e, env.tip);
    forall h | 0 < h <= d.cursor && h in d.records && h <= e.cursor
      ensures d.records[h].hash == At(env.tip, h)
    {
      assert e.records[h] == d.records[h];
    }
  }
}
