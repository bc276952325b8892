/** Whole runs of the loop: safety over any history, exactly when batches are dense,
    and progress on a chain that stands still. */
module Histories {
  import opened Basics
  import opened Chain
  import opened ProcessorModel
  import opened ReorgSafety

  /** One turn of the loop, crashed after `cut` of its durable writes; a turn that is
      not crashed has made them all. */
  datatype Turn = Turn(env: Env, cut: nat)

  predicate Completed(cfg: Config, d: Disk, t: Turn)
    requires ValidEnv(t.env)
  {
    t.cut == |Iteration(cfg, d, t.env).effects|
  }

  ghost predicate Taken(cfg: Config, d: Disk, t: Turn, e: Disk) {
    ValidEnv(t.env) && t.cut <= |Iteration(cfg, d, t.env).effects| &&
    e == DoAll(d, Iteration(cfg, d, t.env).effects[..t.cut])
  }

  ghost predicate History(cfg: Config, disks: seq<Disk>, turns: seq<Turn>) {
    |disks| == |turns| + 1 && forall i :: 0 <= i < |turns| ==> Taken(cfg, disks[i], turns[i], disks[i + 1])
  }

  ghost predicate AllSolid(cfg: Config, disks: seq<Disk>, turns: seq<Turn>) {
    |disks| == |turns| + 1 &&
    forall i :: 0 <= i < |turns| ==> ValidEnv(turns[i].env) && Solid(cfg, disks[i], turns[i].env)
  }

  ghost predicate BatchCompleted(cfg: Config, d: Disk, t: Turn) {
    ValidEnv(t.env) && Completed(cfg, d, t) && Iteration(cfg, d, t.env).outcome == Advanced
  }

  /** Over any history of chain changes, failed calls and crashes, the records up to
      the cursor stay one parent-linked window ending there, and whenever a batch
      completes every block in that window was last indexed under its live hash. */
  lemma {:induction false} SafeOverHistory(cfg: Config, disks: seq<Disk>, turns: seq<Turn>, n: nat)
    requires History(cfg, disks, turns) && Dense(disks[0]) && n <= |turns|
    requires AllSolid(cfg, disks, turns)
    ensures Dense(disks[n])
    ensures n > 0 && BatchCompleted(cfg, disks[n - 1], turns[n - 1]) ==>
              LiveWindow(disks[n], turns[n - 1].env.tip) && disks[n].cursor in disks[n].records
  {
    if n > 0 {
      SafeOverHistory(cfg, disks, turns, n - 1);
      var d, t := disks[n - 1], turns[n - 1];
      assert Taken(cfg, d, t, disks[n]);
      TurnKeepsDense(cfg, d, t.env, t.cut);
      if BatchCompleted(cfg, d, t) {
        CompletedIsLive(cfg, d, t, disks[n]);
      }
    }
  }

  lemma CompletedIsLive(cfg: Config, d: Disk, t: Turn, e: Disk)
    requires Taken(cfg, d, t, e) && BatchCompleted(cfg, d, t) && Dense(d) && Solid(cfg, d, t.env)
    ensures LiveWindow(e, t.env.tip) && e.cursor in e.records
  {
    assert Iteration(cfg, d, t.env).effects[..t.cut] == Iteration(cfg, d, t.env).effects;
    AdvanceKeepsDense(cfg, d, t.env);
    AdvancedDo(cfg, d, t.env);
  }

  /** When no hash is left above the cursor and no call fails, a completed batch keeps
      the records linked exactly when it spans at most two blocks, or so many that its
      first block is pruned at once and one record remains. Linked records tell nothing
      about the blocks below them: for these see `Forks`. */
  lemma DenseExactly(cfg: Config, d: Disk, env: Env)
    requires ValidEnv(env) && Dense(d) && cfg.watched && cfg.tracking && env.faults == NO_FAULTS
    requires Iteration(cfg, d, env).outcome == Advanced
    requires forall h :: h in d.records ==> h <= d.cursor
    ensures var from, to := d.cursor + 1, BatchEnd(cfg, d, env);
            Dense(Next(cfg, d, env)) <==> to <= from + 1 || from + REORG_PRUNE_DEPTH < to
  {
    var from, to, e := d.cursor + 1, BatchEnd(cfg, d, env), Next(cfg, d, env);
    AdvancedDo(cfg, d, env);
    if to <= from + 1 || from + REORG_PRUNE_DEPTH < to {
      AdvanceKeepsDense(cfg, d, env);
    } else {
      assert from in e.records && from + 1 !in e.records;
      assert !Linked(e, from);
    }
  }
}

module RewindFree {
  import opened Basics
  import opened Chain
  import opened ChainClient
  import opened ProcessorModel
  import opened ReorgSafety
  import opened Histories

  lemma {:induction false} CursorStays(d: Disk, es: seq<Effect>)
    requires forall i :: 0 <= i < |es| ==> !es[i].SetCursor?
    ensures DoAll(d, es).cursor == d.cursor
  {
    if es != [] {
      CursorStays(d, es[..|es| - 1]);
    }
  }

  lemma BatchMovesCursor(cfg: Config, d: Disk, t: Turn, e: Disk)
    requires cfg.batchSize > 0 && Taken(cfg, d, t, e)
    requires !Rewinding(cfg, d, t.env)
    ensures BatchCompleted(cfg, d, t) ==> d.cursor < e.cursor == BatchEnd(cfg, d, t.env) <= d.cursor + cfg.batchSize
    ensures !BatchCompleted(cfg, d, t) ==> e.cursor == d.cursor
  {
    var plan := Iteration(cfg, d, t.env);
    if plan.effects != [] {
      var from, to := d.cursor + 1, BatchEnd(cfg, d, t.env);
      assert plan == Batch(cfg, t.env, from, to);
      BatchCut(cfg, d, t.env, from, to, t.cut);
    }
  }

  lemma BatchCut(cfg: Config, d: Disk, env: Env, from: nat, to: nat, cut: nat)
    requires d.cursor < from <= to <= Height(env.tip) && cut <= |Batch(cfg, env, from, to).effects|
    ensures var plan := Batch(cfg, env, from, to);
            DoAll(d, plan.effects[..cut]).cursor == if plan.outcome == Advanced && cut == |plan.effects| then to else d.cursor
  {
    var plan := Batch(cfg, env, from, to);
    if plan.outcome == Advanced && cut == |plan.effects| {
      assert plan.effects[..cut] == plan.effects;
    } else {
      forall i | 0 <= i < cut
        ensures !plan.effects[i].SetCursor?
      {
        if cfg.watched {
          assert plan.effects[i] == BatchBody(cfg, env, from, to)[i];
          BodyIsQuiet(cfg, env, from, to, d.cursor, i);
        }
      }
      CursorStays(d, plan.effects[..cut]);
    }
  }

  /** The block ranges by which the cursor has moved. */
  function Batches(disks: seq<Disk>, n: nat): seq<(nat, nat)>
    requires n < |disks|
  {
    if n == 0 then []
    else Batches(disks, n - 1) +
         if disks[n - 1].cursor < disks[n].cursor then [(disks[n - 1].cursor + 1, disks[n].cursor)] else []
  }

  lemma {:induction false} MovesTile(disks: seq<Disk>, n: nat)
    requires n < |disks| && forall i :: 0 <= i < |disks| - 1 ==> disks[i].cursor <= disks[i + 1].cursor
    ensures Tiles(Batches(disks, n), disks[0].cursor + 1, disks[n].cursor + 1)
  {
    if n > 0 {
      MovesTile(disks, n - 1);
      var init := Batches(disks, n - 1);
      if disks[n - 1].cursor < disks[n].cursor {
        TilesExtend(init, disks[0].cursor + 1, disks[n - 1].cursor + 1, disks[n].cursor);
      } else {
        assert disks[n - 1].cursor <= disks[n - 1 + 1].cursor && Batches(disks, n) == init;
      }
    }
  }

  lemma CursorsRise(cfg: Config, disks: seq<Disk>, turns: seq<Turn>, i: nat)
    requires History(cfg, disks, turns) && cfg.batchSize > 0 && i < |turns| && WithoutRewind(cfg, disks[i], turns[i])
    ensures disks[i].cursor < disks[i + 1].cursor <==> BatchCompleted(cfg, disks[i], turns[i])
    ensures disks[i].cursor <= disks[i + 1].cursor <= disks[i].cursor + cfg.batchSize
  {
    assert Taken(cfg, disks[i], turns[i], disks[i + 1]);
    BatchMovesCursor(cfg, disks[i], turns[i], disks[i + 1]);
  }

  /** On a history without rewinds, whatever fails and wherever it crashes, the cursor
      moves by completed batches alone; these cut the blocks behind it without gap or
      overlap, and their logs together are those of one query of the whole range. */
  lemma BatchesFetchOnce(cfg: Config, disks: seq<Disk>, turns: seq<Turn>, view: nat -> seq<Log>, b: nat)
    requires History(cfg, disks, turns) && cfg.batchSize > 0
    requires forall i :: 0 <= i < |turns| ==> WithoutRewind(cfg, disks[i], turns[i])
    ensures forall i :: 0 <= i < |turns| ==> (disks[i].cursor < disks[i + 1].cursor <==> BatchCompleted(cfg, disks[i], turns[i]))
    ensures var ranges, lo, end := Batches(disks, |turns|), disks[0].cursor + 1, disks[|turns|].cursor + 1;
            && lo <= end && LogsOfRanges(view, ranges) == LogsOf(view, lo, end)
            && (lo <= b < end <==> exists i :: 0 <= i < |ranges| && Covers(ranges[i], b))
            && (forall i, j :: 0 <= i < j < |ranges| ==> !(Covers(ranges[i], b) && Covers(ranges[j], b)))
  {
    forall i | 0 <= i < |turns|
      ensures disks[i].cursor < disks[i + 1].cursor <==> BatchCompleted(cfg, disks[i], turns[i])
      ensures disks[i].cursor <= disks[i + 1].cursor
    {
      CursorsRise(cfg, disks, turns, i);
    }
    MovesTile(disks, |turns|);
    var ranges, lo, end := Batches(disks, |turns|), disks[0].cursor + 1, disks[|turns|].cursor + 1;
    TiledLogs(view, ranges, lo, end);
    TilesExactlyOnce(ranges, lo, end, b);
  }

  predicate WithoutRewind(cfg: Config, d: Disk, t: Turn) {
    ValidEnv(t.env) && !Rewinding(cfg, d, t.env)
  }
}

module Progress {
  import opened Basics
  import opened Chain
  import opened ProcessorModel
  import opened ReorgSafety

  /** A chain that stands still with a confirmed head, and no failing call. */
  predicate StillEnv(env: Env) {
    ValidEnv(env) && env.latest.Some? && env.faults == NO_FAULTS
  }

  /** The record at the cursor, if any, is live. */
  predicate Calm(d: Disk, tip: Block) {
    d.cursor <= Height(tip) && (d.cursor in d.records ==> d.records[d.cursor].hash == At(tip, d.cursor))
  }

  lemma CalmAdvances(cfg: Config, d: Disk, env: Env)
    requires StillEnv(env) && cfg.watched && cfg.batchSize > 0
    requires d.cursor < env.latest.value && 0 !in d.records && (cfg.tracking ==> Calm(d, env.tip))
    ensures var e := Next(cfg, d, env);
            && Iteration(cfg, d, env).outcome == Advanced
            && e.cursor == Min(d.cursor + cfg.batchSize, env.latest.value)
            && 0 !in e.records && (cfg.tracking ==> Calm(e, env.tip))
  {
    var from, to := d.cursor + 1, BatchEnd(cfg, d, env);
    assert CheckReorg(cfg, d, env, from) == Clean;
    if cfg.tracking {
      AdvancedDo(cfg, d, env);
    } else {
      UntrackedBatchDo(cfg, d, env, from, to);
    }
  }

  lemma NothingRecorded(cfg: Config, env: Env, from: nat, to: nat)
    requires from <= to <= Height(env.tip) && !cfg.tracking
    ensures BatchBody(cfg, env, from, to) == IndexEffects(env.tip, from, to + 1)
  {
  }

  lemma IndexThenCursor(d: Disk, tip: Block, from: nat, to: nat)
    requires from <= to <= Height(tip)
    ensures DoAll(d, IndexEffects(tip, from, to + 1) + [SetCursor(to)]) ==
            Disk(to, d.records, d.indexed + LiveRange(tip, from, to + 1))
  {
    IndexEffectsDo(d, tip, from, to + 1);
    DoOneMore(d, IndexEffects(tip, from, to + 1), SetCursor(to));
  }

  lemma UntrackedBatchDo(cfg: Config, d: Disk, env: Env, from: nat, to: nat)
    requires from <= to <= Height(env.tip) && !cfg.tracking
    ensures DoAll(d, BatchBody(cfg, env, from, to) + [SetCursor(to)]) ==
            Disk(to, d.records, d.indexed + LiveRange(env.tip, from, to + 1))
  {
    NothingRecorded(cfg, env, from, to);
    IndexThenCursor(d, env.tip, from, to);
  }

  lemma UncalmRewindsToCalm(cfg: Config, d: Disk, env: Env)
    requires StillEnv(env) && cfg.watched && cfg.tracking
    requires d.cursor < env.latest.value && 0 !in d.records && !Calm(d, env.tip)
    ensures var e := Next(cfg, d, env);
            && Iteration(cfg, d, env).outcome == Rewound
            && e.cursor < d.cursor && 0 !in e.records && Calm(e, env.tip)
  {
    assert CheckReorg(cfg, d, env, d.cursor + 1) == Rewind(WalkBack(d, env, d.cursor));
    RewindPostcondition(cfg, d, env);
  }

  function NextN(cfg: Config, d: Disk, env: Env, n: nat): Disk
    requires ValidEnv(env)
    decreases n
  {
    if n == 0 then d else NextN(cfg, Next(cfg, d, env), env, n - 1)
  }

  function Rewinds(cfg: Config, d: Disk, env: Env, n: nat): nat
    requires ValidEnv(env)
    decreases n
  {
    if n == 0 then 0
    else (if Iteration(cfg, d, env).outcome == Rewound then 1 else 0) + Rewinds(cfg, Next(cfg, d, env), env, n - 1)
  }

  lemma FirstTurn(cfg: Config, d: Disk, env: Env, m: nat)
    requires ValidEnv(env)
    ensures NextN(cfg, d, env, m + 1) == NextN(cfg, Next(cfg, d, env), env, m)
    ensures Rewinds(cfg, d, env, m + 1) ==
            (if Iteration(cfg, d, env).outcome == Rewound then 1 else 0) + Rewinds(cfg, Next(cfg, d, env), env, m)
  {
  }

  /** How many batches a distance takes, one by one. */
  function BatchesFor(left: nat, b: nat): nat
    requires b > 0
  {
    if left == 0 then 0 else 1 + BatchesFor(left - Min(b, left), b)
  }

  lemma {:induction false} BatchesForIsCeil(left: nat, b: nat)
    requires b > 0
    ensures BatchesFor(left, b) == CeilDiv(left, b)
  {
    if left > 0 {
      var rest := left - Min(b, left);
      BatchesForIsCeil(rest, b);
      var m := CeilDiv(rest, b);
      assert (m + 1) * b == m * b + b;
      assert m > 0 ==> m * b >= b;
      CeilDivUnique(left, b, m + 1);
    } else {
      CeilDivUnique(0, b, 0);
    }
  }

  /** Ready to advance: no mismatch is left to be found. */
  predicate Ready(cfg: Config, d: Disk, env: Env) {
    StillEnv(env) && cfg.watched && cfg.batchSize > 0 &&
    d.cursor <= env.latest.value && 0 !in d.records && (cfg.tracking ==> Calm(d, env.tip))
  }

  lemma ReadyAdvances(cfg: Config, d: Disk, env: Env)
    requires Ready(cfg, d, env) && d.cursor < env.latest.value
    ensures Iteration(cfg, d, env).outcome == Advanced
    ensures Ready(cfg, Next(cfg, d, env), env) && Next(cfg, d, env).cursor == Min(d.cursor + cfg.batchSize, env.latest.value)
  {
    CalmAdvances(cfg, d, env);
  }

  /** From a calm state every turn is a batch until the head is reached. */
  lemma {:induction false} CalmReachesHead(cfg: Config, d: Disk, env: Env, n: nat)
    requires Ready(cfg, d, env) && n == BatchesFor(env.latest.value - d.cursor, cfg.batchSize)
    ensures NextN(cfg, d, env, n).cursor == env.latest.value && Rewinds(cfg, d, env, n) == 0
    decreases n
  {
    if n > 0 {
      ReadyAdvances(cfg, d, env);
      CalmReachesHead(cfg, Next(cfg, d, env), env, n - 1);
      FirstTurn(cfg, d, env, n - 1);
    }
  }

  lemma RewindThenReachesHead(cfg: Config, d: Disk, env: Env, n: nat)
    requires StillEnv(env) && cfg.watched && cfg.tracking && cfg.batchSize > 0
    requires d.cursor < env.latest.value && 0 !in d.records && !Calm(d, env.tip)
    requires Next(cfg, d, env).cursor <= env.latest.value
    requires n == BatchesFor(env.latest.value - Next(cfg, d, env).cursor, cfg.batchSize)
    ensures NextN(cfg, d, env, n + 1).cursor == env.latest.value && Rewinds(cfg, d, env, n + 1) == 1
  {
    UncalmRewindsToCalm(cfg, d, env);
    CalmReachesHead(cfg, Next(cfg, d, env), env, n);
    FirstTurn(cfg, d, env, n);
  }

  /** Where the loop stands after its only rewind, if there is one. */
  function StartOf(cfg: Config, d: Disk, env: Env): nat
    requires ValidEnv(env)
  {
    if cfg.tracking && !Calm(d, env.tip) then Next(cfg, d, env).cursor else d.cursor
  }

  function Ahead(from: nat, to: nat): nat {
    if from <= to then to - from else 0
  }

  lemma StartIsLow(cfg: Config, d: Disk, env: Env)
    requires StillEnv(env) && cfg.watched && d.cursor < env.latest.value && 0 !in d.records
    ensures StartOf(cfg, d, env) <= d.cursor
  {
    if cfg.tracking && !Calm(d, env.tip) {
      UncalmRewindsToCalm(cfg, d, env);
    }
  }

  lemma ReachesHeadIn(cfg: Config, d: Disk, env: Env, rewinds: nat, batches: nat)
    requires StillEnv(env) && cfg.watched && cfg.batchSize > 0
    requires d.cursor < env.latest.value && 0 !in d.records && StartOf(cfg, d, env) <= d.cursor
    requires rewinds == if cfg.tracking && !Calm(d, env.tip) then 1 else 0
    requires batches == BatchesFor(env.latest.value - StartOf(cfg, d, env), cfg.batchSize)
    ensures NextN(cfg, d, env, batches + rewinds).cursor == env.latest.value
    ensures Rewinds(cfg, d, env, batches + rewinds) == rewinds
  {
    if rewinds == 1 {
      RewindThenReachesHead(cfg, d, env, batches);
    } else {
      CalmReachesHead(cfg, d, env, batches);
    }
  }

  /** From any stored state without a record for block 0 the loop rewinds at most once,
      exactly when the record at the cursor is stale, and then reaches the latest
      confirmed block, in as many batches as the distance from where it stands after
      the rewind requires. */
  lemma ReachesHead(cfg: Config, d: Disk, env: Env, rewinds: nat, batches: nat)
    requires StillEnv(env) && cfg.watched && cfg.batchSize > 0
    requires d.cursor < env.latest.value && 0 !in d.records
    requires rewinds == if cfg.tracking && !Calm(d, env.tip) then 1 else 0
    requires batches == CeilDiv(Ahead(StartOf(cfg, d, env), env.latest.value), cfg.batchSize)
    ensures StartOf(cfg, d, env) <= d.cursor
    ensures NextN(cfg, d, env, batches + rewinds).cursor == env.latest.value
    ensures Rewinds(cfg, d, env, batches + rewinds) == rewinds
  {
    StartIsLow(cfg, d, env);
    BatchesForIsCeil(env.latest.value - StartOf(cfg, d, env), cfg.batchSize);
    ReachesHeadIn(cfg, d, env, rewinds, batches);
  }
}
