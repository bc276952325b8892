/** The indexing loop of one chain: what it does to durable state, iteration by
    iteration, and the class that does it. */
module ProcessorModel {
  import opened Basics
  import opened Chain

  const REORG_PRUNE_DEPTH: nat := 256

  datatype Record = Record(hash: Block, parent: Option<Block>)

  /** Durable state, with the history of which block each height was last indexed as. */
  datatype Disk = Disk(cursor: nat, records: map<nat, Record>, indexed: map<nat, Block>)

  datatype Effect =
    | IndexBlock(height: nat, block: Block)
    | SaveHash(height: nat, block: Block)
    | Prune(below: nat)
    | DeleteFrom(height: nat)
    | SetCursor(cursor: nat)

  function RecordOf(b: Block): Record {
    Record(b, if b.Child? then Some(b.parent) else None)
  }

  function Do(d: Disk, e: Effect): Disk {
    match e
    case IndexBlock(h, b) => d.(indexed := d.indexed[h := b])
    case SaveHash(h, b) => d.(records := d.records[h := RecordOf(b)])
    case Prune(below) => d.(records := map h | h in d.records && h >= below :: d.records[h])
    case DeleteFrom(from) => d.(records := map h | h in d.records && h < from :: d.records[h])
    case SetCursor(c) => d.(cursor := c)
  }

  function DoAll(d: Disk, es: seq<Effect>): Disk {
    if es == [] then d else Do(DoAll(d, es[..|es| - 1]), es[|es| - 1])
  }

  lemma DoOneMore(d: Disk, es: seq<Effect>, e: Effect)
    ensures DoAll(d, es + [e]) == Do(DoAll(d, es), e)
  {
    assert (es + [e])[..|es|] == es;
  }

  lemma DoOne(d: Disk, e: Effect)
    ensures DoAll(d, [e]) == Do(d, e)
  {
    DoOneMore(d, [], e);
  }

  lemma {:induction false} DoBoth(d: Disk, es: seq<Effect>, fs: seq<Effect>)
    ensures DoAll(d, es + fs) == DoAll(DoAll(d, es), fs)
  {
    if fs == [] {
      assert es + fs == es;
    } else {
      var init := fs[..|fs| - 1];
      DoBoth(d, es, init);
      assert (es + fs)[..|es + fs| - 1] == es + init;
    }
  }

  // ---- What an iteration meets ----

  /** Which calls fail during one iteration; the sets hold block heights. */
  datatype Faults = Faults(
    checkGet: bool, checkHeader: bool, walkGet: set<nat>, walkHeader: set<nat>, rewindCursor: bool,
    deleteHashes: bool, reloadCursor: bool, fetch: bool, save: set<nat>, prune: bool, updateCursor: bool)

  const NO_FAULTS := Faults(false, false, {}, {}, false, false, false, false, {}, false, false)

  /** The live chain, its latest confirmed height (`None`: the call failed) and the
      failures of one iteration. */
  datatype Env = Env(tip: Block, latest: Option<nat>, faults: Faults)

  predicate ValidEnv(env: Env) {
    env.latest.Some? ==> env.latest.value <= Height(env.tip)
  }

  /** `watched`: contract addresses are configured; `tracking`: a block-hash store is. */
  datatype Config = Config(batchSize: nat, watched: bool, tracking: bool)

  // ---- What an iteration does ----

  /** Where the backward walk from `k` stops. */
  function WalkBack(d: Disk, env: Env, k: nat): (r: nat)
    requires k <= Height(env.tip)
    ensures r <= k
  {
    if k == 0 then 0
    else if k in env.faults.walkGet || k !in d.records then k
    else if k in env.faults.walkHeader then k
    else if At(env.tip, k) == d.records[k].hash then k
    else WalkBack(d, env, k - 1)
  }

  datatype Check = Clean | CheckFailed | Rewind(to: nat)

  function CheckReorg(cfg: Config, d: Disk, env: Env, from: nat): Check
    requires 0 < from <= Height(env.tip)
  {
    if !cfg.tracking then Clean
    else if env.faults.checkGet then CheckFailed
    else if from - 1 !in d.records then Clean
    else if env.faults.checkHeader then CheckFailed
    else if At(env.tip, from - 1) == d.records[from - 1].hash then Clean
    else if env.faults.rewindCursor then CheckFailed
    else Rewind(WalkBack(d, env, from - 1))
  }

  function RewindEffects(env: Env, to: nat): seq<Effect> {
    [SetCursor(to)] + if env.faults.deleteHashes then [] else [DeleteFrom(to + 1)]
  }

  function IndexEffects(tip: Block, from: nat, end: nat): seq<Effect>
    requires end <= Height(tip) + 1
  {
    if end <= from then [] else IndexEffects(tip, from, end - 1) + [IndexBlock(end - 1, At(tip, end - 1))]
  }

  /** The first and the last block of the batch; a failure at the first skips the last. */
  function SaveEffects(env: Env, from: nat, to: nat): seq<Effect>
    requires from <= to <= Height(env.tip)
  {
    if from in env.faults.save then []
    else [SaveHash(from, At(env.tip, from))] +
         if to == from || to in env.faults.save then [] else [SaveHash(to, At(env.tip, to))]
  }

  /** Saved records hold the hashes of their blocks and of the parents of these. */
  lemma SavedRecords(d: Disk, env: Env, from: nat, to: nat)
    requires 0 < from <= to <= Height(env.tip) && from !in env.faults.save && to !in env.faults.save
    ensures DoAll(d, SaveEffects(env, from, to)).records ==
            d.records[from := Record(At(env.tip, from), Some(At(env.tip, from - 1)))][to := Record(At(env.tip, to), Some(At(env.tip, to - 1)))]
  {
    ParentAt(env.tip, from);
    ParentAt(env.tip, to);
    var first, last := SaveHash(from, At(env.tip, from)), SaveHash(to, At(env.tip, to));
    DoOne(d, first);
    if from < to {
      DoOneMore(d, [first], last);
    }
  }

  function PruneEffects(env: Env, to: nat): seq<Effect> {
    if to > REORG_PRUNE_DEPTH && !env.faults.prune then [Prune(to - REORG_PRUNE_DEPTH)] else []
  }

  function HashEffects(cfg: Config, env: Env, from: nat, to: nat): seq<Effect>
    requires from <= to <= Height(env.tip)
  {
    if cfg.tracking then SaveEffects(env, from, to) + PruneEffects(env, to) else []
  }

  /** Everything a batch does before it moves the cursor. */
  function BatchBody(cfg: Config, env: Env, from: nat, to: nat): seq<Effect>
    requires from <= to <= Height(env.tip)
  {
    IndexEffects(env.tip, from, to + 1) + HashEffects(cfg, env, from, to)
  }

  lemma IndexEffectsGrow(tip: Block, from: nat, h: nat)
    requires from <= h <= Height(tip)
    ensures IndexEffects(tip, from, h + 1) == IndexEffects(tip, from, h) + [IndexBlock(h, At(tip, h))]
  {
  }

  lemma NothingIndexed(d: Disk, tip: Block, from: nat)
    requires from <= Height(tip) + 1
    ensures IndexEffects(tip, from, from) == [] && DoAll(d, IndexEffects(tip, from, from)) == d
  {
  }

  lemma NextIndexed(d: Disk, tip: Block, from: nat, h: nat)
    requires from <= h <= Height(tip)
    ensures IndexEffects(tip, from, h + 1) == IndexEffects(tip, from, h) + [IndexBlock(h, At(tip, h))]
    ensures DoAll(d, IndexEffects(tip, from, h + 1)) == DoAll(DoAll(d, IndexEffects(tip, from, h)), [IndexBlock(h, At(tip, h))])
  {
    IndexEffectsGrow(tip, from, h);
    DoBoth(d, IndexEffects(tip, from, h), [IndexBlock(h, At(tip, h))]);
  }

  datatype Outcome = Retry | CaughtUp | Rewound | Advanced | Stopped

  datatype Plan = Plan(effects: seq<Effect>, outcome: Outcome)

  function BatchEnd(cfg: Config, d: Disk, env: Env): nat
    requires env.latest.Some?
  {
    Min(d.cursor + cfg.batchSize, env.latest.value)
  }

  function Batch(cfg: Config, env: Env, from: nat, to: nat): Plan
    requires to <= Height(env.tip)
  {
    if !cfg.watched then
      if env.faults.updateCursor then Plan([], Stopped) else Plan([SetCursor(to)], Advanced)
    else if from > to || env.faults.fetch then Plan([], Retry)
    else if env.faults.updateCursor then Plan(BatchBody(cfg, env, from, to), Stopped)
    else Plan(BatchBody(cfg, env, from, to) + [SetCursor(to)], Advanced)
  }

  /** The durable effects of one iteration, in order. A crash cuts them short. */
  function Iteration(cfg: Config, d: Disk, env: Env): Plan
    requires ValidEnv(env)
  {
    if env.latest.None? then Plan([], Retry)
    else if d.cursor >= env.latest.value then Plan([], CaughtUp)
    else
      var from, to := d.cursor + 1, BatchEnd(cfg, d, env);
      match CheckReorg(cfg, d, env, from)
      case CheckFailed => Plan([], Retry)
      // A rewind whose cursor cannot be read back ends the loop.
      case Rewind(r) => Plan(RewindEffects(env, r), if env.faults.reloadCursor then Stopped else Rewound)
      case Clean => Batch(cfg, env, from, to)
  }

  predicate Rewinding(cfg: Config, d: Disk, env: Env)
    requires ValidEnv(env)
  {
    env.latest.Some? && d.cursor < env.latest.value && CheckReorg(cfg, d, env, d.cursor + 1).Rewind?
  }

  /** There is a batch to do, and no record to check it against. */
  predicate Unchecked(cfg: Config, d: Disk, env: Env) {
    env.latest.Some? && d.cursor < env.latest.value && (!cfg.tracking || (!env.faults.checkGet && d.cursor !in d.records))
  }

  function Next(cfg: Config, d: Disk, env: Env): Disk
    requires ValidEnv(env)
  {
    DoAll(d, Iteration(cfg, d, env).effects)
  }

  predicate StoppedAt(cfg: Config, d: Disk, envs: seq<Env>, n: nat)
    requires n <= |envs| && forall i :: 0 <= i < |envs| ==> ValidEnv(envs[i])
  {
    n > 0 && Iteration(cfg, Turns(cfg, d, envs, n - 1), envs[n - 1]).outcome == Stopped
  }

  /** Durable state after `n` turns of the loop. */
  function Turns(cfg: Config, d: Disk, envs: seq<Env>, n: nat): Disk
    requires n <= |envs| && forall i :: 0 <= i < |envs| ==> ValidEnv(envs[i])
  {
    if n == 0 then d else Next(cfg, Turns(cfg, d, envs, n - 1), envs[n - 1])
  }
}

module Processor {
  import opened Basics
  import opened Chain
  import opened ProcessorModel

  /** The cursor table and the block-hash table of one chain and protocol, and the
      loop over them. `journal` lists every durable write in the order it was made. */
  class ChainProcessor {
    const cfg: Config
    var cursor: nat
    var records: map<nat, Record>
    ghost var indexed: map<nat, Block>
    ghost var journal: seq<Effect>

    ghost function Contents(): Disk
      reads this
    {
      Disk(cursor, records, indexed)
    }

    constructor (cfg: Config)
      ensures this.cfg == cfg && Contents() == Disk(0, map[], map[]) && journal == []
    {
      this.cfg := cfg;
      cursor, records, indexed, journal := 0, map[], map[], [];
    }

    twostate predicate Did(es: seq<Effect>)
      reads this
    {
      journal == old(journal) + es && Contents() == DoAll(old(Contents()), es)
    }

    // ---- Single durable writes ----

    method UpdateCursor(c: nat)
      modifies this`cursor, this`journal
      ensures Did([SetCursor(c)])
    {
      cursor := c;
      journal := journal + [SetCursor(c)];
      DoOne(old(Contents()), SetCursor(c));
    }

    method SaveBlockHash(h: nat, b: Block)
      modifies this`records, this`journal
      ensures Did([SaveHash(h, b)])
    {
      records := records[h := RecordOf(b)];
      journal := journal + [SaveHash(h, b)];
      DoOne(old(Contents()), SaveHash(h, b));
    }

    method PruneBlockHashes(below: nat)
      modifies this`records, this`journal
      ensures Did([Prune(below)])
    {
      records := map h | h in records && h >= below :: records[h];
      journal := journal + [Prune(below)];
      DoOne(old(Contents()), Prune(below));
    }

    method DeleteBlockHashesFrom(from: nat)
      modifies this`records, this`journal
      ensures Did([DeleteFrom(from)])
    {
      records := map h | h in records && h < from :: records[h];
      journal := journal + [DeleteFrom(from)];
      DoOne(old(Contents()), DeleteFrom(from));
    }

    /** Decoding, normalizing and correlating the logs of one block; what that does to the
        message store is the subject of `Indexing`. */
    method IndexLogsOf(h: nat, b: Block)
      modifies this`indexed, this`journal
      ensures Did([IndexBlock(h, b)])
    {
      indexed := indexed[h := b];
      journal := journal + [IndexBlock(h, b)];
      DoOne(old(Contents()), IndexBlock(h, b));
    }

    // ---- The pieces of an iteration ----

    method CheckAndHandleReorg(env: Env, from: nat) returns (r: Check)
      requires 0 < from <= Height(env.tip)
      modifies this`cursor, this`records, this`journal
      ensures r == CheckReorg(cfg, old(Contents()), env, from)
      ensures r.Rewind? ==> Did(RewindEffects(env, r.to))
      ensures !r.Rewind? ==> Contents() == old(Contents()) && journal == old(journal)
    {
      if !cfg.tracking {
        return Clean;
      }
      if env.faults.checkGet {
        return CheckFailed;
      }
      if from - 1 !in records {
        return Clean;
      }
      if env.faults.checkHeader {
        return CheckFailed;
      }
      ParentAt(env.tip, from);
      if At(env.tip, from).parent == records[from - 1].hash {
        return Clean;
      }
      var rewindTo := from - 1;
      while rewindTo > 0
        invariant rewindTo <= from - 1
        invariant WalkBack(Contents(), env, from - 1) == WalkBack(Contents(), env, rewindTo)
      {
        if rewindTo in env.faults.walkGet || rewindTo !in records {
          break;
        }
        if rewindTo in env.faults.walkHeader {
          break;
        }
        if At(env.tip, rewindTo) == records[rewindTo].hash {
          break;
        }
        rewindTo := rewindTo - 1;
      }
      if env.faults.rewindCursor {
        return CheckFailed;
      }
      UpdateCursor(rewindTo);
      if !env.faults.deleteHashes {
        ghost var mid := Contents();
        DeleteBlockHashesFrom(rewindTo + 1);
        DoBoth(old(Contents()), [SetCursor(rewindTo)], [DeleteFrom(rewindTo + 1)]);
      }
      return Rewind(rewindTo);
    }

    /** The boundary blocks of the batch, each once; a failure ends the loop. */
    method StoreBlockHashes(env: Env, from: nat, to: nat) returns (ok: bool)
      requires from <= to <= Height(env.tip)
      modifies this`records, this`journal
      ensures Did(SaveEffects(env, from, to))
      ensures ok <==> from !in env.faults.save && to !in env.faults.save
      ensures ok && 0 < from ==>
        records == old(records)[from := Record(At(env.tip, from), Some(At(env.tip, from - 1)))][to := Record(At(env.tip, to), Some(At(env.tip, to - 1)))]
    {
      var blocksToStore, seen := [from, to], {};
      for i := 0 to 2
        invariant seen == (if i == 0 then {} else if i == 1 then {from} else {from, to})
        invariant i > 0 ==> from !in env.faults.save
        invariant i > 1 ==> to !in env.faults.save
        invariant Did(if i == 0 then [] else if i == 1 then [SaveHash(from, At(env.tip, from))] else SaveEffects(env, from, to))
      {
        var b := blocksToStore[i];
        if b in seen {
          continue;
        }
        seen := seen + {b};
        if b in env.faults.save {
          return false;
        }
        SaveBlockHash(b, At(env.tip, b));
        if i == 1 {
          DoBoth(old(Contents()), [SaveHash(from, At(env.tip, from))], [SaveHash(to, At(env.tip, to))]);
        }
      }
      if 0 < from {
        SavedRecords(old(Contents()), env, from, to);
      }
      return true;
    }

    /** The writes so far are those of blocks `from` up to, and not including, `h`. */
    ghost predicate IndexedUpTo(d: Disk, j: seq<Effect>, tip: Block, from: nat, h: nat)
      requires h <= Height(tip) + 1
      reads this
    {
      journal == j + IndexEffects(tip, from, h) && Contents() == DoAll(d, IndexEffects(tip, from, h))
    }

    method IndexNext(env: Env, from: nat, h: nat, ghost d: Disk, ghost j: seq<Effect>)
      requires from <= h <= Height(env.tip) && IndexedUpTo(d, j, env.tip, from, h)
      modifies this`indexed, this`journal
      ensures IndexedUpTo(d, j, env.tip, from, h + 1)
    {
      ghost var done, one := IndexEffects(env.tip, from, h), [IndexBlock(h, At(env.tip, h))];
      IndexLogsOf(h, At(env.tip, h));
      NextIndexed(d, env.tip, from, h);
      assert j + done + one == j + (done + one);
    }

    method IndexRange(env: Env, from: nat, to: nat)
      requires from <= to <= Height(env.tip)
      modifies this`indexed, this`journal
      ensures Did(IndexEffects(env.tip, from, to + 1))
    {
      ghost var d, j := Contents(), journal;
      NothingIndexed(d, env.tip, from);
      for h := from to to + 1
        invariant IndexedUpTo(d, j, env.tip, from, h)
      {
        IndexNext(env, from, h, d, j);
      }
    }

    method RecordHashes(env: Env, from: nat, to: nat)
      requires from <= to <= Height(env.tip)
      modifies this`records, this`journal
      ensures Did(HashEffects(cfg, env, from, to))
    {
      if cfg.tracking {
        var _ := StoreBlockHashes(env, from, to);
        if to > REORG_PRUNE_DEPTH && !env.faults.prune {
          PruneBlockHashes(to - REORG_PRUNE_DEPTH);
        }
        DoBoth(old(Contents()), SaveEffects(env, from, to), PruneEffects(env, to));
      }
    }

    method RunBatch(env: Env, from: nat, to: nat)
      requires from <= to <= Height(env.tip)
      modifies this`records, this`indexed, this`journal
      ensures Did(BatchBody(cfg, env, from, to))
    {
      IndexRange(env, from, to);
      RecordHashes(env, from, to);
      DoBoth(old(Contents()), IndexEffects(env.tip, from, to + 1), HashEffects(cfg, env, from, to));
    }

    method ProcessBatch(env: Env, from: nat, to: nat) returns (outcome: Outcome)
      requires to <= Height(env.tip)
      modifies this
      ensures outcome == Batch(cfg, env, from, to).outcome
      ensures Did(Batch(cfg, env, from, to).effects)
    {
      if !cfg.watched {
        if env.faults.updateCursor {
          return Stopped;
        }
        UpdateCursor(to);
        return Advanced;
      }
      if from > to || env.faults.fetch {
        return Retry;
      }
      RunBatch(env, from, to);
      if env.faults.updateCursor {
        return Stopped;
      }
      UpdateCursor(to);
      DoBoth(old(Contents()), BatchBody(cfg, env, from, to), [SetCursor(to)]);
      return Advanced;
    }

    /** One turn of the loop. Without configured addresses it moves the cursor alone; it
        ends the loop exactly when a cursor cannot be updated, or read back. */
    method Iterate(env: Env) returns (outcome: Outcome)
      requires ValidEnv(env)
      modifies this
      ensures outcome == Iteration(cfg, old(Contents()), env).outcome
      ensures Did(Iteration(cfg, old(Contents()), env).effects)
      ensures env.latest.None? || old(cursor) >= env.latest.value ==> !outcome.Advanced? && Contents() == old(Contents())
      ensures !cfg.watched && Unchecked(cfg, old(Contents()), env) && !env.faults.updateCursor ==>
        outcome == Advanced && Contents() == old(Contents()).(cursor := Min(old(cursor) + cfg.batchSize, env.latest.value))
      ensures cfg.watched && Unchecked(cfg, old(Contents()), env) && cfg.batchSize > 0 && !env.faults.fetch && !env.faults.updateCursor ==>
        outcome == Advanced && cursor == Min(old(cursor) + cfg.batchSize, env.latest.value)
      ensures Unchecked(cfg, old(Contents()), env) && (!cfg.watched || (cfg.batchSize > 0 && !env.faults.fetch)) ==>
        (outcome.Stopped? <==> env.faults.updateCursor)
      ensures Rewinding(cfg, old(Contents()), env) ==> (outcome.Stopped? <==> env.faults.reloadCursor)
      ensures outcome.Stopped? ==> env.faults.updateCursor || env.faults.reloadCursor
    {
      ghost var d, j := Contents(), journal;
      if env.latest.None? {
        return Retry;
      }
      if cursor >= env.latest.value {
        return CaughtUp;
      }
      var from, to := cursor + 1, Min(cursor + cfg.batchSize, env.latest.value);
      var check := CheckAndHandleReorg(env, from);
      if check.CheckFailed? {
        return Retry;
      }
      if check.Rewind? {
        return if env.faults.reloadCursor then Stopped else Rewound;
      }
      assert Iteration(cfg, d, env) == Batch(cfg, env, from, to);
      outcome := ProcessBatch(env, from, to);
      assert journal == j + Iteration(cfg, d, env).effects;
    }

    /** The loop, over the conditions that its successive turns meet, until it stops. */
    method ProcessChain(envs: seq<Env>) returns (turns: nat)
      requires forall i :: 0 <= i < |envs| ==> ValidEnv(envs[i])
      modifies this
      ensures turns <= |envs|
      ensures Contents() == Turns(cfg, old(Contents()), envs, turns)
      ensures turns < |envs| ==> StoppedAt(cfg, old(Contents()), envs, turns)
    {
      turns := 0;
      while turns < |envs|
        invariant turns <= |envs| && Contents() == Turns(cfg, old(Contents()), envs, turns)
      {
        var outcome := Iterate(envs[turns]);
        turns := turns + 1;
        if outcome.Stopped? {
          return;
        }
      }
    }
  }
}
