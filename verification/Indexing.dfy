/** The indexing loop together with the message store it fills: on a chain that only
    grows, any history of the loop is an execution of the crashing processor over the
    chain's events. */
module Indexing {
  import opened Basics
  import opened Chain
  import opened ProcessorModel
  import opened ReorgSafety
  import opened Histories
  import opened Forks
  import opened Messages
  import opened StoreModel
  import opened Steps
  import opened Isolation
  import opened Recovery
  import opened Replay
  import opened Crashes
  import opened Batches

  /** The operations of a block's logs, in order. */
  type Events = Block -> seq<Op>

  /** The operations of blocks 1 to `h`. */
  function OpsTo(events: Events, tip: Block, h: nat): seq<Op>
    requires h <= Height(tip)
  {
    if h == 0 then [] else OpsTo(events, tip, h - 1) + events(At(tip, h))
  }

  /** The whole stream. */
  function Stream(events: Events, tip: Block): seq<Op> {
    OpsTo(events, tip, Height(tip))
  }

  lemma {:induction false} OpsToPrefix(events: Events, tip: Block, h: nat, k: nat)
    requires h <= k <= Height(tip)
    ensures OpsTo(events, tip, h) <= OpsTo(events, tip, k)
  {
    if h < k {
      OpsToPrefix(events, tip, h, k - 1);
    }
  }

  /** In the stream, the operations of a block follow those of the blocks below it. */
  lemma StreamHolds(events: Events, tip: Block, h: nat)
    requires 0 < h <= Height(tip)
    ensures OpsTo(events, tip, h - 1) + events(At(tip, h)) <= Stream(events, tip)
    ensures OpsTo(events, tip, 0) == []
  {
    OpsToPrefix(events, tip, h, Height(tip));
  }

  /** The operations of the blocks that these effects index. */
  function BlockOps(events: Events, es: seq<Effect>): seq<Op> {
    if es == [] then []
    else
      var last := es[|es| - 1];
      BlockOps(events, es[..|es| - 1]) + if last.IndexBlock? then events(last.block) else []
  }

  /** What a turn has done to the store when it ends: all operations of the blocks it
      has indexed and, if it is cut at the next block, the first `extra` of that one's. */
  function Handled(es: seq<Effect>, cut: nat, events: Events, extra: nat): seq<Op>
    requires cut <= |es|
  {
    BlockOps(events, es[..cut]) + if cut < |es| && es[cut].IndexBlock? then Part(events(es[cut].block), extra) else []
  }

  function Part(ops: seq<Op>, n: nat): seq<Op> {
    if n <= |ops| then ops[..n] else []
  }

  datatype Work = Work(extra: nat, run: seq<Store>, clocks: seq<Clocks>)

  ghost predicate Worked(cfg: Config, d: Disk, t: Turn, events: Events, w: Work) {
    ValidEnv(t.env) && t.cut <= |Iteration(cfg, d, t.env).effects| &&
    Run(w.run, Handled(Iteration(cfg, d, t.env).effects, t.cut, events, w.extra), w.clocks)
  }

  /** The store along a history of the loop. */
  ghost predicate Fills(cfg: Config, disks: seq<Disk>, turns: seq<Turn>, events: Events, work: seq<Work>, stores: seq<Store>) {
    |work| == |turns| && |disks| == |stores| == |turns| + 1 &&
    forall i :: 0 <= i < |turns| ==>
      Worked(cfg, disks[i], turns[i], events, work[i]) &&
      work[i].run[0] == stores[i] && work[i].run[|work[i].run| - 1] == stores[i + 1]
  }

  // ---- One turn's operations are the next stretch of the stream ----

  lemma {:induction false} BlockOpsJoin(events: Events, es: seq<Effect>, fs: seq<Effect>)
    ensures BlockOps(events, es + fs) == BlockOps(events, es) + BlockOps(events, fs)
  {
    if fs == [] {
      assert es + fs == es;
    } else {
      var init := fs[..|fs| - 1];
      BlockOpsJoin(events, es, init);
      assert (es + fs)[..|es + fs| - 1] == es + init;
    }
  }

  lemma {:induction false} NoBlocksNoOps(events: Events, es: seq<Effect>)
    requires forall i :: 0 <= i < |es| ==> !es[i].IndexBlock?
    ensures BlockOps(events, es) == []
  {
    if es != [] {
      NoBlocksNoOps(events, es[..|es| - 1]);
    }
  }

  lemma {:induction false} IndexEffectsAre(tip: Block, from: nat, end: nat)
    requires from <= end <= Height(tip) + 1
    ensures var es := IndexEffects(tip, from, end);
            |es| == end - from && forall i :: 0 <= i < |es| ==> es[i] == IndexBlock(from + i, At(tip, from + i))
  {
    if from < end {
      IndexEffectsAre(tip, from, end - 1);
    }
  }

  lemma IndexEffectsPrefix(tip: Block, from: nat, end: nat, j: nat)
    requires from <= end <= Height(tip) + 1 && j <= end - from
    ensures |IndexEffects(tip, from, end)| == end - from
    ensures IndexEffects(tip, from, end)[..j] == IndexEffects(tip, from, from + j)
  {
    IndexEffectsAre(tip, from, end);
    IndexEffectsAre(tip, from, from + j);
  }

  lemma OneBlockMoreOps(events: Events, es: seq<Effect>, h: nat, b: Block)
    ensures BlockOps(events, es + [IndexBlock(h, b)]) == BlockOps(events, es) + events(b)
  {
    assert (es + [IndexBlock(h, b)])[..|es|] == es;
  }

  lemma NoBlockOps(events: Events, tip: Block, from: nat)
    requires from <= Height(tip) + 1
    ensures BlockOps(events, IndexEffects(tip, from, from)) == []
  {
  }

  lemma BlockOpsGrow(events: Events, tip: Block, from: nat, k: nat)
    requires from <= k <= Height(tip)
    ensures BlockOps(events, IndexEffects(tip, from, k + 1)) == BlockOps(events, IndexEffects(tip, from, k)) + events(At(tip, k))
  {
    IndexEffectsGrow(tip, from, k);
    OneBlockMoreOps(events, IndexEffects(tip, from, k), k, At(tip, k));
  }

  lemma JoinOneMore(a: seq<Op>, b: seq<Op>, b2: seq<Op>, m: seq<Op>, m2: seq<Op>, z: seq<Op>)
    requires a + b == m && b2 == b + z && m2 == m + z
    ensures a + b2 == m2
  {
  }

  lemma OpsToStep(events: Events, tip: Block, k: nat)
    requires 0 < k <= Height(tip)
    ensures OpsTo(events, tip, k) == OpsTo(events, tip, k - 1) + events(At(tip, k))
  {
  }

  lemma IndexOpsStep(events: Events, tip: Block, final: Block, c: nat, k: nat)
    requires Grown(tip, final) && c < k <= Height(tip)
    requires OpsTo(events, final, c) + BlockOps(events, IndexEffects(tip, c + 1, k)) == OpsTo(events, final, k - 1)
    ensures OpsTo(events, final, c) + BlockOps(events, IndexEffects(tip, c + 1, k + 1)) == OpsTo(events, final, k)
  {
    GrownAgrees(tip, final, k);
    BlockOpsGrow(events, tip, c + 1, k);
    OpsToStep(events, final, k);
    JoinOneMore(OpsTo(events, final, c), BlockOps(events, IndexEffects(tip, c + 1, k)), BlockOps(events, IndexEffects(tip, c + 1, k + 1)),
                OpsTo(events, final, k - 1), OpsTo(events, final, k), events(At(final, k)));
  }

  lemma {:induction false} IndexOps(events: Events, tip: Block, final: Block, c: nat, k: nat)
    requires Grown(tip, final) && c <= k <= Height(tip)
    ensures OpsTo(events, final, c) + BlockOps(events, IndexEffects(tip, c + 1, k + 1)) == OpsTo(events, final, k)
  {
    if c < k {
      IndexOps(events, tip, final, c, k - 1);
      IndexOpsStep(events, tip, final, c, k);
    } else {
      NoBlockOps(events, tip, c + 1);
    }
  }

  /** The operations handled from a cursor on: a stretch of the stream that ends at block
      `to` at the latest. */
  ghost predicate Stretch(events: Events, final: Block, c: nat, to: nat, ops: seq<Op>) {
    c <= to <= Height(final) && OpsTo(events, final, c) + ops <= OpsTo(events, final, to)
  }

  lemma StretchUpTo(events: Events, final: Block, c: nat, k: nat, to: nat, ops: seq<Op>)
    requires Stretch(events, final, c, k, ops) && k <= to <= Height(final)
    ensures Stretch(events, final, c, to, ops)
  {
    OpsToPrefix(events, final, k, to);
  }

  lemma HandledInside(events: Events, tip: Block, from: nat, end: nat, es: seq<Effect>, cut: nat, extra: nat)
    requires from <= end <= Height(tip) + 1 && cut < end - from && IndexEffects(tip, from, end) <= es
    ensures cut < |es| && Handled(es, cut, events, extra) ==
            BlockOps(events, IndexEffects(tip, from, from + cut)) + Part(events(At(tip, from + cut)), extra)
  {
    var index := IndexEffects(tip, from, end);
    IndexEffectsAre(tip, from, end);
    IndexEffectsPrefix(tip, from, end, cut);
    assert es[..cut] == index[..cut] && es[cut] == index[cut];
  }

  lemma HandledAfter(events: Events, index: seq<Effect>, es: seq<Effect>, cut: nat, extra: nat)
    requires index <= es && |index| <= cut <= |es| && forall i :: |index| <= i < |es| ==> !es[i].IndexBlock?
    ensures Handled(es, cut, events, extra) == BlockOps(events, index)
  {
    var rest := es[|index|..cut];
    assert es[..cut] == index + rest;
    BlockOpsJoin(events, index, rest);
    NoBlocksNoOps(events, rest);
  }

  lemma PrefixesAdd(a: seq<Op>, b: seq<Op>, mid: seq<Op>, next: seq<Op>, part: seq<Op>)
    requires a + b == mid && part <= next
    ensures a + (b + part) <= mid + next
  {
    assert a + (b + part) == mid + part;
  }

  /** Up to block `k`, and a part of the next one's. */
  lemma PartOfBlock(events: Events, final: Block, c: nat, k: nat, blocks: seq<Op>, extra: nat)
    requires c <= k < Height(final) && OpsTo(events, final, c) + blocks == OpsTo(events, final, k)
    ensures Stretch(events, final, c, k + 1, blocks + Part(events(At(final, k + 1)), extra))
  {
    var next := events(At(final, k + 1));
    PrefixesAdd(OpsTo(events, final, c), blocks, OpsTo(events, final, k), next, Part(next, extra));
  }

  lemma InsideStretches(events: Events, tip: Block, final: Block, c: nat, k: nat, to: nat, extra: nat)
    requires Grown(tip, final) && c <= k < to <= Height(tip)
    ensures Stretch(events, final, c, to,
                    BlockOps(events, IndexEffects(tip, c + 1, k + 1)) + Part(events(At(final, k + 1)), extra))
  {
    var blocks := BlockOps(events, IndexEffects(tip, c + 1, k + 1));
    IndexOps(events, tip, final, c, k);
    PartOfBlock(events, final, c, k, blocks, extra);
    StretchUpTo(events, final, c, k + 1, to, blocks + Part(events(At(final, k + 1)), extra));
  }

  lemma CutInsideIndex(events: Events, tip: Block, final: Block, c: nat, to: nat, es: seq<Effect>, cut: nat, extra: nat)
    requires Grown(tip, final) && c < to <= Height(tip) && cut < to - c && IndexEffects(tip, c + 1, to + 1) <= es
    ensures cut < |es| && Stretch(events, final, c, to, Handled(es, cut, events, extra))
  {
    HandledInside(events, tip, c + 1, to + 1, es, cut, extra);
    GrownAgrees(tip, final, c + cut + 1);
    InsideStretches(events, tip, final, c, c + cut, to, extra);
  }

  lemma CutAfterIndex(events: Events, tip: Block, final: Block, c: nat, to: nat, es: seq<Effect>, cut: nat, extra: nat)
    requires Grown(tip, final) && c < to <= Height(tip) && to - c <= cut <= |es|
    requires IndexEffects(tip, c + 1, to + 1) <= es && |IndexEffects(tip, c + 1, to + 1)| == to - c
    requires forall i :: to - c <= i < |es| ==> !es[i].IndexBlock?
    ensures OpsTo(events, final, c) + Handled(es, cut, events, extra) == OpsTo(events, final, to)
  {
    HandledAfter(events, IndexEffects(tip, c + 1, to + 1), es, cut, extra);
    IndexOps(events, tip, final, c, to);
  }

  lemma BatchEffectsAre(cfg: Config, env: Env, from: nat, to: nat)
    requires 0 < from <= to <= Height(env.tip)
    ensures var es := BatchBody(cfg, env, from, to) + [SetCursor(to)];
            && IndexEffects(env.tip, from, to + 1) <= BatchBody(cfg, env, from, to) <= es
            && |IndexEffects(env.tip, from, to + 1)| == to + 1 - from
            && forall i :: to + 1 - from <= i < |es| ==> !es[i].IndexBlock?
  {
    IndexEffectsAre(env.tip, from, to + 1);
    HashesAreNotIndexing(cfg, env, from, to);
    var index, hash := IndexEffects(env.tip, from, to + 1), HashEffects(cfg, env, from, to);
    assert forall i :: 0 <= i < |hash| ==> (index + hash)[|index| + i] == hash[i];
  }

  /** On a chain that grows a turn handles the next stretch of the stream, and exactly
      up to the cursor if it moves it. */
  lemma TurnHandles(cfg: Config, d: Disk, t: Turn, e: Disk, final: Block, events: Events, extra: nat)
    requires cfg.watched && Taken(cfg, d, t, e) && Settled(d, final) && Grown(t.env.tip, final)
    ensures d.cursor <= e.cursor <= Height(final)
    ensures var handled := Handled(Iteration(cfg, d, t.env).effects, t.cut, events, extra);
            && Stretch(events, final, d.cursor, Min(d.cursor + cfg.batchSize, Height(final)), handled)
            && (d.cursor < e.cursor ==> OpsTo(events, final, d.cursor) + handled == OpsTo(events, final, e.cursor))
  {
    var es, far := Iteration(cfg, d, t.env).effects, Min(d.cursor + cfg.batchSize, Height(final));
    SettledDoesNotRewind(cfg, d, t.env, final);
    BatchShape(cfg, d, t.env);
    TurnOnward(cfg, d, t, e, final);
    if es == [] {
      assert es[..t.cut] == [];
      OpsToPrefix(events, final, d.cursor, far);
    } else {
      BatchTurnHandles(cfg, d, t, e, final, events, extra, BatchEnd(cfg, d, t.env));
      StretchUpTo(events, final, d.cursor, BatchEnd(cfg, d, t.env), far, Handled(es, t.cut, events, extra));
    }
  }

  lemma BatchTurnHandles(cfg: Config, d: Disk, t: Turn, e: Disk, final: Block, events: Events, extra: nat, to: nat)
    requires Taken(cfg, d, t, e) && Settled(d, final) && Grown(t.env.tip, final) && d.cursor < to <= Height(t.env.tip)
    requires BatchLike(cfg, d, t.env, to, Iteration(cfg, d, t.env).effects)
    ensures var handled := Handled(Iteration(cfg, d, t.env).effects, t.cut, events, extra);
            && Stretch(events, final, d.cursor, to, handled)
            && (e.cursor != d.cursor ==> e.cursor == to && OpsTo(events, final, d.cursor) + handled == OpsTo(events, final, to))
  {
    var es := Iteration(cfg, d, t.env).effects;
    BatchEffectsAre(cfg, t.env, d.cursor + 1, to);
    CutMovesCursor(cfg, d, t.env, final, to, es, t.cut);
    CutHandles(cfg, d, t.env, final, events, extra, to, es, t.cut);
  }

  ghost predicate BatchLike(cfg: Config, d: Disk, env: Env, to: nat, es: seq<Effect>)
    requires d.cursor < to <= Height(env.tip)
  {
    var body := BatchBody(cfg, env, d.cursor + 1, to);
    es == body || es == body + [SetCursor(to)]
  }

  lemma CutHandles(cfg: Config, d: Disk, env: Env, final: Block, events: Events, extra: nat, to: nat, es: seq<Effect>, cut: nat)
    requires Grown(env.tip, final) && d.cursor < to <= Height(env.tip) && cut <= |es| && BatchLike(cfg, d, env, to, es)
    ensures Stretch(events, final, d.cursor, to, Handled(es, cut, events, extra))
    ensures cut >= to - d.cursor ==>
              OpsTo(events, final, d.cursor) + Handled(es, cut, events, extra) == OpsTo(events, final, to)
  {
    BatchEffectsAre(cfg, env, d.cursor + 1, to);
    if cut < to - d.cursor {
      CutInsideIndex(events, env.tip, final, d.cursor, to, es, cut, extra);
    } else {
      CutAfterIndex(events, env.tip, final, d.cursor, to, es, cut, extra);
    }
  }

  lemma CutMovesCursor(cfg: Config, d: Disk, env: Env, final: Block, to: nat, es: seq<Effect>, cut: nat)
    requires Settled(d, final) && Grown(env.tip, final) && d.cursor < to <= Height(env.tip) && cut <= |es|
    requires BatchLike(cfg, d, env, to, es)
    ensures DoAll(d, es[..cut]).cursor == d.cursor || (DoAll(d, es[..cut]).cursor == to && cut >= to - d.cursor)
  {
    var body := BatchBody(cfg, env, d.cursor + 1, to);
    BatchEffectsAre(cfg, env, d.cursor + 1, to);
    if cut <= |body| {
      assert es[..cut] == body[..cut];
      CutBatchOnward(cfg, d, env, final, to, cut);
    } else {
      assert es[..cut] == body + [SetCursor(to)];
      WholeBatchOnward(cfg, d, env, final, to);
    }
  }

  // ---- A history is an execution ----

  /** Where the blocks of the stream end. */
  function MarksOf(events: Events, final: Block): (marks: seq<nat>)
    ensures |marks| == Height(final) + 1
    ensures forall c :: 0 <= c <= Height(final) ==> marks[c] == |OpsTo(events, final, c)|
  {
    seq(Height(final) + 1, c requires 0 <= c <= Height(final) => |OpsTo(events, final, c)|)
  }

  lemma MarksAre(events: Events, final: Block)
    ensures Marks(MarksOf(events, final), |Stream(events, final)|)
  {
    forall i: nat, j: nat | i <= j <= Height(final)
      ensures |OpsTo(events, final, i)| <= |OpsTo(events, final, j)|
    {
      OpsToPrefix(events, final, i, j);
    }
  }

  lemma TakeMove(l: Course, all: seq<Op>, marks: seq<nat>, b: nat, mv: Move, now: Clocks, v: Worker) returns (k: Course)
    requires Executes(l, all) && Batched(l, marks, b) && MoveStep(Now(l), mv, now, v, all) && InBatch(v, marks, b)
    ensures Executes(k, all) && Batched(k, marks, b) && Now(k) == v && k.trace[0] == l.trace[0]
  {
    OneMore(l, all, mv, now, v);
    BatchedMore(l, marks, b, v, l.moves + [mv], l.clocks + [now]);
    k := Course(l.trace + [v], l.moves + [mv], l.clocks + [now]);
  }

  /** These are the operations of the stream from `p` on. */
  ghost predicate ComeNext(all: seq<Op>, p: nat, ops: seq<Op>) {
    p + |ops| <= |all| && forall i :: 0 <= i < |ops| ==> all[p + i] == ops[i]
  }

  /** The next `|ops|` operations of the stream are these, and they are within one batch
      of block `c`, where the cursor stands. */
  ghost predicate Ahead(w: Worker, all: seq<Op>, ops: seq<Op>, marks: seq<nat>, b: nat, c: nat) {
    && ComeNext(all, w.pos, ops)
    && c < |marks| && w.cursor == marks[c] && w.pos + |ops| <= marks[Min(c + b, |marks| - 1)]
  }

  /** The moves of a worker that takes the steps of a run. */
  lemma {:induction false} HandleRun(l: Course, all: seq<Op>, ops: seq<Op>, run: seq<Store>, clocks: seq<Clocks>,
                                     marks: seq<nat>, b: nat, c: nat, n: nat) returns (k: Course)
    requires Executes(l, all) && Batched(l, marks, b) && Run(run, ops, clocks) && Now(l).store == run[0] && n <= |ops|
    requires Ahead(Now(l), all, ops, marks, b, c)
    ensures Executes(k, all) && Batched(k, marks, b) && k.trace[0] == l.trace[0]
    ensures Now(k) == Worker(Now(l).cursor, Now(l).pos + n, run[n])
  {
    if n == 0 {
      k := l;
    } else {
      var m := HandleRun(l, all, ops, run, clocks, marks, b, c, n - 1);
      assert Step(run[n - 1], ops[n - 1], clocks[n - 1], run[n - 1 + 1]);
      var v := Worker(Now(l).cursor, Now(l).pos + n, run[n]);
      assert StartsAt(v, marks, b, c);
      k := TakeMove(m, all, marks, b, Handle, clocks[n - 1], v);
    }
  }

  /** A turn ends with the saved cursor, or with a fresh start from the old one. */
  lemma EndTurn(l: Course, all: seq<Op>, marks: seq<nat>, b: nat, c: nat, e: nat) returns (k: Course)
    requires Executes(l, all) && Batched(l, marks, b) && Marks(marks, |all|)
    requires c <= e < |marks| && Now(l).cursor == marks[c] && (c < e ==> Now(l).pos == marks[e])
    ensures Executes(k, all) && Batched(k, marks, b) && k.trace[0] == l.trace[0]
    ensures Now(k) == Worker(marks[e], marks[e], Now(l).store)
  {
    var v := Worker(marks[e], marks[e], Now(l).store);
    assert StartsAt(v, marks, b, e);
    k := TakeMove(l, all, marks, b, if c < e then Persist else Crash, Clocks(0, 0), v);
  }

  lemma ReadOff(start: seq<Op>, ops: seq<Op>, upTo: seq<Op>, all: seq<Op>)
    requires start + ops <= upTo && upTo <= all
    ensures |start| + |ops| <= |upTo| && ComeNext(all, |start|, ops)
  {
    forall i | 0 <= i < |ops|
      ensures all[|start| + i] == ops[i]
    {
      assert (start + ops)[|start| + i] == ops[i];
    }
  }

  lemma StretchReads(events: Events, final: Block, c: nat, to: nat, ops: seq<Op>)
    requires Stretch(events, final, c, to, ops)
    ensures |OpsTo(events, final, c)| + |ops| <= |OpsTo(events, final, to)|
    ensures ComeNext(Stream(events, final), |OpsTo(events, final, c)|, ops)
  {
    OpsToPrefix(events, final, to, Height(final));
    ReadOff(OpsTo(events, final, c), ops, OpsTo(events, final, to), Stream(events, final));
  }

  lemma StretchIsAhead(events: Events, final: Block, c: nat, b: nat, ops: seq<Op>, w: Worker)
    requires Stretch(events, final, c, Min(c + b, Height(final)), ops)
    requires w.cursor == w.pos == |OpsTo(events, final, c)|
    ensures Ahead(w, Stream(events, final), ops, MarksOf(events, final), b, c)
  {
    StretchReads(events, final, c, Min(c + b, Height(final)), ops);
  }

  /** The worker at the end of block `c`. */
  function Waiting(events: Events, final: Block, c: nat, s: Store): Worker
    requires c <= Height(final)
  {
    Worker(|OpsTo(events, final, c)|, |OpsTo(events, final, c)|, s)
  }

  ghost predicate ExecutesBatched(l: Course, events: Events, final: Block, b: nat) {
    Executes(l, Stream(events, final)) && Batched(l, MarksOf(events, final), b)
  }

  lemma StretchExecutes(l: Course, events: Events, final: Block, b: nat, c: nat, e: nat, ops: seq<Op>,
                        run: seq<Store>, clocks: seq<Clocks>) returns (k: Course)
    requires ExecutesBatched(l, events, final, b) && Run(run, ops, clocks) && c <= e <= Height(final)
    requires Stretch(events, final, c, Min(c + b, Height(final)), ops) && Now(l) == Waiting(events, final, c, run[0])
    requires c < e ==> OpsTo(events, final, c) + ops == OpsTo(events, final, e)
    ensures ExecutesBatched(k, events, final, b) && k.trace[0] == l.trace[0]
    ensures Now(k) == Waiting(events, final, e, run[|ops|])
  {
    var all, marks := Stream(events, final), MarksOf(events, final);
    MarksAre(events, final);
    StretchIsAhead(events, final, c, b, ops, Now(l));
    var m := HandleRun(l, all, ops, run, clocks, marks, b, c, |ops|);
    k := EndTurn(m, all, marks, b, c, e);
  }

  /** A turn: its operations, then the saved cursor or the fresh start. */
  lemma TurnExecutes(l: Course, cfg: Config, d: Disk, t: Turn, e: Disk, final: Block, events: Events, w: Work) returns (k: Course)
    requires cfg.watched && Taken(cfg, d, t, e) && Settled(d, final) && Grown(t.env.tip, final)
    requires Worked(cfg, d, t, events, w) && ExecutesBatched(l, events, final, cfg.batchSize)
    requires Now(l) == Waiting(events, final, d.cursor, w.run[0])
    ensures e.cursor <= Height(final)
    ensures ExecutesBatched(k, events, final, cfg.batchSize) && k.trace[0] == l.trace[0]
    ensures Now(k) == Waiting(events, final, e.cursor, w.run[|w.run| - 1])
  {
    TurnHandles(cfg, d, t, e, final, events, w.extra);
    k := StretchExecutes(l, events, final, cfg.batchSize, d.cursor, e.cursor,
                         Handled(Iteration(cfg, d, t.env).effects, t.cut, events, w.extra), w.run, w.clocks);
  }

  /** Whatever fails and wherever the loop crashes, also inside a block: on a chain that
      only grows its history is an execution over the chain's events, in batches. */
  lemma {:induction false} HistoryIsExecution(cfg: Config, disks: seq<Disk>, turns: seq<Turn>, final: Block, events: Events,
                                              work: seq<Work>, stores: seq<Store>, n: nat) returns (l: Course)
    requires History(cfg, disks, turns) && cfg.watched && GrowsInto(turns, 0, final) && n <= |turns|
    requires Settled(disks[0], final) && disks[0].cursor == 0
    requires Fills(cfg, disks, turns, events, work, stores)
    ensures disks[n].cursor <= Height(final) && ExecutesBatched(l, events, final, cfg.batchSize)
    ensures l.trace[0] == Worker(0, 0, stores[0]) && Now(l) == Waiting(events, final, disks[n].cursor, stores[n])
  {
    if n == 0 {
      var w := Worker(0, 0, stores[0]);
      assert StartsAt(w, MarksOf(events, final), cfg.batchSize, 0);
      l := Course([w], [], []);
    } else {
      var k := HistoryIsExecution(cfg, disks, turns, final, events, work, stores, n - 1);
      GrowthIsForGood(cfg, disks, turns, final, 0, n - 1);
      assert Taken(cfg, disks[n - 1], turns[n - 1], disks[n - 1 + 1]);
      l := TurnExecutes(k, cfg, disks[n - 1], turns[n - 1], disks[n], final, events, work[n - 1]);
    }
  }

  /** So when the loop has reached the head, the store has the rows of an uninterrupted
      run over the events of the chain. */
  lemma LoopIndexesOnce(cfg: Config, disks: seq<Disk>, turns: seq<Turn>, final: Block, events: Events,
                        work: seq<Work>, stores: seq<Store>, n: nat,
                        smooth: seq<Store>, clocks: seq<Clocks>, dir: Directory, id: string)
    requires History(cfg, disks, turns) && cfg.watched && GrowsInto(turns, 0, final) && n <= |turns|
    requires Settled(disks[0], final) && disks[0].cursor == 0 && disks[n].cursor == Height(final)
    requires Fills(cfg, disks, turns, events, work, stores)
    requires Run(smooth, Stream(events, final), clocks) && smooth[0] == stores[0]
    requires Readable(stores[0], Stream(events, final), dir)
    requires NearOnesRepeat(id, CoreRow(stores[0], id), Stream(events, final), MarksOf(events, final), cfg.batchSize)
    ensures CoreRow(stores[n], id) == CoreRow(smooth[|smooth| - 1], id)
  {
    var ops := Stream(events, final);
    var l := HistoryIsExecution(cfg, disks, turns, final, events, work, stores, n);
    MarksAre(events, final);
    NearRepeatsEndAlike(l, ops, MarksOf(events, final), cfg.batchSize, dir, id);
    RunIsPerMessage(smooth, ops, clocks, dir, |ops|, id);
  }

  // ---- The class ----

  /** The turns of `ChainProcessor.ProcessChain` are a history without cuts. */
  lemma LoopIsHistory(cfg: Config, d: Disk, envs: seq<Env>)
    requires forall i :: 0 <= i < |envs| ==> ValidEnv(envs[i])
    ensures History(cfg, seq(|envs| + 1, i requires 0 <= i <= |envs| => Turns(cfg, d, envs, i)),
                    seq(|envs|, i requires 0 <= i < |envs| =>
                          Turn(envs[i], |Iteration(cfg, Turns(cfg, d, envs, i), envs[i]).effects|)))
  {
    var disks := seq(|envs| + 1, i requires 0 <= i <= |envs| => Turns(cfg, d, envs, i));
    var turns := seq(|envs|, i requires 0 <= i < |envs| =>
                       Turn(envs[i], |Iteration(cfg, Turns(cfg, d, envs, i), envs[i]).effects|));
    forall i | 0 <= i < |envs|
      ensures Taken(cfg, disks[i], turns[i], disks[i + 1])
    {
      var es := Iteration(cfg, disks[i], envs[i]).effects;
      assert es[..|es|] == es;
      assert disks[i + 1] == Turns(cfg, d, envs, i + 1) == Next(cfg, disks[i], envs[i]);
    }
  }
}
