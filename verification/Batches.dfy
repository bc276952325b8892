/** Exactly when crashes are harmless for a processor that reads in batches of blocks and
    saves its cursor at the end of a batch. */
module Batches {
  import opened Basics
  import opened Messages
  import opened StoreModel
  import opened Steps
  import opened Isolation
  import opened Recovery
  import opened Registers
  import opened Replay
  import opened Crashes

  /** Where the blocks of a stream end: block `k` holds the operations from `marks[k - 1]`
      up to, and not including, `marks[k]`. */
  ghost predicate Marks(marks: seq<nat>, n: nat) {
    marks != [] && marks[0] == 0 && marks[|marks| - 1] == n &&
    forall i, j :: 0 <= i <= j < |marks| ==> marks[i] <= marks[j]
  }

  predicate InBlock(marks: seq<nat>, f: nat, block: nat) {
    0 < block < |marks| && marks[block - 1] <= f < marks[block]
  }

  /** A batch of at most `b` blocks that starts after block `c` can hold block `block`. */
  predicate CanHold(c: nat, block: nat, b: nat) {
    c < block <= c + b
  }

  /** The cursor stands at the end of a block, and not more than one batch has been read
      since. */
  ghost predicate InBatch(w: Worker, marks: seq<nat>, b: nat) {
    exists c: nat :: StartsAt(w, marks, b, c)
  }

  predicate StartsAt(w: Worker, marks: seq<nat>, b: nat, c: nat) {
    c < |marks| && w.cursor == marks[c] && w.pos <= marks[Min(c + b, |marks| - 1)]
  }

  ghost predicate Batched(l: Course, marks: seq<nat>, b: nat) {
    forall i :: 0 <= i < |l.trace| ==> InBatch(l.trace[i], marks, b)
  }

  lemma BatchedMore(l: Course, marks: seq<nat>, b: nat, v: Worker, moves: seq<Move>, clocks: seq<Clocks>)
    requires Batched(l, marks, b) && InBatch(v, marks, b)
    ensures Batched(Course(l.trace + [v], moves, clocks), marks, b)
  {
  }

  /** `lo` is the end of a block from which one batch can reach operation `f`. */
  ghost predicate Near(marks: seq<nat>, b: nat, f: nat, lo: nat) {
    exists c: nat, block: nat :: NearBy(marks, b, f, lo, c, block)
  }

  predicate NearBy(marks: seq<nat>, b: nat, f: nat, lo: nat, c: nat, block: nat) {
    InBlock(marks, f, block) && CanHold(c, block, b) && marks[c] == lo
  }

  /** The first early correlation from `lo` on. */
  ghost predicate FirstEarly(id: string, ops: seq<Op>, f: nat, lo: nat, d: nat) {
    lo <= d && Early(id, ops, f, d) && forall j: nat :: lo <= j < d ==> !Early(id, ops, f, j)
  }

  /** Wherever a batch that reaches the source may start, the first correlation that it
      meets, if it comes before the source, repeats the first one after it. */
  ghost predicate NearOnesRepeat(id: string, c: Option<Core>, ops: seq<Op>, marks: seq<nat>, b: nat) {
    c.None? ==>
      forall f: nat, lo: nat, d: nat :: Near(marks, b, f, lo) && FirstEarly(id, ops, f, lo, d) ==> Repeated(id, ops, f, d)
  }

  // ---- Sufficient ----

  lemma {:induction false} SomeBlock(marks: seq<nat>, f: nat, k: nat) returns (block: nat)
    requires k < |marks| && marks[0] == 0 && f < marks[k]
    ensures block <= k && InBlock(marks, f, block)
  {
    if marks[k - 1] <= f {
      block := k;
    } else {
      block := SomeBlock(marks, f, k - 1);
    }
  }

  /** A batch that has read `f` starts near it. */
  lemma ReadIsNear(marks: seq<nat>, n: nat, b: nat, f: nat, w: Worker)
    requires Marks(marks, n) && f < n && InBatch(w, marks, b) && w.cursor <= f < w.pos
    ensures Near(marks, b, f, w.cursor)
  {
    var c: nat :| StartsAt(w, marks, b, c);
    var block := SomeBlock(marks, f, |marks| - 1);
    assert NearBy(marks, b, f, w.cursor, c, block);
  }

  /** A later start before `f` is near too. */
  lemma LaterIsNear(marks: seq<nat>, n: nat, b: nat, f: nat, lo: nat, w: Worker)
    requires Marks(marks, n) && Near(marks, b, f, lo) && InBatch(w, marks, b) && lo <= w.cursor <= f
    ensures Near(marks, b, f, w.cursor)
  {
    var c: nat, block: nat :| NearBy(marks, b, f, lo, c, block);
    var e: nat :| StartsAt(w, marks, b, e);
    if lo == w.cursor {
      assert NearBy(marks, b, f, w.cursor, c, block);
    } else {
      assert NearBy(marks, b, f, w.cursor, e, block);
    }
  }

  /** Once the message is stored the batch starts near its source, and a row that is still
      pending has met no early correlation in it. */
  ghost predicate Fresh(id: string, ops: seq<Op>, f: nat, marks: seq<nat>, b: nat, w: Worker) {
    id in w.store ==>
      (w.cursor <= f ==> Near(marks, b, f, w.cursor)) &&
      (w.pos <= f && w.store[id].core.status.Pending? ==> forall j: nat :: w.cursor <= j < w.pos ==> !Early(id, ops, f, j))
  }

  ghost predicate Kept(id: string, ops: seq<Op>, f: nat, marks: seq<nat>, b: nat, dir: Directory, w: Worker) {
    Follows(w, ops, dir, id, None) && InBatch(w, marks, b) && Fresh(id, ops, f, marks, b, w)
  }

  /** A row is named exactly by the correlations that name its source. */
  lemma NamedIsEarly(id: string, ops: seq<Op>, f: nat, p: nat, x: Core)
    requires Sound(ops) && FirstPut(id, ops, f) && p < f && ops[p].Correlate?
    requires Tracks(id, None, ops, p, Some(x), ALL_FACETS)
    ensures Names(ops[p].key, id, x) <==> Early(id, ops, f, p)
  {
    EarlyIsNamed(id, ops, f, p);
    FirstWriteWins(id, ops, f, p);
  }

  lemma FreshIsHarmless(id: string, ops: seq<Op>, f: nat, marks: seq<nat>, b: nat, dir: Directory, w: Worker)
    requires Sound(ops) && FirstPut(id, ops, f) && NearOnesRepeat(id, None, ops, marks, b)
    requires Kept(id, ops, f, marks, b, dir, w) && w.pos < |ops| && id in w.store
    ensures HarmlessAt(id, None, ops, w.pos, w.store[id].core)
  {
    var x := w.store[id].core;
    if ops[w.pos].Correlate? && Finds(ops[w.pos].key, id, x) && After(id, None, ops, w.pos).None? {
      FirstWriteWins(id, ops, f, w.pos);
      NamedIsEarly(id, ops, f, w.pos, x);
      assert Near(marks, b, f, w.cursor) && FirstEarly(id, ops, f, w.cursor, w.pos);
      GivesIsRepeated(id, ops, f, w.pos);
    }
  }

  lemma HandleIsFresh(id: string, ops: seq<Op>, f: nat, marks: seq<nat>, b: nat, dir: Directory, w: Worker, now: Clocks, v: Worker)
    requires Sound(ops) && Marks(marks, |ops|) && FirstPut(id, ops, f)
    requires Kept(id, ops, f, marks, b, dir, w) && InBatch(v, marks, b)
    requires MoveStep(w, Handle, now, v, ops) && CoreRow(v.store, id) == CoreStep(id, CoreRow(w.store, id), ops[w.pos])
    ensures Fresh(id, ops, f, marks, b, v)
  {
    FirstWriteWins(id, ops, f, w.pos);
    if id in v.store && id !in w.store {
      assert ops[w.pos].Put? && ops[w.pos].msg.id == id;
      assert w.pos == f;
      if v.cursor <= f {
        ReadIsNear(marks, |ops|, b, f, v);
      }
    } else if id in v.store && v.pos <= f && v.store[id].core.status.Pending? {
      StillFresh(id, ops, f, marks, b, dir, w, v);
    }
  }

  lemma StillFresh(id: string, ops: seq<Op>, f: nat, marks: seq<nat>, b: nat, dir: Directory, w: Worker, v: Worker)
    requires Sound(ops) && FirstPut(id, ops, f) && Kept(id, ops, f, marks, b, dir, w) && w.pos < f
    requires id in w.store && id in v.store && v.store[id].core.status.Pending? && v.cursor == w.cursor && v.pos == w.pos + 1
    requires CoreRow(v.store, id) == CoreStep(id, CoreRow(w.store, id), ops[w.pos])
    ensures forall j: nat :: v.cursor <= j < v.pos ==> !Early(id, ops, f, j)
  {
    var x := w.store[id].core;
    assert x.status.Pending?;
    if ops[w.pos].Correlate? {
      NamedIsEarly(id, ops, f, w.pos, x);
    }
  }

  lemma HandleKeeps(id: string, ops: seq<Op>, f: nat, marks: seq<nat>, b: nat, dir: Directory, w: Worker, now: Clocks, v: Worker)
    requires Sound(ops) && Unambiguous(ops, dir) && Marks(marks, |ops|) && FirstPut(id, ops, f)
    requires NearOnesRepeat(id, None, ops, marks, b)
    requires Kept(id, ops, f, marks, b, dir, w) && MoveStep(w, Handle, now, v, ops) && InBatch(v, marks, b)
    ensures Kept(id, ops, f, marks, b, dir, v)
  {
    if id in w.store {
      FreshIsHarmless(id, ops, f, marks, b, dir, w);
    }
    HandleFollows(w, now, v, ops, dir, id, None);
    StepIsPerMessage(w.store, ops[w.pos], now, v.store, ops, dir, w.pos, id);
    HandleIsFresh(id, ops, f, marks, b, dir, w, now, v);
  }

  lemma JumpKeeps(id: string, ops: seq<Op>, f: nat, marks: seq<nat>, b: nat, dir: Directory, w: Worker, v: Worker)
    requires Sound(ops) && Marks(marks, |ops|) && Kept(id, ops, f, marks, b, dir, w) && InBatch(v, marks, b)
    requires v == w.(cursor := w.pos) || v == w.(pos := w.cursor)
    ensures Kept(id, ops, f, marks, b, dir, v)
  {
    JumpFollows(w, v, ops, dir, id, None);
    if id in v.store && v.cursor <= f {
      LaterIsNear(marks, |ops|, b, f, w.cursor, v);
    }
  }

  lemma {:induction false} BatchedKeeps(l: Course, ops: seq<Op>, marks: seq<nat>, b: nat, dir: Directory, id: string, f: nat, n: nat)
    requires Executes(l, ops) && Batched(l, marks, b) && n <= |l.moves|
    requires Marks(marks, |ops|) && Readable(l.trace[0].store, ops, dir) && id !in l.trace[0].store
    requires FirstPut(id, ops, f) && NearOnesRepeat(id, None, ops, marks, b)
    ensures Kept(id, ops, f, marks, b, dir, l.trace[n])
  {
    if n == 0 {
      TracksOnePass(id, None, ops, 0, ALL_FACETS);
    } else {
      BatchedKeeps(l, ops, marks, b, dir, id, f, n - 1);
      var w, v := l.trace[n - 1], l.trace[n];
      assert MoveStep(w, l.moves[n - 1], l.clocks[n - 1], v, ops) && InBatch(v, marks, b);
      if l.moves[n - 1].Handle? {
        HandleKeeps(id, ops, f, marks, b, dir, w, l.clocks[n - 1], v);
      } else {
        JumpKeeps(id, ops, f, marks, b, dir, w, v);
      }
    }
  }

  /** A processor that reads in batches ends with the row of an uninterrupted run when the
      first correlation of every batch that may hold the source is harmless. */
  lemma NearRepeatsEndAlike(l: Course, ops: seq<Op>, marks: seq<nat>, b: nat, dir: Directory, id: string)
    requires Executes(l, ops) && Batched(l, marks, b) && Marks(marks, |ops|) && Now(l).pos == |ops|
    requires Readable(l.trace[0].store, ops, dir) && NearOnesRepeat(id, CoreRow(l.trace[0].store, id), ops, marks, b)
    ensures CoreRow(Now(l).store, id) == After(id, CoreRow(l.trace[0].store, id), ops, |ops|)
  {
    var s := l.trace[0].store;
    if id !in s && exists f :: FirstPut(id, ops, f) {
      var f :| FirstPut(id, ops, f);
      BatchedKeeps(l, ops, marks, b, dir, id, f, |l.moves|);
      TracksEnd(id, None, ops, CoreRow(Now(l).store, id));
    } else {
      RepeatIsHarmless(id, CoreRow(s, id), ops);
      HarmlessEndsAlike(s, ops, dir, id);
    }
  }

  // ---- Necessary ----

  lemma {:induction false} PendingBetween(id: string, x: Core, ops: seq<Op>, p: nat, q: nat)
    requires Sound(ops) && p <= q <= |ops| && Whole(Some(x)) && x.status.Pending?
    requires forall j :: p <= j < q && ops[j].Correlate? ==> !Names(ops[j].key, id, x)
    ensures var y := Between(id, Some(x), ops, p, q);
            y.Some? && Whole(y) && y.value.status.Pending? && SameOrigin(x, y.value)
  {
    if p < q {
      PendingBetween(id, x, ops, p, q - 1);
    }
  }

  /** What the source stores is named by exactly the early and the reaching correlations. */
  lemma AtSource(id: string, ops: seq<Op>, f: nat)
    requires Sound(ops) && FirstPut(id, ops, f)
    ensures After(id, None, ops, f + 1) == Some(Merge(None, ops[f].msg))
  {
    NothingBefore(id, ops, f, f);
  }

  /** Read again from `lo`, the first early correlation settles the row for good. */
  lemma FirstEarlySettles(id: string, ops: seq<Op>, f: nat, lo: nat, d: nat)
    requires Sound(ops) && FirstEarly(id, ops, f, lo, d)
    ensures var y := Between(id, After(id, None, ops, f + 1), ops, lo, |ops|); y.Some? && Gives(ops[d], y.value)
  {
    AtSource(id, ops, f);
    var x := Merge(None, ops[f].msg);
    forall j | lo <= j < d && ops[j].Correlate?
      ensures !Names(ops[j].key, id, x)
    {
      assert !Early(id, ops, f, j);
    }
    PendingBetween(id, x, ops, lo, d);
    var y := Between(id, Some(x), ops, lo, d).value;
    var z := Settle(y, ops[d].dest, ops[d].outcome);
    assert Between(id, Some(x), ops, lo, d + 1) == Some(z);
    TerminalBetween(id, z, ops, d + 1, |ops|);
    BetweenJoins(id, Some(x), ops, lo, d + 1, |ops|);
  }

  /** So it shows when it does not repeat what the uninterrupted run does. */
  lemma FirstEarlyShows(id: string, ops: seq<Op>, f: nat, lo: nat, d: nat)
    requires Sound(ops) && FirstEarly(id, ops, f, lo, d) && !Repeated(id, ops, f, d)
    ensures Between(id, After(id, None, ops, f + 1), ops, lo, |ops|) != After(id, None, ops, |ops|)
  {
    FirstEarlySettles(id, ops, f, lo, d);
    GivesIsRepeated(id, ops, f, d);
  }

  // ---- Distinct destinations ----

  /** No correlation of the message comes before its source within one batch of it. */
  ghost predicate NoneNear(id: string, c: Option<Core>, ops: seq<Op>, marks: seq<nat>, b: nat) {
    c.None? ==> forall f: nat, lo: nat, d: nat :: Near(marks, b, f, lo) && Early(id, ops, f, d) ==> d < lo
  }

  lemma {:induction false} LeastEarly(id: string, ops: seq<Op>, f: nat, lo: nat, n: nat) returns (d: nat)
    requires exists j: nat :: lo <= j < n && Early(id, ops, f, j)
    ensures d < n && FirstEarly(id, ops, f, lo, d)
  {
    if exists j: nat :: lo <= j < n - 1 && Early(id, ops, f, j) {
      d := LeastEarly(id, ops, f, lo, n - 1);
    } else {
      d := n - 1;
    }
  }

  lemma DistinctIsNotRepeated(id: string, ops: seq<Op>, f: nat, d: nat)
    requires DistinctDestinations(id, ops) && Early(id, ops, f, d)
    ensures !Repeated(id, ops, f, d)
  {
  }

  lemma DistinctNeedNone(id: string, c: Option<Core>, ops: seq<Op>, marks: seq<nat>, b: nat)
    requires DistinctDestinations(id, ops)
    ensures NearOnesRepeat(id, c, ops, marks, b) <==> NoneNear(id, c, ops, marks, b)
  {
    if c.None? && NearOnesRepeat(id, c, ops, marks, b) {
      forall f: nat, lo: nat, d: nat | Near(marks, b, f, lo) && Early(id, ops, f, d)
        ensures d < lo
      {
        if lo <= d {
          var e := LeastEarly(id, ops, f, lo, d + 1);
          DistinctIsNotRepeated(id, ops, f, e);
        }
      }
    }
  }
}
