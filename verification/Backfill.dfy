/** Backfilling a fixed block range: a cursor store that overrides where the loop
    starts and stops it once the last block is done. */
module Backfill {
  import opened Basics
  import opened ChainClient

  datatype CursorKey = CursorKey(chainID: nat, protocol: string)

  type CursorTable = map<CursorKey, nat>

  function CursorOf(t: CursorTable, key: CursorKey): nat {
    if key in t then t[key] else 0
  }

  class RangedCursorStore {
    const own: CursorKey
    const start: nat
    const stop: nat
    var inner: CursorTable
    var started: bool
    var done: bool

    constructor (own: CursorKey, from: nat, to: nat, inner: CursorTable)
      requires 0 < from <= to
      ensures this.own == own && start == from - 1 && stop == to && this.inner == inner && !started && !done
    {
      this.own, this.start, this.stop := own, from - 1, to;
      this.inner, this.started, this.done := inner, false, false;
    }

    /** The first load for its own key answers with the start of the range. */
    method LoadCursor(key: CursorKey) returns (c: nat)
      modifies this`started
      ensures c == if !old(started) && key == own then start else CursorOf(inner, key)
      ensures old(started) && key !in inner ==> c == 0
      ensures started == (old(started) || key == own)
    {
      if !started && key == own {
        started := true;
        return start;
      }
      return CursorOf(inner, key);
    }

    /** Every cursor is persisted; reaching the end of the range also reports
        cancellation, which ends the loop, and signals completion once. */
    method UpdateCursor(key: CursorKey, block: nat) returns (r: Result<()>)
      modifies this`inner, this`done
      ensures inner == old(inner)[key := block]
      ensures r.Err? == (key == own && block >= stop)
      ensures done == (old(done) || r.Err?)
    {
      inner := inner[key := block];
      if key == own && block >= stop {
        if !done {
          done := true;
        }
        return Err("context canceled");
      }
      return Ok(());
    }
  }

  /** How many of the first `n` turns see a confirmed head at or past the end. */
  function Caught(heads: seq<nat>, stop: nat, n: nat): nat
    requires n <= |heads|
  {
    if n == 0 then 0 else Caught(heads, stop, n - 1) + if heads[n - 1] >= stop then 1 else 0
  }

  lemma {:induction false} CaughtBound(heads: seq<nat>, stop: nat, n: nat)
    requires n <= |heads|
    ensures Caught(heads, stop, n) <= n
    ensures (forall i :: 0 <= i < n ==> heads[i] >= stop) ==> Caught(heads, stop, n) == n
  {
    if n > 0 {
      CaughtBound(heads, stop, n - 1);
    }
  }

  /** The batches cut a range without gap or overlap into pieces of at most `b` blocks. */
  ghost predicate CutsInto(batches: seq<(nat, nat)>, lo: nat, end: nat, b: nat) {
    Tiles(batches, lo, end) && forall i :: 0 <= i < |batches| ==> batches[i].1 - batches[i].0 < b
  }

  lemma CutOnceMore(batches: seq<(nat, nat)>, lo: nat, from: nat, to: nat, b: nat)
    requires CutsInto(batches, lo, from, b) && from <= to && to - from < b
    ensures CutsInto(batches + [(from, to)], lo, to + 1, b)
  {
    TilesExtend(batches, lo, from, to);
  }

  /** Where the run stands after some turns, `n` of which did a batch: it has moved by a
      whole batch at least as often as it saw a head at or past the end. */
  ghost predicate OnCourse(heads: seq<nat>, start: nat, stop: nat, b: nat, turns: nat, cursor: nat, n: nat) {
    turns <= |heads| && start <= cursor < stop && n <= turns &&
    Caught(heads, stop, turns) * b <= cursor - start <= n * b
  }

  lemma WaitsOnCourse(heads: seq<nat>, start: nat, stop: nat, b: nat, turns: nat, cursor: nat, n: nat)
    requires OnCourse(heads, start, stop, b, turns, cursor, n) && turns < |heads| && cursor >= heads[turns]
    ensures OnCourse(heads, start, stop, b, turns + 1, cursor, n)
  {
  }

  lemma BatchOnCourse(heads: seq<nat>, start: nat, stop: nat, b: nat, turns: nat, cursor: nat, n: nat, to: nat)
    requires OnCourse(heads, start, stop, b, turns, cursor, n) && b > 0 && turns < |heads|
    requires cursor < heads[turns] && to == Min(cursor + b, heads[turns])
    ensures cursor < to < stop + b && to <= cursor + b
    ensures to < stop ==> OnCourse(heads, start, stop, b, turns + 1, to, n + 1)
  {
    var caught := Caught(heads, stop, turns);
    assert (n + 1) * b == n * b + b && (caught + 1) * b == caught * b + b;
  }

  lemma EndsInTime(heads: seq<nat>, start: nat, stop: nat, b: nat, cursor: nat, n: nat)
    requires OnCourse(heads, start, stop, b, |heads|, cursor, n) && b > 0
    ensures Caught(heads, stop, |heads|) < CeilDiv(stop - start, b)
  {
    CeilDivAbove(stop - start, b, Caught(heads, stop, |heads|));
  }

  lemma EndsExactly(heads: seq<nat>, start: nat, stop: nat, b: nat, turns: nat, cursor: nat, n: nat, to: nat)
    requires OnCourse(heads, start, stop, b, turns, cursor, n) && b > 0 && turns < |heads|
    requires cursor < heads[turns] && stop <= to == Min(cursor + b, heads[turns])
    ensures (forall i :: 0 <= i <= turns ==> heads[i] >= stop) ==> n + 1 == CeilDiv(stop - start, b)
  {
    CaughtBound(heads, stop, turns);
    if forall i :: 0 <= i <= turns ==> heads[i] >= stop {
      assert n == turns;
      assert (n + 1) * b == n * b + b;
      CeilDivUnique(stop - start, b, n + 1);
    }
  }

  /** The cursor turn by turn: a turn that sees a head beyond it moves it by one batch, or
      up to the head; any other turn waits. */
  ghost predicate Moves(cursors: seq<nat>, heads: seq<nat>, b: nat, n: nat) {
    |cursors| == n + 1 && n <= |heads| && forall i :: 0 <= i < n ==> MovesAt(cursors, heads, b, i)
  }

  predicate MovesAt(cursors: seq<nat>, heads: seq<nat>, b: nat, i: nat)
    requires i < |heads| && i + 1 < |cursors|
  {
    if cursors[i] >= heads[i] then cursors[i + 1] == cursors[i]
    else cursors[i + 1] == if cursors[i] + b < heads[i] then cursors[i] + b else heads[i]
  }

  lemma MovesOn(cursors: seq<nat>, heads: seq<nat>, b: nat, n: nat, to: nat)
    requires Moves(cursors, heads, b, n) && n < |heads|
    requires to == if cursors[n] >= heads[n] then cursors[n] else if cursors[n] + b < heads[n] then cursors[n] + b else heads[n]
    ensures Moves(cursors + [to], heads, b, n + 1)
  {
    var more := cursors + [to];
    forall i | 0 <= i < n + 1
      ensures MovesAt(more, heads, b, i)
    {
      if i < n {
        assert MovesAt(cursors, heads, b, i);
      }
    }
  }

  /** The loop of a backfill without failing calls; `heads[i]` is the confirmed head that
      turn `i` sees, and a turn that is caught up with it only waits. The batches cut the
      blocks from the start of the range without gap or overlap; the run ends with the
      first that reaches the end, at most one batch less one block beyond it, at the
      latest at the turn by which enough heads past the end have been seen, and takes
      exactly that many batches when all of them are. */
  method Run(store: RangedCursorStore, batchSize: nat, heads: seq<nat>)
    returns (batches: seq<(nat, nat)>, turns: nat, last: nat, ghost cursors: seq<nat>)
    requires !store.started && !store.done && store.start < store.stop && 0 < batchSize
    requires store.stop + batchSize < UINT64_END
    modifies store
    ensures turns <= |heads| && CutsInto(batches, store.start + 1, last + 1, batchSize)
    ensures Moves(cursors, heads, batchSize, turns) && cursors[0] == store.start && cursors[turns] == last
    ensures store.done <==> last >= store.stop
    ensures last < store.stop + batchSize && (!store.done ==> turns == |heads|)
    ensures store.inner == if batches == [] then old(store.inner) else old(store.inner)[store.own := last]
    ensures Caught(heads, store.stop, |heads|) >= CeilDiv(store.stop - store.start, batchSize) ==> store.done
    ensures store.done && (forall i :: 0 <= i < turns ==> heads[i] >= store.stop) ==>
              |batches| == CeilDiv(store.stop - store.start, batchSize)
  {
    batches, turns := [], 0;
    last := store.LoadCursor(store.own);
    cursors := [last];
    assert Caught(heads, store.stop, 0) * batchSize == 0;
    while turns < |heads|
      invariant !store.done && CutsInto(batches, store.start + 1, last + 1, batchSize)
      invariant Moves(cursors, heads, batchSize, turns) && cursors[0] == store.start && cursors[turns] == last
      invariant OnCourse(heads, store.start, store.stop, batchSize, turns, last, |batches|)
      invariant store.inner == if batches == [] then old(store.inner) else old(store.inner)[store.own := last]
    {
      var head, cursor := heads[turns], last;
      if cursor >= head {
        WaitsOnCourse(heads, store.start, store.stop, batchSize, turns, cursor, |batches|);
        MovesOn(cursors, heads, batchSize, turns, cursor);
        turns, cursors := turns + 1, cursors + [cursor];
        continue;
      }
      var fromBlock, toBlock := cursor + 1, Min(Add64(cursor, batchSize), head);
      assert Add64(cursor, batchSize) == cursor + batchSize;
      BatchOnCourse(heads, store.start, store.stop, batchSize, turns, cursor, |batches|, toBlock);
      CutOnceMore(batches, store.start + 1, fromBlock, toBlock, batchSize);
      batches := batches + [(fromBlock, toBlock)];
      MovesOn(cursors, heads, batchSize, turns, toBlock);
      turns, last, cursors := turns + 1, toBlock, cursors + [toBlock];
      var r := store.UpdateCursor(store.own, toBlock);
      if r.Err? {
        EndsExactly(heads, store.start, store.stop, batchSize, turns - 1, cursor, |batches| - 1, toBlock);
        return;
      }
    }
    EndsInTime(heads, store.start, store.stop, batchSize, last, |batches|);
  }
}
