/** Exactly when crashes are harmless for a processor that may save its cursor after any
    event: which event streams end with the same rows wherever it crashes. A processor
    that saves at the end of a batch of blocks is the subject of `Batches` and
    `LoopCrashes`. */
module Crashes {
  import opened Basics
  import opened Messages
  import opened StoreModel
  import opened Steps
  import opened Isolation
  import opened Recovery
  import opened Registers
  import opened Replay

  // ---- Building executions ----

  lemma SomeStep(s: Store, op: Op, now: Clocks) returns (t: Store)
    ensures Step(s, op, now, t)
  {
    match op {
      case Skip => t := s;
      case Put(m) => t := PutIn(s, m, now.app);
      case Correlate(key, dest, outcome) =>
        if id :| Matches(s, key, id) {
          t := SettleIn(s, id, dest, outcome, now.db);
        } else {
          t := s;
        }
    }
  }

  /** The row after reading the operations from `p` up to, and not including, `q`. */
  function Between(id: string, x: Option<Core>, ops: seq<Op>, p: nat, q: nat): Option<Core>
    requires p <= q <= |ops|
  {
    if p == q then x else CoreStep(id, Between(id, x, ops, p, q - 1), ops[q - 1])
  }

  lemma {:induction false} BetweenJoins(id: string, x: Option<Core>, ops: seq<Op>, p: nat, m: nat, q: nat)
    requires p <= m <= q <= |ops|
    ensures Between(id, x, ops, p, q) == Between(id, Between(id, x, ops, p, m), ops, m, q)
  {
    if m < q {
      BetweenJoins(id, x, ops, p, m, q - 1);
    }
  }

  lemma {:induction false} BetweenFromStart(id: string, c: Option<Core>, ops: seq<Op>, n: nat)
    requires n <= |ops|
    ensures Between(id, c, ops, 0, n) == After(id, c, ops, n)
  {
    if n > 0 {
      BetweenFromStart(id, c, ops, n - 1);
    }
  }

  datatype Course = Course(trace: seq<Worker>, moves: seq<Move>, clocks: seq<Clocks>)

  ghost predicate Executes(l: Course, ops: seq<Op>) {
    Execution(l.trace, l.moves, l.clocks, ops)
  }

  ghost function Now(l: Course): Worker
    requires |l.trace| == |l.moves| + 1
  {
    l.trace[|l.moves|]
  }

  lemma OneMore(l: Course, ops: seq<Op>, mv: Move, now: Clocks, v: Worker)
    requires Executes(l, ops) && MoveStep(Now(l), mv, now, v, ops)
    ensures var k := Course(l.trace + [v], l.moves + [mv], l.clocks + [now]);
            Executes(k, ops) && Now(k) == v && k.trace[0] == l.trace[0]
  {
    var k := Course(l.trace + [v], l.moves + [mv], l.clocks + [now]);
    forall i | 0 <= i < |k.moves|
      ensures MoveStep(k.trace[i], k.moves[i], k.clocks[i], k.trace[i + 1], ops)
    {
      if i < |l.moves| {
        assert MoveStep(l.trace[i], l.moves[i], l.clocks[i], l.trace[i + 1], ops);
      }
    }
  }

  /** Where every row is read off message by message. */
  ghost predicate Readable(s: Store, ops: seq<Op>, dir: Directory) {
    Sound(ops) && Unambiguous(ops, dir) && Owned(s, ops, dir) && WholeStore(s)
  }

  lemma HandleOne(l: Course, ops: seq<Op>, now: Clocks, dir: Directory, id: string) returns (k: Course)
    requires Executes(l, ops) && Now(l).pos < |ops| && Readable(Now(l).store, ops, dir)
    ensures Executes(k, ops) && k.trace[0] == l.trace[0]
    ensures Now(k).pos == Now(l).pos + 1 && Now(k).cursor == Now(l).cursor && Readable(Now(k).store, ops, dir)
    ensures CoreRow(Now(k).store, id) == CoreStep(id, CoreRow(Now(l).store, id), ops[Now(l).pos])
  {
    var w := Now(l);
    var t := SomeStep(w.store, ops[w.pos], now);
    var v := Worker(w.cursor, w.pos + 1, t);
    OneMore(l, ops, Handle, now, v);
    k := Course(l.trace + [v], l.moves + [Handle], l.clocks + [now]);
    StepKeepsOwned(w.store, ops[w.pos], now, t, ops, dir, w.pos);
    StepIsPerMessage(w.store, ops[w.pos], now, t, ops, dir, w.pos, id);
  }

  /** Reading on without a crash. */
  lemma {:induction false} HandleUpTo(l: Course, ops: seq<Op>, q: nat, now: Clocks, dir: Directory, id: string) returns (k: Course)
    requires Executes(l, ops) && Now(l).pos <= q <= |ops| && Readable(Now(l).store, ops, dir)
    ensures Executes(k, ops) && k.trace[0] == l.trace[0]
    ensures Now(k).pos == q && Now(k).cursor == Now(l).cursor && Readable(Now(k).store, ops, dir)
    ensures CoreRow(Now(k).store, id) == Between(id, CoreRow(Now(l).store, id), ops, Now(l).pos, q)
    decreases q - Now(l).pos
  {
    if Now(l).pos == q {
      k := l;
    } else {
      var m := HandleOne(l, ops, now, dir, id);
      k := HandleUpTo(m, ops, q, now, dir, id);
      BetweenJoins(id, CoreRow(Now(l).store, id), ops, Now(l).pos, Now(m).pos, q);
      assert Between(id, CoreRow(Now(l).store, id), ops, Now(l).pos, Now(l).pos) == CoreRow(Now(l).store, id);
    }
  }

  /** The processor saves its cursor at `d`, reads on to `e`, crashes and starts over. */
  lemma CrashOnce(s: Store, ops: seq<Op>, d: nat, e: nat, now: Clocks, dir: Directory, id: string) returns (k: Course)
    requires Readable(s, ops, dir) && d <= e <= |ops|
    ensures Executes(k, ops) && k.trace[0].store == s && Now(k).pos == |ops|
    ensures CoreRow(Now(k).store, id) == Between(id, After(id, CoreRow(s, id), ops, e), ops, d, |ops|)
  {
    var l0 := Course([Worker(0, 0, s)], [], []);
    var l1 := HandleUpTo(l0, ops, d, now, dir, id);
    var saved := Now(l1).(cursor := d);
    OneMore(l1, ops, Persist, now, saved);
    var l2 := Course(l1.trace + [saved], l1.moves + [Persist], l1.clocks + [now]);
    var l3 := HandleUpTo(l2, ops, e, now, dir, id);
    var back := Now(l3).(pos := d);
    OneMore(l3, ops, Crash, now, back);
    var l4 := Course(l3.trace + [back], l3.moves + [Crash], l3.clocks + [now]);
    k := HandleUpTo(l4, ops, |ops|, now, dir, id);
    BetweenJoins(id, CoreRow(s, id), ops, 0, d, e);
    BetweenFromStart(id, CoreRow(s, id), ops, e);
  }

  // ---- A correlation that comes too early ----

  lemma {:induction false} TerminalBetween(id: string, x: Core, ops: seq<Op>, p: nat, q: nat)
    requires p <= q <= |ops| && !x.status.Pending?
    ensures var y := Between(id, Some(x), ops, p, q); y.Some? && y.value.status == x.status && y.value.dest == x.dest
  {
    if p < q {
      TerminalBetween(id, x, ops, p, q - 1);
    }
  }

  /** Where the row comes to be. */
  lemma {:induction false} FirstStored(id: string, c: Option<Core>, ops: seq<Op>, d: nat, n: nat) returns (f: nat)
    requires d <= n <= |ops| && After(id, c, ops, d).None? && After(id, c, ops, n).Some?
    ensures d <= f < n && After(id, c, ops, f).None? && After(id, c, ops, f + 1).Some?
  {
    if After(id, c, ops, n - 1).None? {
      f := n - 1;
    } else {
      f := FirstStored(id, c, ops, d, n - 1);
    }
  }

  /** Read again after the source was stored, an early correlation settles the row. */
  lemma EarlySettles(id: string, c: Option<Core>, ops: seq<Op>, d: nat) returns (f: nat)
    requires Sound(ops) && Whole(c) && d < |ops| && ops[d].Correlate?
    requires After(id, c, ops, d).None? && After(id, c, ops, |ops|).Some?
    requires Names(ops[d].key, id, After(id, c, ops, |ops|).value)
    ensures d < f < |ops|
    ensures var y := Between(id, After(id, c, ops, f + 1), ops, d, |ops|); y.Some? && Gives(ops[d], y.value)
  {
    f := FirstStored(id, c, ops, d, |ops|);
    PassKeeps(id, c, ops, f + 1, |ops|);
    var x := After(id, c, ops, f + 1).value;
    assert x.status.Pending? && Names(ops[d].key, id, x);
    var y := Settle(x, ops[d].dest, ops[d].outcome);
    assert Between(id, Some(x), ops, d, d) == Some(x) && Between(id, Some(x), ops, d, d + 1) == Some(y);
    TerminalBetween(id, y, ops, d + 1, |ops|);
    BetweenJoins(id, Some(x), ops, d, d + 1, |ops|);
  }

  /** Every execution over these events that reaches their end leaves this row. */
  ghost predicate AlwaysEndsAs(s: Store, ops: seq<Op>, id: string, row: Option<Core>) {
    forall l: Course :: Executes(l, ops) && l.trace[0].store == s && Now(l).pos == |ops| ==> CoreRow(Now(l).store, id) == row
  }

  lemma HarmlessEndsAlike(s: Store, ops: seq<Op>, dir: Directory, id: string)
    requires Readable(s, ops, dir) && Harmless(id, CoreRow(s, id), ops, 0)
    ensures AlwaysEndsAs(s, ops, id, After(id, CoreRow(s, id), ops, |ops|))
  {
    forall l: Course | Executes(l, ops) && l.trace[0].store == s && Now(l).pos == |ops|
      ensures CoreRow(Now(l).store, id) == After(id, CoreRow(s, id), ops, |ops|)
    {
      ExecutionTracks(l.trace, l.moves, l.clocks, ops, dir, id, |l.moves|);
      TracksEnd(id, CoreRow(s, id), ops, CoreRow(Now(l).store, id));
    }
  }

  /** A crash right after the source was stored shows an early correlation. */
  lemma HarmfulShows(s: Store, ops: seq<Op>, now: Clocks, dir: Directory, id: string) returns (k: Course)
    requires Readable(s, ops, dir) && !Harmless(id, CoreRow(s, id), ops, 0)
    ensures Executes(k, ops) && k.trace[0].store == s && Now(k).pos == |ops|
    ensures CoreRow(Now(k).store, id) != After(id, CoreRow(s, id), ops, |ops|)
  {
    var c := CoreRow(s, id);
    var d :| 0 <= d < |ops| && ops[d].Correlate? && After(id, c, ops, |ops|).Some? &&
             Names(ops[d].key, id, After(id, c, ops, |ops|).value) &&
             After(id, c, ops, d).None? && !Gives(ops[d], After(id, c, ops, |ops|).value);
    var f := EarlySettles(id, c, ops, d);
    k := CrashOnce(s, ops, d, f + 1, now, dir, id);
  }

  // ---- Read off the events ----

  /** A correlation before the source that names what the source stores. */
  ghost predicate Early(id: string, ops: seq<Op>, f: nat, d: nat) {
    d < f && FirstPut(id, ops, f) && ops[d].Correlate? && Names(ops[d].key, id, Merge(None, ops[f].msg))
  }

  ghost predicate FirstReach(id: string, ops: seq<Op>, f: nat, e: nat)
    requires f < |ops| && ops[f].Put?
  {
    Reaches(id, ops, f, e) && forall j :: f < j < e ==> !Reaches(id, ops, f, j)
  }

  /** The first correlation after the source sets the same destination and status. */
  ghost predicate Repeated(id: string, ops: seq<Op>, f: nat, d: nat)
    requires f < |ops| && ops[f].Put? && d < |ops| && ops[d].Correlate?
  {
    exists e: nat :: FirstReach(id, ops, f, e) && ops[e].dest == ops[d].dest && ops[e].outcome == ops[d].outcome
  }

  ghost predicate EarlyOnesRepeat(id: string, c: Option<Core>, ops: seq<Op>) {
    c.None? ==> forall f: nat, d: nat :: Early(id, ops, f, d) ==> Repeated(id, ops, f, d)
  }

  lemma {:induction false} LeastReach(id: string, ops: seq<Op>, f: nat, n: nat) returns (e: nat)
    requires f < |ops| && ops[f].Put? && n <= |ops| && exists j :: f < j < n && Reaches(id, ops, f, j)
    ensures e < n && FirstReach(id, ops, f, e)
  {
    if exists j :: f < j < n - 1 && Reaches(id, ops, f, j) {
      e := LeastReach(id, ops, f, n - 1);
    } else {
      e := n - 1;
    }
  }

  /** The row that one pass leaves shows exactly the first correlation after the source. */
  lemma GivesIsRepeated(id: string, ops: seq<Op>, f: nat, d: nat)
    requires Sound(ops) && Early(id, ops, f, d)
    ensures After(id, None, ops, |ops|).Some?
    ensures Gives(ops[d], After(id, None, ops, |ops|).value) <==> Repeated(id, ops, f, d)
  {
    FirstWriteWins(id, ops, f, |ops|);
    if exists j :: f < j < |ops| && Reaches(id, ops, f, j) {
      var e := LeastReach(id, ops, f, |ops|);
      FirstCorrelationWins(id, ops, f, e, |ops|);
      assert forall g: nat :: FirstReach(id, ops, f, g) ==> g == e;
    } else {
      PendingUntilReached(id, ops, f, |ops|);
    }
  }

  /** Before the source, and named by the final row, is the same as early. */
  lemma EarlyIsNamed(id: string, ops: seq<Op>, f: nat, d: nat)
    requires Sound(ops) && FirstPut(id, ops, f) && d < |ops| && ops[d].Correlate?
    ensures After(id, None, ops, |ops|).Some?
    ensures Early(id, ops, f, d) <==>
            Names(ops[d].key, id, After(id, None, ops, |ops|).value) && After(id, None, ops, d).None?
  {
    FirstWriteWins(id, ops, f, |ops|);
    FirstWriteWins(id, ops, f, d);
  }

  lemma {:induction false} SomeFirstPut(id: string, ops: seq<Op>, n: nat) returns (f: nat)
    requires n <= |ops| && After(id, None, ops, n).Some?
    ensures f < n && FirstPut(id, ops, f)
  {
    if After(id, None, ops, n - 1).Some? {
      f := SomeFirstPut(id, ops, n - 1);
    } else {
      f := n - 1;
      NoPutYet(id, ops, n - 1);
    }
  }

  lemma {:induction false} NoPutYet(id: string, ops: seq<Op>, n: nat)
    requires n <= |ops| && After(id, None, ops, n).None?
    ensures forall j :: 0 <= j < n && ops[j].Put? ==> ops[j].msg.id != id
  {
    if n > 0 {
      NoPutYet(id, ops, n - 1);
    }
  }

  lemma RepeatIsHarmless(id: string, c: Option<Core>, ops: seq<Op>)
    requires Sound(ops) && Whole(c)
    ensures EarlyOnesRepeat(id, c, ops) <==> Harmless(id, c, ops, 0)
  {
    if c.Some? {
      forall d | 0 <= d < |ops|
        ensures After(id, c, ops, d).Some?
      {
        PassKeeps(id, c, ops, 0, d);
      }
    } else {
      if EarlyOnesRepeat(id, c, ops) {
        RepeatsAreHarmless(id, ops);
      }
      if Harmless(id, c, ops, 0) {
        HarmlessOnesRepeat(id, ops);
      }
    }
  }

  lemma RepeatsAreHarmless(id: string, ops: seq<Op>)
    requires Sound(ops) && EarlyOnesRepeat(id, None, ops)
    ensures Harmless(id, None, ops, 0)
  {
    var end := After(id, None, ops, |ops|);
    forall d | 0 <= d < |ops| && ops[d].Correlate? && end.Some? && Names(ops[d].key, id, end.value) && After(id, None, ops, d).None?
      ensures Gives(ops[d], end.value)
    {
      var f := SomeFirstPut(id, ops, |ops|);
      EarlyIsNamed(id, ops, f, d);
      GivesIsRepeated(id, ops, f, d);
    }
  }

  lemma HarmlessOnesRepeat(id: string, ops: seq<Op>)
    requires Sound(ops) && Harmless(id, None, ops, 0)
    ensures EarlyOnesRepeat(id, None, ops)
  {
    forall f, d | Early(id, ops, f, d)
      ensures Repeated(id, ops, f, d)
    {
      EarlyIsNamed(id, ops, f, d);
      GivesIsRepeated(id, ops, f, d);
    }
  }

  /** Wherever and however often such a processor crashes, it ends with the row of an
      uninterrupted run over the same events, if and only if every correlation that
      comes before its source only repeats the first one after it. */
  lemma CrashesHarmlessExactly(s: Store, ops: seq<Op>, smooth: seq<Store>, clocks: seq<Clocks>, dir: Directory, id: string)
    requires Readable(s, ops, dir) && Run(smooth, ops, clocks) && smooth[0] == s
    ensures AlwaysEndsAs(s, ops, id, CoreRow(smooth[|ops|], id)) <==> EarlyOnesRepeat(id, CoreRow(s, id), ops)
  {
    RunIsPerMessage(smooth, ops, clocks, dir, |ops|, id);
    RepeatIsHarmless(id, CoreRow(s, id), ops);
    if Harmless(id, CoreRow(s, id), ops, 0) {
      HarmlessEndsAlike(s, ops, dir, id);
    } else {
      var k := HarmfulShows(s, ops, Clocks(0, 0), dir, id);
    }
  }

  /** No two correlations of the message report the same destination. */
  ghost predicate DistinctDestinations(id: string, ops: seq<Op>) {
    forall f: nat, d: nat, e: nat :: Early(id, ops, f, d) && Reaches(id, ops, f, e) ==> ops[d].dest != ops[e].dest
  }

  /** Then it is the order alone that decides. */
  lemma OrderDecidesExactly(s: Store, ops: seq<Op>, smooth: seq<Store>, clocks: seq<Clocks>, dir: Directory, id: string)
    requires Readable(s, ops, dir) && Run(smooth, ops, clocks) && smooth[0] == s
    requires DistinctDestinations(id, ops)
    ensures AlwaysEndsAs(s, ops, id, CoreRow(smooth[|ops|], id)) <==> SourcesFirst(id, CoreRow(s, id), ops, 0)
  {
    var c := CoreRow(s, id);
    CrashesHarmlessExactly(s, ops, smooth, clocks, dir, id);
    RepeatIsHarmless(id, c, ops);
    if EarlyOnesRepeat(id, c, ops) {
      forall d | 0 <= d < |ops| && ops[d].Correlate? && After(id, c, ops, |ops|).Some? &&
                 Names(ops[d].key, id, After(id, c, ops, |ops|).value)
        ensures After(id, c, ops, d).Some?
      {
        if c.Some? {
          PassKeeps(id, c, ops, 0, d);
        } else {
          var f := SomeFirstPut(id, ops, |ops|);
          EarlyIsNamed(id, ops, f, d);
        }
      }
    }
  }
}
