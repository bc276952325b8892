/** Several processors that crash and replay, all filling one store. */
module Crew {
  import opened Basics
  import opened Messages
  import opened StoreModel
  import opened Steps
  import opened Lifecycle
  import opened Isolation
  import opened Recovery
  import opened Replay

  /** One processor: its saved cursor and its position in its own stream. */
  datatype Hand = Hand(cursor: nat, pos: nat)

  datatype State = State(hands: seq<Hand>, store: Store)

  datatype Turn = Turn(who: nat, move: Move)

  ghost predicate TurnStep(s: State, m: Turn, now: Clocks, t: State, streams: seq<seq<Op>>) {
    m.who < |s.hands| == |streams| &&
    var h := s.hands[m.who];
    match m.move
    case Handle =>
      h.pos < |streams[m.who]| && t.hands == s.hands[m.who := h.(pos := h.pos + 1)] &&
      Step(s.store, streams[m.who][h.pos], now, t.store)
    case Persist => t == s.(hands := s.hands[m.who := h.(cursor := h.pos)])
    case Crash => t == s.(hands := s.hands[m.who := h.(pos := h.cursor)])
  }

  ghost predicate Works(trace: seq<State>, moves: seq<Turn>, clocks: seq<Clocks>, streams: seq<seq<Op>>) {
    && |trace| == |moves| + 1 && |clocks| == |moves| && |trace[0].hands| == |streams| && trace[0].store == map[]
    && (forall k :: 0 <= k < |streams| ==> trace[0].hands[k] == Hand(0, 0))
    && forall i :: 0 <= i < |moves| ==> TurnStep(trace[i], moves[i], clocks[i], trace[i + 1], streams)
  }

  ghost predicate AllDone(s: State, streams: seq<seq<Op>>) {
    |s.hands| == |streams| && forall k :: 0 <= k < |streams| ==> s.hands[k].pos == |streams[k]|
  }

  // ---- One message ----

  function Final(id: string, ops: seq<Op>): Option<Core> {
    After(id, None, ops, |ops|)
  }

  /** Does the operation correlate the message that these source events store? */
  ghost predicate Corresponds(id: string, source: seq<Op>, op: Op) {
    op.Correlate? && Final(id, source).Some? && Names(op.key, id, Final(id, source).value)
  }

  /** The message is stored by events of stream `a` alone and correlated by events of
      stream `b` alone, which may be the same. */
  ghost predicate AtHome(id: string, streams: seq<seq<Op>>, a: nat, b: nat) {
    a < |streams| && b < |streams| &&
    forall k, i | 0 <= k < |streams| && 0 <= i < |streams[k]| ::
      (streams[k][i].Put? && streams[k][i].msg.id == id ==> k == a) &&
      (Corresponds(id, streams[a], streams[k][i]) ==> k == b)
  }

  /** No correlation of the message is handled before its source is first stored. */
  ghost predicate SourceStored(id: string, trace: seq<State>, moves: seq<Turn>, streams: seq<seq<Op>>, a: nat)
    requires |trace| == |moves| + 1 && a < |streams|
  {
    forall i :: 0 <= i < |moves| ==> HandlesStored(id, trace[i], moves[i], streams, a)
  }

  ghost predicate HandlesStored(id: string, s: State, m: Turn, streams: seq<seq<Op>>, a: nat)
    requires a < |streams|
  {
    (m.move.Handle? && m.who < |s.hands| && m.who < |streams| && s.hands[m.who].pos < |streams[m.who]| &&
     Corresponds(id, streams[a], streams[m.who][s.hands[m.who].pos])) ==> id in s.store
  }

  ghost predicate FirstOf(id: string, source: seq<Op>, dest: seq<Op>, d: nat) {
    d < |dest| && Corresponds(id, source, dest[d]) && forall j :: 0 <= j < d ==> !Corresponds(id, source, dest[j])
  }

  /** The life of the row when `n` events of the destination stream have been handled. */
  ghost predicate Lives(id: string, source: seq<Op>, dest: seq<Op>, n: nat, x: Option<Core>) {
    && n <= |dest|
    && (x.Some? ==> LifeOk(x.value))
    && (forall j :: 0 <= j < n && Corresponds(id, source, dest[j]) ==> x.Some? && !x.value.status.Pending?)
    && (x.Some? && !x.value.status.Pending? ==>
          exists d: nat :: FirstOf(id, source, dest, d) && Gives(dest[d], x.value))
  }

  /** The invariant: registers and origin follow the source stream, the life follows the
      destination stream. */
  ghost predicate Kept(id: string, s: State, streams: seq<seq<Op>>, a: nat, b: nat, all: seq<Op>, dir: Directory) {
    && |s.hands| == |streams| && a < |streams| && b < |streams|
    && (forall k :: 0 <= k < |streams| ==> s.hands[k].cursor <= s.hands[k].pos <= |streams[k]|)
    && Owned(s.store, all, dir) && WholeStore(s.store)
    && Tracks(id, None, streams[a], s.hands[a].pos, CoreRow(s.store, id), REGISTERS)
    && Lives(id, streams[a], streams[b], s.hands[b].pos, CoreRow(s.store, id))
  }

  lemma LivesEarlier(id: string, source: seq<Op>, dest: seq<Op>, n: nat, m: nat, x: Option<Core>)
    requires Lives(id, source, dest, n, x) && m <= n
    ensures Lives(id, source, dest, m, x)
  {
  }

  /** Operations of other streams leave origin and registers alone. */
  lemma ElsewhereTracks(id: string, source: seq<Op>, p: nat, x: Option<Core>, op: Op)
    requires Sound(source) && SoundOp(op) && Tracks(id, None, source, p, x, REGISTERS)
    requires op.Put? ==> op.msg.id != id
    ensures Tracks(id, None, source, p, CoreStep(id, x, op), REGISTERS)
  {
    var y := CoreStep(id, x, op);
    if x.Some? && y != x {
      forall f | f in REGISTERS
        ensures Seen(id, None, source, p, y.value, f)
      {
        assert View(y.value, f) == View(x.value, f);
        var m: nat :| SeenAt(id, None, source, p, x.value, f, m);
        assert SeenAt(id, None, source, p, y.value, f, m);
      }
    }
  }

  /** The name of the row is that of the source stream. */
  lemma SameName(id: string, source: seq<Op>, p: nat, x: Core, op: Op)
    requires Tracks(id, None, source, p, Some(x), REGISTERS) && op.Correlate?
    ensures Names(op.key, id, x) <==> Corresponds(id, source, op)
  {
  }

  /** An operation that does not correlate the message. */
  lemma OtherLives(id: string, source: seq<Op>, dest: seq<Op>, n: nat, x: Option<Core>, op: Op, p: nat)
    requires Lives(id, source, dest, n, x) && SoundOp(op) && Tracks(id, None, source, p, x, REGISTERS)
    requires !Corresponds(id, source, op)
    ensures Lives(id, source, dest, n, CoreStep(id, x, op))
  {
    var y := CoreStep(id, x, op);
    if x.Some? {
      SameNameUnless(id, source, p, x.value, op);
      if !y.value.status.Pending? {
        var d: nat :| FirstOf(id, source, dest, d) && Gives(dest[d], x.value);
        assert Gives(dest[d], y.value);
      }
    }
  }

  lemma SameNameUnless(id: string, source: seq<Op>, p: nat, x: Core, op: Op)
    requires Tracks(id, None, source, p, Some(x), REGISTERS) && SoundOp(op) && !Corresponds(id, source, op) && LifeOk(x)
    ensures var y := CoreStep(id, Some(x), op);
            y.Some? && LifeOk(y.value) && y.value.status == x.status && y.value.dest == x.dest
  {
    if op.Correlate? {
      SameName(id, source, p, x, op);
    }
  }

  /** The destination stream's next event. */
  lemma DestinationLives(id: string, source: seq<Op>, dest: seq<Op>, n: nat, x: Option<Core>, p: nat)
    requires Lives(id, source, dest, n, x) && n < |dest| && SoundOp(dest[n]) && Tracks(id, None, source, p, x, REGISTERS)
    requires Corresponds(id, source, dest[n]) ==> x.Some?
    ensures Lives(id, source, dest, n + 1, CoreStep(id, x, dest[n]))
  {
    if Corresponds(id, source, dest[n]) {
      SameName(id, source, p, x.value, dest[n]);
      var y := CoreStep(id, x, dest[n]);
      if x.value.status.Pending? {
        assert FirstOf(id, source, dest, n) && Gives(dest[n], y.value);
      }
    } else {
      OtherLives(id, source, dest, n, x, dest[n], p);
    }
  }

  ghost predicate Proper(streams: seq<seq<Op>>, all: seq<Op>, dir: Directory) {
    && Sound(all) && Unambiguous(all, dir)
    && (forall k :: 0 <= k < |streams| ==> Sound(streams[k]))
    && (forall k, i :: 0 <= k < |streams| && 0 <= i < |streams[k]| ==> streams[k][i] in all)
  }

  /** What one handled event does to the row. */
  lemma HandleRow(s: Store, op: Op, now: Clocks, t: Store, all: seq<Op>, dir: Directory, id: string)
    requires op in all && Step(s, op, now, t) && Sound(all) && Unambiguous(all, dir) && Owned(s, all, dir) && WholeStore(s)
    ensures Owned(t, all, dir) && WholeStore(t) && CoreRow(t, id) == CoreStep(id, CoreRow(s, id), op)
  {
    var k :| 0 <= k < |all| && all[k] == op;
    StepKeepsOwned(s, op, now, t, all, dir, k);
    StepIsPerMessage(s, op, now, t, all, dir, k, id);
  }

  lemma HandleTracks(id: string, s: State, who: nat, streams: seq<seq<Op>>, a: nat, b: nat)
    requires AtHome(id, streams, a, b) && who < |s.hands| == |streams| && s.hands[who].pos < |streams[who]|
    requires Sound(streams[a]) && Sound(streams[who])
    requires Tracks(id, None, streams[a], s.hands[a].pos, CoreRow(s.store, id), REGISTERS)
    ensures Tracks(id, None, streams[a], if who == a then s.hands[a].pos + 1 else s.hands[a].pos,
                   CoreStep(id, CoreRow(s.store, id), streams[who][s.hands[who].pos]), REGISTERS)
  {
    var op := streams[who][s.hands[who].pos];
    if who == a {
      TracksAdvance(id, None, streams[a], s.hands[a].pos, CoreRow(s.store, id), REGISTERS);
    } else {
      ElsewhereTracks(id, streams[a], s.hands[a].pos, CoreRow(s.store, id), op);
    }
  }

  lemma HandleLives(id: string, s: State, who: nat, streams: seq<seq<Op>>, a: nat, b: nat)
    requires AtHome(id, streams, a, b) && who < |s.hands| == |streams| && s.hands[who].pos < |streams[who]|
    requires Sound(streams[who]) && HandlesStored(id, s, Turn(who, Handle), streams, a)
    requires Tracks(id, None, streams[a], s.hands[a].pos, CoreRow(s.store, id), REGISTERS)
    requires Lives(id, streams[a], streams[b], s.hands[b].pos, CoreRow(s.store, id))
    ensures Lives(id, streams[a], streams[b], if who == b then s.hands[b].pos + 1 else s.hands[b].pos,
                  CoreStep(id, CoreRow(s.store, id), streams[who][s.hands[who].pos]))
  {
    var op := streams[who][s.hands[who].pos];
    if who == b {
      DestinationLives(id, streams[a], streams[b], s.hands[b].pos, CoreRow(s.store, id), s.hands[a].pos);
    } else {
      OtherLives(id, streams[a], streams[b], s.hands[b].pos, CoreRow(s.store, id), op, s.hands[a].pos);
    }
  }

  lemma HandleKeeps(id: string, s: State, who: nat, now: Clocks, t: State, streams: seq<seq<Op>>, a: nat, b: nat,
                    all: seq<Op>, dir: Directory)
    requires Kept(id, s, streams, a, b, all, dir) && Proper(streams, all, dir) && AtHome(id, streams, a, b)
    requires TurnStep(s, Turn(who, Handle), now, t, streams) && HandlesStored(id, s, Turn(who, Handle), streams, a)
    ensures Kept(id, t, streams, a, b, all, dir)
  {
    var op := streams[who][s.hands[who].pos];
    HandleRow(s.store, op, now, t.store, all, dir, id);
    HandleTracks(id, s, who, streams, a, b);
    HandleLives(id, s, who, streams, a, b);
  }

  lemma JumpKeeps(id: string, s: State, m: Turn, now: Clocks, t: State, streams: seq<seq<Op>>, a: nat, b: nat,
                  all: seq<Op>, dir: Directory)
    requires Kept(id, s, streams, a, b, all, dir) && Proper(streams, all, dir)
    requires TurnStep(s, m, now, t, streams) && !m.move.Handle?
    ensures Kept(id, t, streams, a, b, all, dir)
  {
    TracksRestart(id, None, streams[a], s.hands[a].pos, CoreRow(s.store, id), REGISTERS, t.hands[a].pos);
    LivesEarlier(id, streams[a], streams[b], s.hands[b].pos, t.hands[b].pos, CoreRow(s.store, id));
  }

  lemma {:induction false} CrewKeeps(id: string, trace: seq<State>, moves: seq<Turn>, clocks: seq<Clocks>, streams: seq<seq<Op>>,
                                     a: nat, b: nat, all: seq<Op>, dir: Directory, n: nat)
    requires Works(trace, moves, clocks, streams) && Proper(streams, all, dir) && AtHome(id, streams, a, b)
    requires SourceStored(id, trace, moves, streams, a) && n <= |moves|
    ensures Kept(id, trace[n], streams, a, b, all, dir)
  {
    if n == 0 {
      TracksOnePass(id, None, streams[a], 0, REGISTERS);
    } else {
      CrewKeeps(id, trace, moves, clocks, streams, a, b, all, dir, n - 1);
      var m := moves[n - 1];
      assert TurnStep(trace[n - 1], m, clocks[n - 1], trace[n], streams);
      if m.move.Handle? {
        assert m == Turn(m.who, Handle) && HandlesStored(id, trace[n - 1], moves[n - 1], streams, a);
        HandleKeeps(id, trace[n - 1], m.who, clocks[n - 1], trace[n], streams, a, b, all, dir);
      } else {
        JumpKeeps(id, trace[n - 1], m, clocks[n - 1], trace[n], streams, a, b, all, dir);
      }
    }
  }

  // ---- The end ----

  lemma SettledToo(id: string, source: seq<Op>, dest: seq<Op>, x: Core, y: Core)
    requires Lives(id, source, dest, |dest|, Some(x)) && Lives(id, source, dest, |dest|, Some(y)) && !x.status.Pending?
    ensures !y.status.Pending? && y.dest == x.dest && y.status == x.status
  {
    var d: nat :| FirstOf(id, source, dest, d) && Gives(dest[d], x);
    assert !y.status.Pending?;
    var e: nat :| FirstOf(id, source, dest, e) && Gives(dest[e], y);
    assert d == e;
  }

  lemma SameLife(id: string, source: seq<Op>, dest: seq<Op>, x: Core, y: Core)
    requires Lives(id, source, dest, |dest|, Some(x)) && Lives(id, source, dest, |dest|, Some(y))
    requires Whole(Some(x)) && Whole(Some(y)) && SameOrigin(x, y)
    ensures View(x, LifeFacet) == View(y, LifeFacet)
  {
    if !x.status.Pending? {
      SettledToo(id, source, dest, x, y);
    }
    if !y.status.Pending? {
      SettledToo(id, source, dest, y, x);
    }
  }

  lemma SameRow(id: string, source: seq<Op>, dest: seq<Op>, x: Option<Core>, y: Option<Core>)
    requires Tracks(id, None, source, |source|, x, REGISTERS) && Tracks(id, None, source, |source|, y, REGISTERS)
    requires Lives(id, source, dest, |dest|, x) && Lives(id, source, dest, |dest|, y)
    ensures x == y
  {
    if x.Some? && y.Some? {
      SameLife(id, source, dest, x.value, y.value);
      forall f | f in ALL_FACETS
        ensures View(x.value, f) == View(y.value, f)
      {
        if f in REGISTERS {
          assert Seen(id, None, source, |source|, x.value, f) && Seen(id, None, source, |source|, y.value, f);
        }
      }
      FacetsDecide(x.value, y.value);
    }
  }

  /** Any number of processors, each with its own chain's events, crash and replay as
      they like on one store. If every correlation of a message is handled after its
      source was first stored, then, whenever all have come to the end, the row of the
      message is the same: in particular that of any uninterrupted merge of the streams. */
  lemma CrewsAgree(id: string, streams: seq<seq<Op>>, a: nat, b: nat, all: seq<Op>, dir: Directory,
                   trace1: seq<State>, moves1: seq<Turn>, clocks1: seq<Clocks>,
                   trace2: seq<State>, moves2: seq<Turn>, clocks2: seq<Clocks>)
    requires Proper(streams, all, dir) && AtHome(id, streams, a, b)
    requires Works(trace1, moves1, clocks1, streams) && SourceStored(id, trace1, moves1, streams, a)
    requires Works(trace2, moves2, clocks2, streams) && SourceStored(id, trace2, moves2, streams, a)
    requires AllDone(trace1[|moves1|], streams) && AllDone(trace2[|moves2|], streams)
    ensures CoreRow(trace1[|moves1|].store, id) == CoreRow(trace2[|moves2|].store, id)
  {
    CrewKeeps(id, trace1, moves1, clocks1, streams, a, b, all, dir, |moves1|);
    CrewKeeps(id, trace2, moves2, clocks2, streams, a, b, all, dir, |moves2|);
    SameRow(id, streams[a], streams[b], CoreRow(trace1[|moves1|].store, id), CoreRow(trace2[|moves2|].store, id));
  }

  /** The operations that a crew without crashes takes, in the order it takes them. */
  function Merged(trace: seq<State>, moves: seq<Turn>, streams: seq<seq<Op>>): (ops: seq<Op>)
    requires |trace| == |moves| + 1
    ensures |ops| == |moves|
  {
    seq(|moves|, i requires 0 <= i < |moves| =>
      var m := moves[i];
      if m.who < |streams| && m.who < |trace[i].hands| && trace[i].hands[m.who].pos < |streams[m.who]|
      then streams[m.who][trace[i].hands[m.who].pos] else Skip)
  }

  function StoresOf(trace: seq<State>): (stores: seq<Store>)
    ensures |stores| == |trace|
  {
    seq(|trace|, i requires 0 <= i < |trace| => trace[i].store)
  }

  /** Such a crew is a run of the store over a merge of the streams. */
  lemma SmoothCrewIsRun(trace: seq<State>, moves: seq<Turn>, clocks: seq<Clocks>, streams: seq<seq<Op>>)
    requires Works(trace, moves, clocks, streams) && forall i :: 0 <= i < |moves| ==> moves[i].move.Handle?
    ensures Run(StoresOf(trace), Merged(trace, moves, streams), clocks)
  {
    forall i | 0 <= i < |moves|
      ensures Step(trace[i].store, Merged(trace, moves, streams)[i], clocks[i], trace[i + 1].store)
    {
      assert TurnStep(trace[i], moves[i], clocks[i], trace[i + 1], streams);
    }
  }

  /** A crew that crashes ends with the rows of a run over a merge of the streams. */
  lemma CrewEndsAsMerge(id: string, streams: seq<seq<Op>>, a: nat, b: nat, all: seq<Op>, dir: Directory,
                        trace: seq<State>, moves: seq<Turn>, clocks: seq<Clocks>,
                        smooth: seq<State>, handles: seq<Turn>, smoothClocks: seq<Clocks>)
    requires Proper(streams, all, dir) && AtHome(id, streams, a, b)
    requires Works(trace, moves, clocks, streams) && SourceStored(id, trace, moves, streams, a)
    requires Works(smooth, handles, smoothClocks, streams) && SourceStored(id, smooth, handles, streams, a)
    requires forall i :: 0 <= i < |handles| ==> handles[i].move.Handle?
    requires AllDone(trace[|moves|], streams) && AllDone(smooth[|handles|], streams)
    ensures Run(StoresOf(smooth), Merged(smooth, handles, streams), smoothClocks)
    ensures CoreRow(trace[|moves|].store, id) == CoreRow(StoresOf(smooth)[|handles|], id)
  {
    SmoothCrewIsRun(smooth, handles, smoothClocks, streams);
    CrewsAgree(id, streams, a, b, all, dir, trace, moves, clocks, smooth, handles, smoothClocks);
  }
}
