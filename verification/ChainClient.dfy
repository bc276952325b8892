/** The RPC client of one chain: retry with endpoint failover, and log queries cut
    into chunks of at most `maxBlockRange` blocks. */
module ChainClient {
  import opened Basics

  const MAX_RETRIES: nat := 3

  datatype Endpoint = Endpoint(url: string)

  datatype Log = Log(block: nat, index: nat, body: string)

  // ---- Rotation ----

  function Turn(xs: seq<Endpoint>): (r: seq<Endpoint>)
    ensures |r| == |xs|
  {
    if |xs| > 1 then xs[1..] + [xs[0]] else xs
  }

  /** The list after `k` failovers. */
  function Rotated(xs: seq<Endpoint>, k: nat): (r: seq<Endpoint>)
    ensures |r| == |xs|
  {
    if k == 0 then xs else Turn(Rotated(xs, k - 1))
  }

  lemma {:induction false} RotationsAdd(xs: seq<Endpoint>, j: nat, k: nat)
    ensures Rotated(Rotated(xs, j), k) == Rotated(xs, j + k)
  {
    if k > 0 {
      RotationsAdd(xs, j, k - 1);
    }
  }

  /** `k` counted on a dial of `n` places. */
  function Dial(k: nat, n: nat): (d: nat)
    requires n > 0
    ensures d < n
  {
    if k == 0 then 0 else if Dial(k - 1, n) + 1 == n then 0 else Dial(k - 1, n) + 1
  }

  lemma RemainderUnique(a: nat, n: nat, q: nat, r: nat)
    requires n > 0 && r < n && a == q * n + r
    ensures a % n == r
  {
    var q' := a / n;
    assert q' < q ==> (q' + 1) * n <= q * n;
    assert q < q' ==> (q + 1) * n <= q' * n;
  }

  lemma {:induction false} DialIsRemainder(k: nat, n: nat) returns (q: nat)
    requires n > 0
    ensures k == q * n + Dial(k, n) && Dial(k, n) == k % n
  {
    q := 0;
    if k > 0 {
      q := DialIsRemainder(k - 1, n);
      if Dial(k - 1, n) + 1 == n {
        assert (q + 1) * n == q * n + n;
        q := q + 1;
      }
    }
    RemainderUnique(k, n, q, Dial(k, n));
  }

  lemma {:induction false} RotatedOnDial(xs: seq<Endpoint>, k: nat)
    requires xs != []
    ensures Rotated(xs, k) == xs[Dial(k, |xs|)..] + xs[..Dial(k, |xs|)]
  {
    if k > 0 {
      RotatedOnDial(xs, k - 1);
      var d := Dial(k - 1, |xs|);
      if |xs| > 1 {
        assert xs[d..] == [xs[d]] + xs[d + 1..] && xs[..d + 1] == xs[..d] + [xs[d]];
      }
    }
  }

  /** After any number of failed attempts the list is the original turned left by
      that number modulo its length, so attempt `k` asks endpoint `k mod n`. */
  lemma FailoverRotates(xs: seq<Endpoint>, k: nat)
    requires xs != []
    ensures Rotated(xs, k) == xs[k % |xs|..] + xs[..k % |xs|]
    ensures Rotated(xs, k)[0] == xs[k % |xs|]
  {
    RotatedOnDial(xs, k);
    var _ := DialIsRemainder(k, |xs|);
  }

  // ---- Tiling ----

  /** What one query of the whole range returns: each block's logs, in order. */
  function LogsOf(view: nat -> seq<Log>, lo: nat, end: nat): seq<Log>
    requires lo <= end
  {
    if lo == end then [] else LogsOf(view, lo, end - 1) + view(end - 1)
  }

  /** A query of one block answers with that block's logs. */
  lemma OneBlockLogs(view: nat -> seq<Log>, b: nat)
    ensures LogsOf(view, b, b + 1) == view(b)
  {
    assert LogsOf(view, b, b) == [];
  }

  lemma {:induction false} LogsSplit(view: nat -> seq<Log>, lo: nat, mid: nat, end: nat)
    requires lo <= mid <= end
    ensures LogsOf(view, lo, end) == LogsOf(view, lo, mid) + LogsOf(view, mid, end)
  {
    if mid < end {
      LogsSplit(view, lo, mid, end - 1);
    }
  }

  /** Inclusive ranges that follow one another from `lo` up to, and not including, `end`. */
  ghost predicate Tiles(ranges: seq<(nat, nat)>, lo: nat, end: nat) {
    if ranges == [] then lo == end
    else ranges[|ranges| - 1].0 <= ranges[|ranges| - 1].1 && ranges[|ranges| - 1].1 + 1 == end &&
         Tiles(ranges[..|ranges| - 1], lo, ranges[|ranges| - 1].0)
  }

  lemma TilesExtend(ranges: seq<(nat, nat)>, lo: nat, mid: nat, hi: nat)
    requires Tiles(ranges, lo, mid) && mid <= hi
    ensures Tiles(ranges + [(mid, hi)], lo, hi + 1)
  {
    assert (ranges + [(mid, hi)])[..|ranges|] == ranges;
  }

  function LogsOfRanges(view: nat -> seq<Log>, ranges: seq<(nat, nat)>): seq<Log> {
    if ranges == [] then []
    else
      var last := ranges[|ranges| - 1];
      LogsOfRanges(view, ranges[..|ranges| - 1]) + if last.0 <= last.1 then LogsOf(view, last.0, last.1 + 1) else []
  }

  /** The logs of the pieces, put together, are those of one query of the whole. */
  lemma {:induction false} TiledLogs(view: nat -> seq<Log>, ranges: seq<(nat, nat)>, lo: nat, end: nat)
    requires Tiles(ranges, lo, end)
    ensures lo <= end && LogsOfRanges(view, ranges) == LogsOf(view, lo, end)
  {
    if ranges != [] {
      var last := ranges[|ranges| - 1];
      TiledLogs(view, ranges[..|ranges| - 1], lo, last.0);
      LogsSplit(view, lo, last.0, end);
    }
  }

  /** What has been fetched of a range up to, and not including, `done`. */
  ghost predicate Fetched(view: nat -> seq<Log>, size: nat, chunks: seq<(nat, nat)>, from: nat, done: nat, logs: seq<Log>) {
    from <= done && Tiles(chunks, from, done) && logs == LogsOf(view, from, done) &&
    forall i :: 0 <= i < |chunks| ==> chunks[i].1 - chunks[i].0 < size
  }

  lemma FetchedExtends(view: nat -> seq<Log>, size: nat, chunks: seq<(nat, nat)>, from: nat, done: nat, logs: seq<Log>, end: nat)
    requires Fetched(view, size, chunks, from, done, logs) && done <= end && end - done < size
    ensures Fetched(view, size, chunks + [(done, end)], from, end + 1, logs + LogsOf(view, done, end + 1))
  {
    TilesExtend(chunks, from, done, end);
    LogsSplit(view, from, done, end + 1);
  }

  predicate Covers(range: (nat, nat), b: nat) {
    range.0 <= b <= range.1
  }

  /** No gap and no overlap: each block lies in one range and no other. */
  lemma {:induction false} TilesExactlyOnce(ranges: seq<(nat, nat)>, lo: nat, end: nat, b: nat)
    requires Tiles(ranges, lo, end)
    ensures lo <= end
    ensures lo <= b < end <==> exists i :: 0 <= i < |ranges| && Covers(ranges[i], b)
    ensures forall i, j :: 0 <= i < j < |ranges| ==> !(Covers(ranges[i], b) && Covers(ranges[j], b))
  {
    if ranges != [] {
      var n := |ranges| - 1;
      var init := ranges[..n];
      TilesExactlyOnce(init, lo, ranges[n].0, b);
      assert forall i :: 0 <= i < n ==> init[i] == ranges[i];
      if lo <= b < end {
        if b < ranges[n].0 {
          var i :| 0 <= i < n && Covers(init[i], b);
          assert Covers(ranges[i], b);
        } else {
          assert Covers(ranges[n], b);
        }
      }
    }
  }

  // ---- Machine arithmetic ----

  function Add64(a: nat, b: nat): nat {
    (a + b) % UINT64_END
  }

  function Sub64(a: nat, b: nat): nat
    requires b <= UINT64_END
  {
    (a + UINT64_END - b) % UINT64_END
  }

  class Client {
    var endpoints: seq<Endpoint>
    const confirmationDepth: nat
    const maxBlockRange: nat

    ghost predicate Valid()
      reads this
    {
      endpoints != [] && 0 < maxBlockRange
    }

    constructor (endpoints: seq<Endpoint>, confirmationDepth: nat, maxBlockRange: nat)
      requires endpoints != []
      ensures Valid() && this.endpoints == endpoints && this.confirmationDepth == confirmationDepth
      ensures this.maxBlockRange == if maxBlockRange == 0 then 1000 else maxBlockRange
    {
      this.endpoints := endpoints;
      this.confirmationDepth := confirmationDepth;
      this.maxBlockRange := if maxBlockRange == 0 then 1000 else maxBlockRange;
    }

    method Failover()
      requires Valid()
      modifies this`endpoints
      ensures endpoints == Turn(old(endpoints))
    {
      if |endpoints| > 1 {
        endpoints := endpoints[1..] + [endpoints[0]];
      }
    }

    /** Up to three attempts, each at the current primary; `answers(e, a)` says
        whether endpoint `e` answers when asked at attempt `a`. */
    method WithRetry(answers: (Endpoint, nat) -> bool) returns (ok: bool, ghost failures: nat)
      requires Valid()
      modifies this`endpoints
      ensures Valid() && failures <= 3
      ensures endpoints == Rotated(old(endpoints), failures)
      ensures forall a :: 0 <= a < failures ==> !answers(Rotated(old(endpoints), a)[0], a)
      ensures ok ==> failures < 3 && answers(Rotated(old(endpoints), failures)[0], failures)
      ensures !ok ==> failures == 3
    {
      ghost var start := endpoints;
      for attempt := 0 to MAX_RETRIES
        invariant Valid() && endpoints == Rotated(start, attempt)
        invariant forall a :: 0 <= a < attempt ==> !answers(Rotated(start, a)[0], a)
      {
        if answers(endpoints[0], attempt) {
          return true, attempt;
        }
        Failover();
      }
      return false, MAX_RETRIES;
    }

    /** Nothing is confirmed until the head is deeper than the confirmation depth. */
    method LatestConfirmedBlock(head: nat, answers: (Endpoint, nat) -> bool) returns (r: Result<nat>, ghost failures: nat)
      requires Valid()
      modifies this`endpoints
      ensures Valid() && endpoints == Rotated(old(endpoints), failures)
      ensures r.Ok? <==> exists a :: 0 <= a < 3 && answers(Rotated(old(endpoints), a)[0], a)
      ensures r.Ok? ==> r.value <= head && (r.value > 0 ==> head == r.value + confirmationDepth)
      ensures r.Ok? && head > confirmationDepth ==> r.value == head - confirmationDepth
    {
      var ok;
      ok, failures := WithRetry(answers);
      if !ok {
        return Err("fetching block number"), failures;
      }
      return Ok(if head <= confirmationDepth then 0 else head - confirmationDepth), failures;
    }

    /** One chunk; `before` and `after` count the failed attempts since the list was `start`. */
    method FetchChunk(view: nat -> seq<Log>, from: nat, end: nat, answers: (nat, Endpoint, nat) -> bool,
                      ghost start: seq<Endpoint>, ghost before: nat)
      returns (ok: bool, logs: seq<Log>, ghost after: nat)
      requires Valid() && from <= end && Request(from) && start != [] && endpoints == Rotated(start, before)
      modifies this`endpoints
      ensures Valid() && endpoints == Rotated(start, after)
      ensures ok ==> logs == LogsOf(view, from, end)
      ensures Reachable(start, answers) ==> ok
      ensures !ok ==> NoAnswer(answers, from, start, before)
    {
      ghost var primary := endpoints;
      ghost var failed;
      ok, failed := WithRetry((e: Endpoint, a: nat) => answers(from, e, a));
      logs := if ok then LogsOf(view, from, end) else [];
      after := before + failed;
      RotationsAdd(start, before, failed);
      if !ok {
        forall a: nat | a < 3
          ensures Unanswered(answers, from, start, before, a)
        {
          RotationsAdd(start, before, a);
        }
      }
      if !ok && Reachable(start, answers) {
        StaysReachable(start, answers, before);
        var a := ReachableAnswers(primary, answers, from);
        assert false;
      }
    }

    /** The end of the chunk and the start of the next, in machine arithmetic. */
    method ChunkBounds(chunkStart: nat, toBlock: nat) returns (chunkEnd: nat, next: nat)
      requires Valid() && chunkStart <= toBlock && toBlock + maxBlockRange < UINT64_END
      ensures chunkEnd == Min(chunkStart + maxBlockRange - 1, toBlock)
      ensures next == chunkStart + maxBlockRange
    {
      chunkEnd := Sub64(Add64(chunkStart, maxBlockRange), 1);
      if chunkEnd > toBlock {
        chunkEnd := toBlock;
      }
      next := Add64(chunkStart, maxBlockRange);
    }

    /** The chunked answers, put together, are the answer to one query of the whole
        range; a chunk that no attempt answers fails the whole call. */
    method FetchLogs(view: nat -> seq<Log>, fromBlock: nat, toBlock: nat, answers: (nat, Endpoint, nat) -> bool)
      returns (r: Result<seq<Log>>, ghost chunks: seq<(nat, nat)>, ghost failures: nat)
      requires Valid() && toBlock + maxBlockRange < UINT64_END
      modifies this`endpoints
      ensures Valid() && endpoints == Rotated(old(endpoints), failures)
      ensures fromBlock > toBlock ==> r.Err?
      ensures r.Ok? ==> fromBlock <= toBlock && r.value == LogsOf(view, fromBlock, toBlock + 1)
      ensures r.Ok? ==> Tiles(chunks, fromBlock, toBlock + 1)
      ensures r.Ok? ==> forall i :: 0 <= i < |chunks| ==> chunks[i].1 - chunks[i].0 < maxBlockRange
      ensures fromBlock <= toBlock && Reachable(old(endpoints), answers) ==> r.Ok?
      ensures r.Err? && fromBlock <= toBlock ==>
        exists req: nat, before: nat :: fromBlock <= req <= toBlock && NoAnswer(answers, req, old(endpoints), before)
    {
      chunks, failures := [], 0;
      if fromBlock > toBlock {
        return Err("fromBlock > toBlock"), chunks, failures;
      }
      ghost var start := endpoints;
      var allLogs := [];
      var chunkStart := fromBlock;
      ghost var done := fromBlock;
      while chunkStart <= toBlock
        invariant Valid() && endpoints == Rotated(start, failures)
        invariant fromBlock <= chunkStart < UINT64_END
        invariant done == if chunkStart <= toBlock then chunkStart else toBlock + 1
        invariant Fetched(view, maxBlockRange, chunks, fromBlock, done, allLogs)
        decreases toBlock + 1 - chunkStart
      {
        var chunkEnd, next := ChunkBounds(chunkStart, toBlock);
        var ok, logs, after := FetchChunk(view, chunkStart, chunkEnd + 1, answers, start, failures);
        failures := after;
        if !ok {
          return Err("fetching logs"), chunks, failures;
        }
        FetchedExtends(view, maxBlockRange, chunks, fromBlock, chunkStart, allLogs, chunkEnd);
        allLogs := allLogs + logs;
        chunks := chunks + [(chunkStart, chunkEnd)];
        chunkStart := next;
        done := chunkEnd + 1;
      }
      return Ok(allLogs), chunks, failures;
    }
  }

  /** None of the three attempts at a request is answered, after `before` failovers. */
  ghost predicate NoAnswer(answers: (nat, Endpoint, nat) -> bool, req: nat, start: seq<Endpoint>, before: nat)
    requires start != []
  {
    forall a: nat :: a < 3 ==> Unanswered(answers, req, start, before, a)
  }

  predicate Unanswered(answers: (nat, Endpoint, nat) -> bool, req: nat, start: seq<Endpoint>, before: nat, a: nat)
    requires start != []
  {
    !answers(req, Rotated(start, before + a)[0], a)
  }

  predicate Request(req: nat) {
    req < UINT64_END
  }

  /** At most three endpoints, and each request has one that answers it. */
  ghost predicate Reachable(xs: seq<Endpoint>, answers: (nat, Endpoint, nat) -> bool) {
    |xs| <= 3 && forall req: nat :: Request(req) ==> exists e :: AlwaysAnswers(xs, answers, req, e)
  }

  ghost predicate AlwaysAnswers(xs: seq<Endpoint>, answers: (nat, Endpoint, nat) -> bool, req: nat, e: Endpoint) {
    e in xs && forall a: nat :: answers(req, e, a)
  }

  /** Every endpoint comes to the front within one turn of the list. */
  lemma ComesToFront(xs: seq<Endpoint>, e: Endpoint) returns (a: nat)
    requires e in xs
    ensures a < |xs| && Rotated(xs, a)[0] == e
  {
    a :| 0 <= a < |xs| && xs[a] == e;
    RotatedOnDial(xs, a);
    var _ := DialIsRemainder(a, |xs|);
    RemainderUnique(a, |xs|, 0, a);
  }

  lemma {:induction false} RotatedSameElements(xs: seq<Endpoint>, k: nat, e: Endpoint)
    ensures e in Rotated(xs, k) <==> e in xs
  {
    if k > 0 {
      RotatedSameElements(xs, k - 1, e);
    }
  }

  lemma StaysReachable(xs: seq<Endpoint>, answers: (nat, Endpoint, nat) -> bool, k: nat)
    ensures Reachable(xs, answers) ==> Reachable(Rotated(xs, k), answers)
  {
    if Reachable(xs, answers) {
      forall req: nat | Request(req)
        ensures exists e :: AlwaysAnswers(Rotated(xs, k), answers, req, e)
      {
        var e :| AlwaysAnswers(xs, answers, req, e);
        RotatedSameElements(xs, k, e);
        assert AlwaysAnswers(Rotated(xs, k), answers, req, e);
      }
    }
  }

  /** Such a request succeeds within the three attempts, from any rotation. */
  lemma ReachableAnswers(xs: seq<Endpoint>, answers: (nat, Endpoint, nat) -> bool, req: nat) returns (a: nat)
    requires xs != [] && Reachable(xs, answers) && Request(req)
    ensures a < 3 && answers(req, Rotated(xs, a)[0], a)
  {
    var e :| AlwaysAnswers(xs, answers, req, e);
    a := ComesToFront(xs, e);
  }
}
