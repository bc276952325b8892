/** The time-to-live cache in front of the statistics queries. */
module StatsCache {
  import opened Basics
  import opened Messages
  import opened StoreModel
  import opened StatsQueries
  import opened Ordering

  datatype Entry<V> = Entry(value: V, expiresAt: int)

  /** What has been done to the cache, oldest first. */
  datatype Event<V> = Stored(key: string, value: V, at: int) | Evicted(at: int)

  function Apply<V>(entries: map<string, Entry<V>>, e: Event<V>, ttl: int): map<string, Entry<V>> {
    match e
    case Stored(k, v, at) => entries[k := Entry(v, at + ttl)]
    case Evicted(at) => map k | k in entries && !(at > entries[k].expiresAt) :: entries[k]
  }

  function Entries<V>(events: seq<Event<V>>, ttl: int): map<string, Entry<V>> {
    if events == [] then map[] else Apply(Entries(events[..|events| - 1], ttl), events[|events| - 1], ttl)
  }

  function Lookup<V>(entries: map<string, Entry<V>>, key: string, now: int): Option<V> {
    if key in entries && now < entries[key].expiresAt then Some(entries[key].value) else None
  }

  class Cache<V> {
    var entries: map<string, Entry<V>>
    const ttl: int
    ghost var events: seq<Event<V>>

    ghost predicate Valid()
      reads this
    {
      entries == Entries(events, ttl)
    }

    constructor (ttl: int)
      ensures Valid() && this.ttl == ttl && events == []
    {
      this.ttl := ttl;
      entries, events := map[], [];
    }

    method Get(key: string, now: int) returns (r: Option<V>)
      requires Valid()
      ensures r == Lookup(Entries(events, ttl), key, now)
    {
      if key !in entries || !(now < entries[key].expiresAt) {
        return None;
      }
      return Some(entries[key].value);
    }

    method Set(key: string, value: V, now: int)
      requires Valid()
      modifies this
      ensures Valid() && events == old(events) + [Stored(key, value, now)]
      ensures entries == old(entries)[key := Entry(value, now + ttl)]
    {
      entries := entries[key := Entry(value, now + ttl)];
      events := events + [Stored(key, value, now)];
      assert events[..|events| - 1] == old(events);
    }

    method Evict(now: int)
      requires Valid()
      modifies this
      ensures Valid() && events == old(events) + [Evicted(now)]
      ensures forall k :: k in entries ==> now <= entries[k].expiresAt
      ensures forall k :: k in entries <==> k in old(entries) && now <= old(entries)[k].expiresAt
      ensures forall k :: k in entries ==> entries[k] == old(entries)[k]
    {
      var keys := entries.Keys;
      var kept := entries;
      while keys != {}
        invariant keys <= entries.Keys && kept.Keys <= entries.Keys
        invariant forall k :: k in entries ==> (k in kept <==> k in keys || !(now > entries[k].expiresAt))
        invariant forall k :: k in kept ==> kept[k] == entries[k]
        decreases |keys|
      {
        var k :| k in keys;
        if now > entries[k].expiresAt {
          kept := kept - {k};
        }
        keys := keys - {k};
      }
      assert kept == Apply(entries, Evicted(now), ttl);
      entries := kept;
      events := events + [Evicted(now)];
      assert events[..|events| - 1] == old(events);
    }
  }

  // ---- The cache without eviction ----

  /** The last value stored under a key, and when. */
  function Latest<V>(events: seq<Event<V>>, key: string): Option<(V, int)> {
    if events == [] then None
    else
      var e := events[|events| - 1];
      if e.Stored? && e.key == key then Some((e.value, e.at)) else Latest(events[..|events| - 1], key)
  }

  /** No event is later than a following one, nor than `now`. */
  ghost predicate Monotone<V>(events: seq<Event<V>>, now: int) {
    (forall i, j :: 0 <= i < j < |events| ==> events[i].at <= events[j].at) &&
    (forall i :: 0 <= i < |events| ==> events[i].at <= now)
  }

  /** Whatever was stored and evicted before, a lookup answers as a cache that keeps
      everything would: the last value stored under the key, if less than one TTL old.
      Eviction is never seen. */
  lemma {:induction false} LookupIsLatest<V>(events: seq<Event<V>>, ttl: int, key: string, now: int)
    requires Monotone(events, now)
    ensures Lookup(Entries(events, ttl), key, now) ==
            match Latest(events, key)
            case None => None
            case Some((v, at)) => if now < at + ttl then Some(v) else None
    ensures key in Entries(events, ttl) ==> Latest(events, key).Some?
    ensures key in Entries(events, ttl) ==>
              Entries(events, ttl)[key] == Entry(Latest(events, key).value.0, Latest(events, key).value.1 + ttl)
  {
    if events != [] {
      var init, e := events[..|events| - 1], events[|events| - 1];
      assert forall i :: 0 <= i < |init| ==> init[i] == events[i];
      LookupIsLatest(init, ttl, key, now);
    }
  }

  // ---- Keys ----

  /** What a cached answer is for. */
  datatype Request = Request(prefix: string, protocol: string, filter: StatsFilter)

  function Zeroed(t: Option<int>): int {
    if t.Some? then t.value else 0
  }

  function KeyParts(r: Request): (parts: seq<string>)
    ensures |parts| == 6
  {
    [r.prefix, r.protocol, r.filter.protocol, PrintInt(Zeroed(r.filter.fromTS)), PrintInt(Zeroed(r.filter.toTS)),
     PrintInt(r.filter.limit)]
  }

  function CacheKey(r: Request): string {
    Join(KeyParts(r), ':')
  }

  predicate ColonFree(r: Request) {
    Without(r.prefix, ':') && Without(r.protocol, ':') && Without(r.filter.protocol, ':')
  }

  lemma IntWithoutColon(i: int)
    ensures Without(PrintInt(i), ':')
  {
    assert forall k :: 0 <= k < |PrintInt(i)| ==> PrintInt(i)[k] == '-' || IsDigit(PrintInt(i)[k]);
  }

  /** Colon-free requests share a key exactly when they agree on everything, except
      that an absent timestamp and timestamp 0 look alike. */
  lemma SameKeyExactly(a: Request, b: Request)
    requires ColonFree(a) && ColonFree(b)
    ensures CacheKey(a) == CacheKey(b) <==>
              && a.prefix == b.prefix && a.protocol == b.protocol && a.filter.protocol == b.filter.protocol
              && Zeroed(a.filter.fromTS) == Zeroed(b.filter.fromTS) && Zeroed(a.filter.toTS) == Zeroed(b.filter.toTS)
              && a.filter.limit == b.filter.limit
  {
    if CacheKey(a) == CacheKey(b) {
      PartsWithoutColon(a);
      PartsWithoutColon(b);
      JoinInjective(KeyParts(a), KeyParts(b), ':');
      SamePartsSameFields(a, b);
    }
  }

  lemma PartsWithoutColon(r: Request)
    requires ColonFree(r)
    ensures forall i :: 0 <= i < 6 ==> Without(KeyParts(r)[i], ':')
  {
    IntWithoutColon(Zeroed(r.filter.fromTS));
    IntWithoutColon(Zeroed(r.filter.toTS));
    IntWithoutColon(r.filter.limit);
  }

  lemma SamePartsSameFields(a: Request, b: Request)
    requires KeyParts(a) == KeyParts(b)
    ensures a.prefix == b.prefix && a.protocol == b.protocol && a.filter.protocol == b.filter.protocol
    ensures Zeroed(a.filter.fromTS) == Zeroed(b.filter.fromTS) && Zeroed(a.filter.toTS) == Zeroed(b.filter.toTS)
    ensures a.filter.limit == b.filter.limit
  {
    assert forall i :: 0 <= i < 6 ==> KeyParts(a)[i] == KeyParts(b)[i];
    assert KeyParts(a)[3] == KeyParts(b)[3] && KeyParts(a)[4] == KeyParts(b)[4] && KeyParts(a)[5] == KeyParts(b)[5];
    PrintIntInjective(Zeroed(a.filter.fromTS), Zeroed(b.filter.fromTS));
    PrintIntInjective(Zeroed(a.filter.toTS), Zeroed(b.filter.toTS));
    PrintIntInjective(a.filter.limit, b.filter.limit);
  }

  /** No timestamp is given as 0. */
  predicate Plain(r: Request) {
    ColonFree(r) && r.filter.fromTS != Some(0) && r.filter.toTS != Some(0)
  }

  lemma PlainKeysDistinct(a: Request, b: Request)
    requires Plain(a) && Plain(b) && CacheKey(a) == CacheKey(b)
    ensures a == b
  {
    SameKeyExactly(a, b);
  }

  /** A row whose source block carries this timestamp; block timestamps are never negative. */
  function RowAt(timestamp: nat): Row {
    Row("", Rec(Core("", PlainMessage, Pending, Source(0, "", 0, timestamp, "", 0), None, None, None), 0, 0))
  }

  predicate SameSelection(a: StatsFilter, b: StatsFilter, r: Row) {
    r.rec.core.source.timestamp >= 0 ==> (InWindow(a, r) <==> InWindow(b, r))
  }

  /** Two requests with one key select the same rows if and only if they agree on the
      end of the window: a start at 0 is no start, but an end at 0 leaves out every row
      with a block timestamp, which no end does not. */
  lemma CollisionExactly(a: Request, b: Request)
    requires ColonFree(a) && ColonFree(b) && CacheKey(a) == CacheKey(b)
    ensures (forall r :: SameSelection(a.filter, b.filter, r)) <==> a.filter.toTS == b.filter.toTS
  {
    SameKeyExactly(a, b);
    if a.filter.toTS != b.filter.toTS {
      var start := Zeroed(a.filter.fromTS);
      var r := RowAt(if start > 0 then start else 1);
      assert InWindow(a.filter, r) != InWindow(b.filter, r);
      assert !SameSelection(a.filter, b.filter, r);
    }
  }

  /** The collision at work: asking for everything up to time 0 is answered from the
      cache with what was counted without an end. */
  lemma ZeroTimestampCollides<V>(r: Request, all: V, at: int, now: int, ttl: int, row: Row)
    requires r.filter.toTS == Some(0) && row.rec.core.source.timestamp > 0 && at <= now < at + ttl
    requires InWindow(r.filter.(toTS := None), row)
    ensures var open_ := r.(filter := r.filter.(toTS := None));
            && Lookup(Entries([Stored(CacheKey(open_), all, at)], ttl), CacheKey(r), now) == Some(all)
            && InWindow(open_.filter, row) && !InWindow(r.filter, row)
  {
    var open_ := r.(filter := r.filter.(toTS := None));
    assert KeyParts(r) == KeyParts(open_);
    var e := Stored(CacheKey(open_), all, at);
    assert [e][..0] == [];
    assert Entries([e], ttl) == Apply(map[], e, ttl);
  }

  // ---- Requests ----

  datatype Answered<V> = Answered(request: Request, value: V, at: int) | Swept(at: int)

  function EventsOf<V>(history: seq<Answered<V>>): (events: seq<Event<V>>)
    ensures |events| == |history|
  {
    seq(|history|, i requires 0 <= i < |history| =>
      match history[i]
      case Answered(r, v, at) => Stored(CacheKey(r), v, at)
      case Swept(at) => Evicted(at))
  }

  ghost predicate AllPlain<V>(history: seq<Answered<V>>) {
    forall i :: 0 <= i < |history| && history[i].Answered? ==> Plain(history[i].request)
  }

  /** The latest answer recorded for a request itself, not for its key. */
  function LatestAnswer<V>(history: seq<Answered<V>>, r: Request): Option<(V, int)> {
    if history == [] then None
    else
      var h := history[|history| - 1];
      if h.Answered? && h.request == r then Some((h.value, h.at)) else LatestAnswer(history[..|history| - 1], r)
  }

  lemma {:induction false} LatestByKey<V>(history: seq<Answered<V>>, r: Request)
    requires AllPlain(history) && Plain(r)
    ensures Latest(EventsOf(history), CacheKey(r)) == LatestAnswer(history, r)
  {
    if history != [] {
      var init, h := history[..|history| - 1], history[|history| - 1];
      LatestByKey(init, r);
      assert EventsOf(history)[..|history| - 1] == EventsOf(init);
      if h.Answered? && CacheKey(h.request) == CacheKey(r) {
        PlainKeysDistinct(h.request, r);
      }
    }
  }

  /** For any sequence of plain requests under a monotone clock, a request hits exactly
      when the very same request was answered less than one TTL ago, and the hit is its
      latest answer. */
  lemma HitIsOwnAnswer<V>(history: seq<Answered<V>>, ttl: int, r: Request, now: int)
    requires AllPlain(history) && Plain(r) && Monotone(EventsOf(history), now)
    ensures Lookup(Entries(EventsOf(history), ttl), CacheKey(r), now) ==
            match LatestAnswer(history, r)
            case None => None
            case Some((v, at)) => if now < at + ttl then Some(v) else None
  {
    LookupIsLatest(EventsOf(history), ttl, CacheKey(r), now);
    LatestByKey(history, r);
  }
}
