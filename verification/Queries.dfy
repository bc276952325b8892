/** Queries as conjunctions of conditions over numbered placeholders, and what they
    select. */
module QueryModel {
  import opened Basics
  import opened Messages
  import opened StoreModel
  import opened Ordering

  datatype Value = Text(text: string) | Number(number: int)

  datatype Column = MessageProtocol | MessageStatus | SourceChain | SourceSender | SourceTimestamp | DestChain | DestReceiver | Latency

  datatype Comparison = Equal | AtLeast | AtMost | Above

  /** Placeholders are numbered from 1. */
  datatype Condition =
    | Compare(column: Column, cmp: Comparison, ph: nat)
    | KeyBelow(createdPh: nat, idPh: nat)
    | KeyAbove(createdPh: nat, idPh: nat)
    | Present(column: Column)
    | ColumnAbove(column: Column, bound: int)

  function Num(x: Option<int>): Value {
    Number(if x.Some? then x.value else 0)
  }

  function StatusText(s: Status): string {
    match s
    case Pending => "pending"
    case Executed => "executed"
    case Failed => "failed"
  }

  /** `None` is SQL's NULL: the row has no destination or no metadata. */
  function ColumnOf(r: Row, c: Column): Option<Value> {
    var m := r.rec.core;
    match c
    case MessageProtocol => Some(Text(m.protocol))
    case MessageStatus => Some(Text(StatusText(m.status)))
    case SourceChain => Some(Number(m.source.chainID))
    case SourceSender => Some(Text(m.source.sender))
    case SourceTimestamp => Some(Number(m.source.timestamp))
    case DestChain => if m.dest.Some? then Some(Number(m.dest.value.chainID)) else None
    case DestReceiver => if m.dest.Some? then Some(Text(m.dest.value.receiver)) else None
    case Latency => if m.metadata.Some? then Some(Number(m.metadata.value.latency)) else None
  }

  /** A comparison with NULL, or between types, is not true. */
  predicate Compares(a: Option<Value>, cmp: Comparison, b: Value) {
    match cmp
    case Equal => a == Some(b)
    case AtLeast => a.Some? && a.value.Number? && b.Number? && a.value.number >= b.number
    case AtMost => a.Some? && a.value.Number? && b.Number? && a.value.number <= b.number
    case Above => a.Some? && a.value.Number? && b.Number? && a.value.number > b.number
  }

  function Arg(args: seq<Value>, ph: nat): Option<Value> {
    if 0 < ph <= |args| then Some(args[ph - 1]) else None
  }

  function KeyArg(args: seq<Value>, createdPh: nat, idPh: nat): Option<Key> {
    match (Arg(args, createdPh), Arg(args, idPh))
    case (Some(Number(n)), Some(Text(t))) => Some(Key(n, t))
    case _ => None
  }

  predicate True(c: Condition, args: seq<Value>, r: Row) {
    match c
    case Compare(col, cmp, ph) => Arg(args, ph).Some? && Compares(ColumnOf(r, col), cmp, Arg(args, ph).value)
    case KeyBelow(p, q) => KeyArg(args, p, q).Some? && KeyLess(KeyOf(r), KeyArg(args, p, q).value)
    case KeyAbove(p, q) => KeyArg(args, p, q).Some? && KeyLess(KeyArg(args, p, q).value, KeyOf(r))
    case Present(col) => ColumnOf(r, col).Some?
    case ColumnAbove(col, bound) => Compares(ColumnOf(r, col), Above, Number(bound))
  }

  /** The clause list, the argument list and the next free placeholder. */
  datatype Query = Query(conditions: seq<Condition>, args: seq<Value>, next: nat)

  predicate Meaning(q: Query, r: Row) {
    forall i :: 0 <= i < |q.conditions| ==> True(q.conditions[i], q.args, r)
  }

  predicate ReadsBelow(c: Condition, next: nat) {
    match c
    case Compare(_, _, ph) => 0 < ph < next
    case KeyBelow(p, q) => 0 < p < next && 0 < q < next
    case KeyAbove(p, q) => 0 < p < next && 0 < q < next
    case Present(_) => true
    case ColumnAbove(_, _) => true
  }

  /** The next placeholder is one past the arguments, and no condition reads beyond them. */
  predicate WellNumbered(q: Query) {
    q.next == |q.args| + 1 && forall i :: 0 <= i < |q.conditions| ==> ReadsBelow(q.conditions[i], q.next)
  }

  const EMPTY_QUERY := Query([], [], 1)

  lemma MoreArgsKeep(c: Condition, args: seq<Value>, more: seq<Value>, r: Row)
    requires ReadsBelow(c, |args| + 1)
    ensures True(c, args + more, r) == True(c, args, r)
  {
  }

  /** One more condition, reading only the arguments that come with it. */
  lemma OneMoreCondition(q: Query, c: Condition, more: seq<Value>)
    requires WellNumbered(q) && ReadsBelow(c, q.next + |more|)
    ensures var p := Query(q.conditions + [c], q.args + more, q.next + |more|);
            WellNumbered(p) && forall r :: Meaning(p, r) <==> Meaning(q, r) && True(c, p.args, r)
  {
    var p := Query(q.conditions + [c], q.args + more, q.next + |more|);
    forall r
      ensures Meaning(p, r) <==> Meaning(q, r) && True(c, p.args, r)
    {
      forall i | 0 <= i < |q.conditions|
        ensures True(p.conditions[i], p.args, r) == True(q.conditions[i], q.args, r)
      {
        MoreArgsKeep(q.conditions[i], q.args, more, r);
      }
      assert p.conditions[|q.conditions|] == c;
      assert Meaning(p, r) ==> forall i :: 0 <= i < |q.conditions| ==> True(p.conditions[i], p.args, r);
    }
  }

  /** Adds a comparison with its own placeholder when the filter field is present. */
  function Where(q: Query, present: bool, col: Column, cmp: Comparison, v: Value): (p: Query)
    requires WellNumbered(q)
    ensures WellNumbered(p)
    ensures q.conditions <= p.conditions && q.args <= p.args
    ensures forall r :: Meaning(p, r) <==> Meaning(q, r) && (present ==> Compares(ColumnOf(r, col), cmp, v))
  {
    if present then
      OneMoreCondition(q, Compare(col, cmp, q.next), [v]);
      assert Arg(q.args + [v], q.next) == Some(v);
      Query(q.conditions + [Compare(col, cmp, q.next)], q.args + [v], q.next + 1)
    else q
  }

  /** Adds the keyset condition with its two placeholders when there is a cursor. */
  function Past(q: Query, asc: bool, after: Option<Key>): (p: Query)
    requires WellNumbered(q)
    ensures WellNumbered(p)
    ensures forall r :: Meaning(p, r) <==> Meaning(q, r) && (after.Some? ==> Before(asc, after.value, KeyOf(r)))
  {
    if after.None? then q
    else
      var c := if asc then KeyAbove(q.next, q.next + 1) else KeyBelow(q.next, q.next + 1);
      var more := [Number(after.value.created), Text(after.value.id)];
      OneMoreCondition(q, c, more);
      assert Arg(q.args + more, q.next) == Some(more[0]) && Arg(q.args + more, q.next + 1) == Some(more[1]);
      assert KeyArg(q.args + more, q.next, q.next + 1) == after;
      Query(q.conditions + [c], q.args + more, q.next + 2)
  }

  // ---- Running a query ----

  function Kept(q: Query, table: seq<Row>): (out: seq<Row>)
    ensures forall r :: r in out <==> r in table && Meaning(q, r)
    ensures Keyed(table) ==> Keyed(out)
  {
    if table == [] then []
    else
      var rest := Kept(q, table[1..]);
      assert table == [table[0]] + table[1..];
      assert forall i :: 0 <= i < |rest| ==> rest[i] in table[1..];
      if Meaning(q, table[0]) then [table[0]] + rest else rest
  }

  /** WHERE, ORDER BY both key columns in one direction, LIMIT read from a placeholder. */
  function Execute(q: Query, asc: bool, limitPh: nat, table: seq<Row>): seq<Row> {
    var all := SortRows(asc, Kept(q, table));
    match Arg(q.args, limitPh)
    case Some(Number(n)) => if 0 <= n <= |all| then all[..n] else all
    case _ => []
  }
}

module MessageQuerier {
  import opened Basics
  import opened Messages
  import opened StoreModel
  import opened Ordering
  import opened Pagination
  import opened QueryModel
  import opened Lifecycle
  import opened Steps

  /** A cursor token: absent, one that decodes to a key, or one that does not decode. */
  datatype Token = NoToken | Token(key: Key) | BadToken

  datatype MessageFilter = MessageFilter(
    srcChain: Option<nat>, dstChain: Option<nat>, protocol: string, status: string, sender: string, receiver: string,
    fromTS: Option<int>, toTS: Option<int>, cursor: Token, limit: int, sortOrder: string)

  datatype ListResult = ListResult(messages: seq<Row>, nextCursor: Token)

  function Effective(limit: int): (n: nat)
    ensures 1 <= n <= 100
    ensures 1 <= limit <= 100 ==> n == limit
    ensures limit < 1 || 100 < limit ==> n == 20
  {
    if limit <= 0 || limit > 100 then 20 else limit
  }

  // The fields that lists and address histories share.

  predicate IsStatus(s: Status, text: string) {
    (s == Pending && text == "pending") || (s == Executed && text == "executed") || (s == Failed && text == "failed")
  }

  predicate SelectsRoute(protocol: string, status: string, srcChain: Option<nat>, dstChain: Option<nat>, r: Row) {
    var m := r.rec.core;
    && (protocol != "" ==> m.protocol == protocol)
    && (status != "" ==> IsStatus(m.status, status))
    && (srcChain.Some? ==> m.source.chainID == srcChain.value)
    && (dstChain.Some? ==> m.dest.Some? && m.dest.value.chainID == dstChain.value)
  }

  method AddRoute(start: Query, protocol: string, status: string, srcChain: Option<nat>, dstChain: Option<nat>) returns (q: Query)
    requires WellNumbered(start)
    ensures WellNumbered(q) && start.args <= q.args
    ensures forall r :: Meaning(q, r) <==> Meaning(start, r) && SelectsRoute(protocol, status, srcChain, dstChain, r)
  {
    q := Where(start, protocol != "", MessageProtocol, Equal, Text(protocol));
    q := Where(q, status != "", MessageStatus, Equal, Text(status));
    q := Where(q, srcChain.Some?, SourceChain, Equal, Num(srcChain));
    q := Where(q, dstChain.Some?, DestChain, Equal, Num(dstChain));
  }

  predicate SelectsParties(f: MessageFilter, r: Row) {
    var m := r.rec.core;
    && (f.sender != "" ==> m.source.sender == f.sender)
    && (f.receiver != "" ==> m.dest.Some? && m.dest.value.receiver == f.receiver)
    && (f.fromTS.Some? ==> m.source.timestamp >= f.fromTS.value)
    && (f.toTS.Some? ==> m.source.timestamp <= f.toTS.value)
  }

  method AddParties(start: Query, f: MessageFilter) returns (q: Query)
    requires WellNumbered(start)
    ensures WellNumbered(q)
    ensures forall r :: Meaning(q, r) <==> Meaning(start, r) && SelectsParties(f, r)
  {
    q := Where(start, f.sender != "", SourceSender, Equal, Text(f.sender));
    q := Where(q, f.receiver != "", DestReceiver, Equal, Text(f.receiver));
    q := Where(q, f.fromTS.Some?, SourceTimestamp, AtLeast, Num(f.fromTS));
    q := Where(q, f.toTS.Some?, SourceTimestamp, AtMost, Num(f.toTS));
  }

  /** What the filter asks of a row, field by field. */
  predicate Selects(f: MessageFilter, r: Row) {
    SelectsRoute(f.protocol, f.status, f.srcChain, f.dstChain, r) && SelectsParties(f, r)
  }

  function After(t: Token): Option<Key> {
    if t.Token? then Some(t.key) else None
  }

  /** Building the clauses field by field: every placeholder reads its own argument,
      and the conjunction selects the rows that satisfy the filter beyond the cursor. */
  method BuildList(f: MessageFilter, asc: bool) returns (q: Query)
    ensures WellNumbered(q)
    ensures forall r :: Meaning(q, r) <==> Selects(f, r) && Beyond(asc, After(f.cursor), r)
  {
    q := AddRoute(EMPTY_QUERY, f.protocol, f.status, f.srcChain, f.dstChain);
    q := AddParties(q, f);
    q := Past(q, asc, After(f.cursor));
  }

  /** The rows of one request, truncated to the page, and the cursor of the next. */
  method Paginate(q: Query, asc: bool, limit: nat, table: seq<Row>, ghost sel: Row -> bool, ghost after: Option<Key>)
    returns (page: seq<Row>, next: Option<Key>)
    requires WellNumbered(q) && 0 < limit && Keyed(table)
    requires forall r :: Meaning(q, r) <==> sel(r) && Beyond(asc, after, r)
    ensures IsPage(page, next, table, sel, asc, after, limit)
  {
    var args := q.args + [Number(limit + 1)];
    ghost var all := SortRows(asc, Kept(q, table));
    var full := Query(q.conditions, args, q.next + 1);
    LimitKeepsMeaning(q, args, table);
    var rows := Execute(full, asc, q.next, table);
    SelectionOfKept(q, table, sel, asc, after);
    if |rows| > limit {
      var last := rows[limit - 1];
      page, next := rows[..limit], Some(KeyOf(last));
    } else {
      page, next := rows, None;
    }
    assert PageOf(all, page, next, table, sel, asc, after, limit);
  }

  lemma LimitKeepsMeaning(q: Query, args: seq<Value>, table: seq<Row>)
    requires WellNumbered(q) && q.args <= args
    ensures Kept(Query(q.conditions, args, q.next + 1), table) == Kept(q, table)
  {
    forall r
      ensures Meaning(Query(q.conditions, args, q.next + 1), r) == Meaning(q, r)
    {
      forall i | 0 <= i < |q.conditions|
        ensures True(q.conditions[i], args, r) == True(q.conditions[i], q.args, r)
      {
        MoreArgsKeep(q.conditions[i], q.args, args[|q.args|..], r);
        assert args == q.args + args[|q.args|..];
      }
    }
    SameKept(Query(q.conditions, args, q.next + 1), q, table);
  }

  lemma {:induction false} SameKept(p: Query, q: Query, table: seq<Row>)
    requires forall r :: Meaning(p, r) == Meaning(q, r)
    ensures Kept(p, table) == Kept(q, table)
  {
    if table != [] {
      SameKept(p, q, table[1..]);
    }
  }

  lemma SelectionOfKept(q: Query, table: seq<Row>, sel: Row -> bool, asc: bool, after: Option<Key>)
    requires Keyed(table)
    requires forall r :: Meaning(q, r) <==> sel(r) && Beyond(asc, after, r)
    ensures Selection(SortRows(asc, Kept(q, table)), table, r => sel(r) && Beyond(asc, after, r), asc)
  {
    SortSorts(asc, Kept(q, table));
    forall r
      ensures r in SortRows(asc, Kept(q, table)) <==> r in Kept(q, table)
    {
      SortKeeps(asc, Kept(q, table), r);
    }
  }

  /** A chain id parameter that BIGINT cannot hold fails the query. */
  predicate FitsChain(chain: Option<nat>) {
    chain.Some? ==> chain.value < BIGINT_END
  }

  /** One list request over the joined rows: a token that does not decode and a chain id
      of 2^63 or more are errors, any other request answers with one page of the plain
      filter-and-sort. */
  method List(f: MessageFilter, table: seq<Row>) returns (r: Result<ListResult>)
    requires Keyed(table)
    ensures r.Err? <==> f.cursor.BadToken? || !FitsChain(f.srcChain) || !FitsChain(f.dstChain)
    ensures r.Ok? ==> !r.value.nextCursor.BadToken? && |r.value.messages| <= (if 1 <= f.limit <= 100 then f.limit else 20)
    ensures r.Ok? ==> InOrder(f.sortOrder == "asc", r.value.messages)
    ensures r.Ok? ==>
      IsPage(r.value.messages, After(r.value.nextCursor), table, (x: Row) => Selects(f, x), f.sortOrder == "asc",
             After(f.cursor), Effective(f.limit))
  {
    var asc := f.sortOrder == "asc";
    if f.cursor.BadToken? {
      return Err("invalid cursor");
    }
    var q := BuildList(f, asc);
    if !FitsChain(f.srcChain) || !FitsChain(f.dstChain) {
      return Err("listing messages");
    }
    var page, next := Paginate(q, asc, Effective(f.limit), table, (x: Row) => Selects(f, x), After(f.cursor));
    PageInOrder(page, next, table, (x: Row) => Selects(f, x), asc, After(f.cursor), Effective(f.limit));
    return Ok(ListResult(page, if next.Some? then Token.Token(next.value) else NoToken));
  }

  // ---- Address history ----

  datatype AddressFilter = AddressFilter(
    protocol: string, srcChain: Option<nat>, dstChain: Option<nat>, status: string, cursor: Token, limit: int, sortOrder: string)

  function Lower(s: string): string {
    if s == "" then "" else [LowerChar(s[0])] + Lower(s[1..])
  }

  function LowerChar(c: char): char {
    if 'A' <= c <= 'Z' then c - 'A' + 'a' else c
  }

  /** "asc" in any mixture of cases. */
  predicate IsAscending(order: string) {
    |order| == 3 && order[0] in "aA" && order[1] in "sS" && order[2] in "cC"
  }

  lemma {:induction false} LowerAt(s: string, i: nat)
    requires i < |s|
    ensures |Lower(s)| == |s| && Lower(s)[i] == LowerChar(s[i])
  {
    if i > 0 {
      LowerAt(s[1..], i - 1);
    } else if |s| > 1 {
      LowerAt(s[1..], 0);
    }
  }

  lemma LowerExactly(order: string)
    ensures Lower(order) == "asc" <==> IsAscending(order)
  {
    if order != "" {
      LowerAt(order, 0);
    }
    if |order| == 3 {
      LowerAt(order, 1);
      LowerAt(order, 2);
      var l := Lower(order);
      assert l == "asc" <==> l[0] == 'a' && l[1] == 's' && l[2] == 'c';
    }
  }

  predicate Involves(address: string, r: Row) {
    r.rec.core.source.sender == address || (r.rec.core.dest.Some? && r.rec.core.dest.value.receiver == address)
  }

  predicate SelectsAddress(address: string, f: AddressFilter, r: Row) {
    Involves(address, r) && SelectsRoute(f.protocol, f.status, f.srcChain, f.dstChain, r)
  }

  /** The union of sender and receiver matches on the first argument, each row once. */
  function MatchingIds(args: seq<Value>, table: seq<Row>): (out: seq<Row>)
    requires args != [] && args[0].Text?
    ensures forall r :: r in out <==>
      r in table && (r.rec.core.source.sender == args[0].text || (r.rec.core.dest.Some? && r.rec.core.dest.value.receiver == args[0].text))
    ensures Keyed(table) ==> Keyed(out)
  {
    if table == [] then []
    else
      var rest := MatchingIds(args, table[1..]);
      assert table == [table[0]] + table[1..];
      assert forall i :: 0 <= i < |rest| ==> rest[i] in table[1..];
      if ColumnOf(table[0], SourceSender) == Arg(args, 1) || ColumnOf(table[0], DestReceiver) == Arg(args, 1)
      then [table[0]] + rest else rest
  }

  /** One page of everything an address sent or received. */
  method GetAddressHistory(address: string, f: AddressFilter, table: seq<Row>) returns (r: Result<ListResult>)
    requires Keyed(table)
    ensures r.Err? <==> address == "" || f.cursor.BadToken? || !FitsChain(f.srcChain) || !FitsChain(f.dstChain)
    ensures r.Ok? ==> !r.value.nextCursor.BadToken? && |r.value.messages| <= (if 1 <= f.limit <= 100 then f.limit else 20)
    ensures r.Ok? ==> InOrder(IsAscending(f.sortOrder), r.value.messages)
    ensures r.Ok? ==>
      IsPage(r.value.messages, After(r.value.nextCursor), table, (x: Row) => SelectsAddress(address, f, x),
             Lower(f.sortOrder) == "asc", After(f.cursor), Effective(f.limit))
  {
    if address == "" {
      return Err("address is required");
    }
    var asc := Lower(f.sortOrder) == "asc";
    if f.cursor.BadToken? {
      return Err("invalid cursor");
    }
    var q := Query([], [Text(address)], 2);
    q := AddRoute(q, f.protocol, f.status, f.srcChain, f.dstChain);
    ghost var filtered := q;
    assert q.args[0] == Text(address);
    var matching := MatchingIds(q.args, table);
    q := Past(q, asc, After(f.cursor));
    if !FitsChain(f.srcChain) || !FitsChain(f.dstChain) {
      return Err("querying address history");
    }
    ghost var inner := (x: Row) => Meaning(filtered, x);
    var page, next := Paginate(q, asc, Effective(f.limit), matching, inner, After(f.cursor));
    PageInOrder(page, next, matching, inner, asc, After(f.cursor), Effective(f.limit));
    LowerExactly(f.sortOrder);
    PageOfSubset(page, next, matching, table, inner, (x: Row) => SelectsAddress(address, f, x), asc, After(f.cursor), Effective(f.limit));
    return Ok(ListResult(page, if next.Some? then Token.Token(next.value) else NoToken));
  }

  lemma PageOfSubset(page: seq<Row>, next: Option<Key>, part: seq<Row>, table: seq<Row>, inner: Row -> bool, sel: Row -> bool,
                     asc: bool, after: Option<Key>, limit: nat)
    requires limit > 0 && IsPage(page, next, part, inner, asc, after, limit)
    requires forall r :: r in part && inner(r) <==> r in table && sel(r)
    ensures IsPage(page, next, table, sel, asc, after, limit)
  {
    var all :| PageOf(all, page, next, part, inner, asc, after, limit);
    assert PageOf(all, page, next, table, sel, asc, after, limit);
  }

  // ---- Filters on columns that never change ----

  predicate Immutable(f: MessageFilter) {
    f.status == "" && f.dstChain.None? && f.receiver == ""
  }

  /** Rows of the message store, present in one table and grown into the next. */
  ghost predicate RowsEvolve(t: seq<Row>, u: seq<Row>) {
    forall r :: r in t ==> exists q :: q in u && EvolvesTo(r, q)
  }

  predicate EvolvesTo(r: Row, q: Row) {
    q.id == r.id && Evolves(r.rec, q.rec)
  }

  /** Filters on the protocol, source chain, sender and source time keep selecting the
      same messages while these are being settled and others arrive, so walks under
      them neither repeat nor skip. */
  lemma ImmutableFiltersGrow(f: MessageFilter, sel: Row -> bool, t: seq<Row>, u: seq<Row>)
    requires Immutable(f) && RowsEvolve(t, u) && forall x :: sel(x) == Selects(f, x)
    ensures Grows(t, u, sel)
  {
    forall r | r in t
      ensures StillIn(r, u, sel)
    {
      var q :| q in u && EvolvesTo(r, q);
      assert KeyOf(q) == KeyOf(r) && sel(q) == sel(r);
    }
  }

  /** The table of joined rows of a store, in any order. */
  ghost predicate Lists(table: seq<Row>, s: Store) {
    Keyed(table) && forall r :: r in table <==> r.id in s && s[r.id] == r.rec
  }

  /** While the store is being filled its table evolves. */
  lemma RunEvolves(trace: seq<Store>, ops: seq<Op>, clocks: seq<Clocks>, i: nat, j: nat, t: seq<Row>, u: seq<Row>)
    requires Run(trace, ops, clocks) && Sound(ops) && trace[0] == map[] && i <= j <= |ops|
    requires Lists(t, trace[i]) && Lists(u, trace[j])
    ensures RowsEvolve(t, u)
  {
    LifecycleOfRun(trace, ops, clocks, i, j);
    forall r | r in t
      ensures exists q :: q in u && EvolvesTo(r, q)
    {
      assert EvolvesTo(r, Row(r.id, trace[j][r.id]));
    }
  }

  /** A client that lists page by page under such a filter while events are indexed
      between its requests: every message that was selected when it began is on exactly
      one of its pages. */
  lemma WalkDuringIndexing(trace: seq<Store>, ops: seq<Op>, clocks: seq<Clocks>, at: seq<nat>, f: MessageFilter, sel: Row -> bool,
                           tables: seq<seq<Row>>, pages: seq<seq<Row>>, cursors: seq<Option<Key>>, limit: nat, r: Row)
    requires Run(trace, ops, clocks) && Sound(ops) && trace[0] == map[]
    requires |at| == |tables| && forall k :: 0 <= k < |at| ==> at[k] <= |ops| && Lists(tables[k], trace[at[k]])
    requires forall k :: 0 <= k < |at| - 1 ==> at[k] <= at[k + 1]
    requires Immutable(f) && (forall x :: sel(x) == Selects(f, x))
    requires Walk(tables, pages, cursors, sel, f.sortOrder == "asc", limit)
    requires r.id in trace[at[0]] && r.rec == trace[at[0]][r.id] && Selects(f, r)
    ensures exists i, q :: 0 <= i < |pages| && q in pages[i] && KeyOf(q) == KeyOf(r)
    ensures forall i, j, p, q | 0 <= i < |pages| && 0 <= j < |pages| && p in pages[i] && q in pages[j] &&
                                KeyOf(p) == KeyOf(r) == KeyOf(q) :: i == j
  {
    forall k | 0 <= k < |tables| - 1
      ensures Grows(tables[k], tables[k + 1], sel)
    {
      assert at[k] <= at[k + 1];
      RunEvolves(trace, ops, clocks, at[k], at[k + 1], tables[k], tables[k + 1]);
      ImmutableFiltersGrow(f, sel, tables[k], tables[k + 1]);
    }
    assert r in tables[0];
    GrowingWalk(tables, pages, cursors, sel, f.sortOrder == "asc", limit, r);
  }
}

module StatsQueries {
  import opened Basics
  import opened Messages
  import opened StoreModel
  import opened Ordering
  import opened QueryModel

  datatype StatsFilter = StatsFilter(fromTS: Option<int>, toTS: Option<int>, protocol: string, limit: int)

  predicate InWindow(f: StatsFilter, r: Row) {
    (f.fromTS.Some? ==> r.rec.core.source.timestamp >= f.fromTS.value) &&
    (f.toTS.Some? ==> r.rec.core.source.timestamp <= f.toTS.value)
  }

  /** The two queries of the protocol statistics share clauses and arguments; the
      latency query puts its status clause in between but its argument at the end. */
  method BuildProtocolStats(protocol: string, f: StatsFilter) returns (counts: Query, latency: Query)
    ensures WellNumbered(counts) && WellNumbered(latency)
    ensures forall r :: Meaning(counts, r) <==> r.rec.core.protocol == protocol && InWindow(f, r)
    ensures forall r :: Meaning(latency, r) <==>
      r.rec.core.protocol == protocol && r.rec.core.status.Executed? &&
      r.rec.core.metadata.Some? && r.rec.core.metadata.value.latency > 0 && InWindow(f, r)
  {
    var base := Where(EMPTY_QUERY, true, MessageProtocol, Equal, Text(protocol));
    counts := Where(base, f.fromTS.Some?, SourceTimestamp, AtLeast, Num(f.fromTS));
    counts := Where(counts, f.toTS.Some?, SourceTimestamp, AtMost, Num(f.toTS));
    var latencyArgs := counts.args + [Text(StatusText(Executed))];
    var statusPh := |latencyArgs|;
    var window := counts.conditions[1..];
    latency := Query([counts.conditions[0], Compare(MessageStatus, Equal, statusPh), ColumnAbove(Latency, 0)] + window,
                     latencyArgs, statusPh + 1);
    LatencyMeaning(counts, latency);
  }

  lemma LatencyMeaning(counts: Query, latency: Query)
    requires WellNumbered(counts) && counts.conditions != []
    requires latency.args == counts.args + [Text("executed")] && latency.next == counts.next + 1
    requires latency.conditions ==
             [counts.conditions[0], Compare(MessageStatus, Equal, counts.next), ColumnAbove(Latency, 0)] + counts.conditions[1..]
    ensures WellNumbered(latency)
    ensures forall r :: Meaning(latency, r) <==>
      Meaning(counts, r) && r.rec.core.status.Executed? && r.rec.core.metadata.Some? && r.rec.core.metadata.value.latency > 0
  {
    assert forall i :: 3 <= i < |latency.conditions| ==> latency.conditions[i] == counts.conditions[i - 2];
    forall r
      ensures Meaning(latency, r) <==>
        Meaning(counts, r) && r.rec.core.status.Executed? && r.rec.core.metadata.Some? && r.rec.core.metadata.value.latency > 0
    {
      LatencyMeaningAt(counts, latency, r);
    }
  }

  lemma LatencyMeaningAt(counts: Query, latency: Query, r: Row)
    requires WellNumbered(counts) && counts.conditions != []
    requires latency.args == counts.args + [Text("executed")]
    requires latency.conditions ==
             [counts.conditions[0], Compare(MessageStatus, Equal, counts.next), ColumnAbove(Latency, 0)] + counts.conditions[1..]
    ensures Meaning(latency, r) <==>
      Meaning(counts, r) && r.rec.core.status.Executed? && r.rec.core.metadata.Some? && r.rec.core.metadata.value.latency > 0
  {
    forall i | 0 <= i < |counts.conditions|
      ensures True(counts.conditions[i], latency.args, r) == True(counts.conditions[i], counts.args, r)
    {
      MoreArgsKeep(counts.conditions[i], counts.args, [Text("executed")], r);
    }
    var n := |latency.conditions|;
    assert n == |counts.conditions| + 2;
    assert forall i :: 3 <= i < n ==> latency.conditions[i] == counts.conditions[i - 2];
    assert forall j :: 1 <= j < |counts.conditions| ==> counts.conditions[j] == latency.conditions[j + 2];
    assert True(latency.conditions[1], latency.args, r) <==> r.rec.core.status.Executed? by {
      assert Arg(latency.args, counts.next) == Some(Text("executed"));
      assert StatusText(r.rec.core.status) == "executed" <==> r.rec.core.status.Executed?;
    }
    assert True(latency.conditions[2], latency.args, r) <==>
           r.rec.core.metadata.Some? && r.rec.core.metadata.value.latency > 0;
    assert latency.conditions[0] == counts.conditions[0];
  }

  /** The routes query: correlated messages within the filter; the limit's placeholder
      is the next one after the filter's arguments. */
  method BuildRoutesStats(f: StatsFilter) returns (q: Query, limitPh: nat)
    ensures WellNumbered(q) && limitPh == |q.args|
    ensures Arg(q.args, limitPh) == Some(Number(if f.limit <= 0 || f.limit > 100 then 20 else f.limit))
    ensures forall r :: Meaning(q, r) <==>
      (f.protocol != "" ==> r.rec.core.protocol == f.protocol) && InWindow(f, r) && r.rec.core.dest.Some?
  {
    q := Where(EMPTY_QUERY, f.protocol != "", MessageProtocol, Equal, Text(f.protocol));
    q := Where(q, f.fromTS.Some?, SourceTimestamp, AtLeast, Num(f.fromTS));
    q := Where(q, f.toTS.Some?, SourceTimestamp, AtMost, Num(f.toTS));
    var limit := if f.limit <= 0 || f.limit > 100 then 20 else f.limit;
    limitPh := q.next;
    OneMoreCondition(q, Present(DestChain), [Number(limit)]);
    q := Query(q.conditions + [Present(DestChain)], q.args + [Number(limit)], q.next + 1);
  }
}
