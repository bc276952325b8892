/** The archival cycle: every completed month of every configured pair becomes one
    file, one table entry and one line of the manifest. */
module ArchiveModel {
  import opened Basics
  import opened Ordering
  import opened Calendar

  /** What one file is for. */
  datatype FileKey = FileKey(protocol: string, chainID: nat, month: Month)

  datatype ArchivalRecord = ArchivalRecord(rowCount: nat, minTimestamp: int, maxTimestamp: int, objectKey: string)

  type Table = map<FileKey, ArchivalRecord>

  function Time(r: Row): int {
    r.rec.core.source.timestamp
  }

  /** The half-open window of a month, for one protocol and source chain. */
  predicate InFile(r: Row, k: FileKey)
    requires IsMonth(k.month)
  {
    r.rec.core.protocol == k.protocol && r.rec.core.source.chainID == k.chainID &&
    Unix(k.month) <= Time(r) < UnixEnd(k.month)
  }

  function RowsOf(db: seq<Row>, k: FileKey): seq<Row>
    requires IsMonth(k.month)
  {
    if db == [] then []
    else if InFile(db[0], k) then [db[0]] + RowsOf(db[1..], k) else RowsOf(db[1..], k)
  }

  lemma {:induction false} InRowsOf(db: seq<Row>, k: FileKey, r: Row)
    requires IsMonth(k.month)
    ensures r in RowsOf(db, k) <==> r in db && InFile(r, k)
  {
    if db != [] {
      InRowsOf(db[1..], k, r);
      assert db == [db[0]] + db[1..];
    }
  }

  /** A chain without a configured name is named by its number. */
  function ChainName(names: map<nat, string>, chainID: nat): (name: string)
    ensures name != ""
    ensures chainID in names && names[chainID] != "" ==> name == names[chainID]
    ensures chainID !in names ==> |name| > 6 && name[..6] == "chain_" && AllDigits(name[6..]) && DigitsValue(name[6..]) == chainID
  {
    PrintedValue(chainID);
    assert ("chain_" + PrintNat(chainID))[6..] == PrintNat(chainID);
    if chainID in names && names[chainID] != "" then names[chainID] else "chain_" + PrintNat(chainID)
  }

  function ObjectKey(names: map<nat, string>, k: FileKey): string
    requires IsMonth(k.month)
  {
    Join(["protocols", k.protocol, ChainName(names, k.chainID), YearMonth(k.month) + ".parquet"], '/')
  }

  lemma ObjectKeyText(names: map<nat, string>, k: FileKey)
    requires IsMonth(k.month)
    ensures ObjectKey(names, k) == "protocols/" + k.protocol + "/" + ChainName(names, k.chainID) + "/" + YearMonth(k.month) + ".parquet"
  {
    var chain, file := ChainName(names, k.chainID), YearMonth(k.month) + ".parquet";
    var parts := ["protocols", k.protocol, chain, file];
    assert parts[1..] == [k.protocol, chain, file] && parts[1..][1..] == [chain, file] && parts[1..][1..][1..] == [file];
    assert Join([chain, file], '/') == chain + "/" + file;
    assert Join([k.protocol, chain, file], '/') == k.protocol + "/" + (chain + "/" + file);
    assert Join(parts, '/') == "protocols" + "/" + (k.protocol + "/" + (chain + "/" + file));
    assert "protocols" + "/" == "protocols/";
  }

  /** Protocol and chain names hold no slash, and no two chains share a name. */
  ghost predicate CleanNames(names: map<nat, string>, protocols: seq<string>, chainIDs: seq<nat>) {
    && (forall p :: p in protocols ==> Without(p, '/'))
    && (forall c :: c in chainIDs ==> Without(ChainName(names, c), '/'))
    && (forall c, d :: c in chainIDs && d in chainIDs && ChainName(names, c) == ChainName(names, d) ==> c == d)
  }

  lemma FileNameWithoutSlash(m: Month)
    requires IsMonth(m)
    ensures Without(YearMonth(m) + ".parquet", '/')
  {
    DigitsWithout(PrintNat(m.year), '/');
    assert !IsDigit('/') && Without(TwoDigits(m.month), '/') && Without(".parquet", '/');
  }

  lemma SameEnding(a: string, b: string, end: string)
    requires a + end == b + end
    ensures a == b
  {
    assert (a + end)[..|a + end| - |end|] == a && (b + end)[..|b + end| - |end|] == b;
  }

  /** Different files have different object keys. */
  lemma ObjectKeyInjective(names: map<nat, string>, protocols: seq<string>, chainIDs: seq<nat>, a: FileKey, b: FileKey)
    requires CleanNames(names, protocols, chainIDs) && IsMonth(a.month) && IsMonth(b.month)
    requires a.protocol in protocols && b.protocol in protocols && a.chainID in chainIDs && b.chainID in chainIDs
    requires ObjectKey(names, a) == ObjectKey(names, b)
    ensures a == b
  {
    FileNameWithoutSlash(a.month);
    FileNameWithoutSlash(b.month);
    assert Without("protocols", '/');
    var ps := ["protocols", a.protocol, ChainName(names, a.chainID), YearMonth(a.month) + ".parquet"];
    var qs := ["protocols", b.protocol, ChainName(names, b.chainID), YearMonth(b.month) + ".parquet"];
    JoinInjective(ps, qs, '/');
    assert ps[1] == qs[1] && ps[2] == qs[2] && ps[3] == qs[3];
    SameEnding(YearMonth(a.month), YearMonth(b.month), ".parquet");
    YearMonthInjective(a.month, b.month);
  }

  // ---- What a cycle is to achieve ----

  /** The files of a cycle that runs in month `current`. */
  predicate Due(k: FileKey, protocols: seq<string>, chainIDs: seq<nat>, current: Month) {
    k.protocol in protocols && k.chainID in chainIDs && Scanned(k.month, current)
  }

  /** The rows that a cycle is to archive. */
  predicate Eligible(r: Row, protocols: seq<string>, chainIDs: seq<nat>, current: Month)
    requires IsMonth(current)
  {
    r.rec.core.protocol in protocols && r.rec.core.source.chainID in chainIDs &&
    Unix(SCAN_START) <= Time(r) < Unix(current)
  }

  /** The entry of a file: its size and the tight bounds of its times. */
  ghost predicate Describes(rec: ArchivalRecord, rows: seq<Row>, objectKey: string) {
    && rec.rowCount == |rows| && rec.objectKey == objectKey
    && (exists r :: r in rows && Time(r) == rec.minTimestamp)
    && (exists r :: r in rows && Time(r) == rec.maxTimestamp)
    && (forall r :: r in rows ==> rec.minTimestamp <= Time(r) <= rec.maxTimestamp)
  }

  /** The text under which a file is uploaded. */
  type Naming = FileKey -> string

  function ObjectNames(names: map<nat, string>): Naming {
    (k: FileKey) => if IsMonth(k.month) then ObjectKey(names, k) else ""
  }

  ghost predicate DistinctNames(name: Naming, protocols: seq<string>, chainIDs: seq<nat>) {
    forall a: FileKey, b: FileKey | Configured(a, protocols, chainIDs) && Configured(b, protocols, chainIDs) && name(a) == name(b) :: a == b
  }

  predicate Configured(k: FileKey, protocols: seq<string>, chainIDs: seq<nat>) {
    IsMonth(k.month) && k.protocol in protocols && k.chainID in chainIDs
  }

  /** Object keys tell files apart. */
  lemma CleanNamesAreDistinct(names: map<nat, string>, protocols: seq<string>, chainIDs: seq<nat>)
    requires CleanNames(names, protocols, chainIDs)
    ensures DistinctNames(ObjectNames(names), protocols, chainIDs)
  {
    forall a: FileKey, b: FileKey | Configured(a, protocols, chainIDs) && Configured(b, protocols, chainIDs) &&
                                    ObjectNames(names)(a) == ObjectNames(names)(b)
      ensures a == b
    {
      ObjectKeyInjective(names, protocols, chainIDs, a, b);
    }
  }

  /** The store's query for the rows of a file. */
  type Fetch = FileKey -> seq<Row>

  /** The table of archived files and the uploaded objects. */
  datatype Archive = Archive(table: Table, objects: map<string, seq<Row>>)

  /** A file of a real month that has rows. */
  predicate HasRows(fetch: Fetch, k: FileKey) {
    IsMonth(k.month) && fetch(k) != []
  }

  ghost predicate AllOf(files: set<FileKey>, protocols: seq<string>, chainIDs: seq<nat>) {
    forall k :: k in files ==> k.protocol in protocols && k.chainID in chainIDs
  }

  /** The archive `a` is `a0` with exactly the given files written anew, each with the
      rows that the store fetches for it. */
  ghost predicate Holds(name: Naming, fetch: Fetch, files: set<FileKey>, a: Archive, a0: Archive)
  {
    OthersKept(files, a, a0) && AllStored(name, fetch, files, a) && NoStrays(name, files, a, a0)
  }

  /** `Holds`, for files of configured pairs. */
  ghost predicate Sane(name: Naming, protocols: seq<string>, chainIDs: seq<nat>, fetch: Fetch, files: set<FileKey>,
                       a: Archive, a0: Archive)
  {
    Holds(name, fetch, files, a, a0) && AllOf(files, protocols, chainIDs)
  }

  ghost predicate OthersKept(files: set<FileKey>, a: Archive, a0: Archive) {
    a.table.Keys == a0.table.Keys + files && forall k :: k in a.table && k !in files ==> a.table[k] == a0.table[k]
  }

  ghost predicate AllStored(name: Naming, fetch: Fetch, files: set<FileKey>, a: Archive)
  {
    forall k :: k in files ==> HasRows(fetch, k) && Stored(name, fetch, a, k)
  }

  ghost predicate NoStrays(name: Naming, files: set<FileKey>, a: Archive, a0: Archive) {
    forall o :: o in a.objects ==> o in a0.objects || ComesFrom(name, files, o)
  }

  ghost predicate Stored(name: Naming, fetch: Fetch, a: Archive, k: FileKey) {
    k in a.table && Describes(a.table[k], fetch(k), name(k)) &&
    name(k) in a.objects && a.objects[name(k)] == fetch(k)
  }

  ghost predicate ComesFrom(name: Naming, files: set<FileKey>, o: string) {
    exists k :: k in files && IsMonth(k.month) && name(k) == o
  }

  lemma StillStored(name: Naming, protocols: seq<string>, chainIDs: seq<nat>, fetch: Fetch,
                    a: Archive, k: FileKey, rec: ArchivalRecord, rows: seq<Row>, d: FileKey)
    requires DistinctNames(name, protocols, chainIDs) && IsMonth(k.month) && IsMonth(d.month) && d != k
    requires k.protocol in protocols && k.chainID in chainIDs && d.protocol in protocols && d.chainID in chainIDs
    requires Stored(name, fetch, a, d)
    ensures Stored(name, fetch, Archive(a.table[k := rec], a.objects[name(k) := rows]), d)
  {
    assert name(d) != name(k);
  }

  lemma ComesFromMore(name: Naming, files: set<FileKey>, k: FileKey, o: string)
    requires IsMonth(k.month)
    ensures ComesFrom(name, files, o) ==> ComesFrom(name, files + {k}, o)
    ensures ComesFrom(name, files + {k}, name(k))
  {
    if ComesFrom(name, files, o) {
      var d :| d in files && IsMonth(d.month) && name(d) == o;
      assert d in files + {k};
    }
    assert k in files + {k};
  }

  lemma HoldsOneMore(name: Naming, protocols: seq<string>, chainIDs: seq<nat>, fetch: Fetch,
                     files: set<FileKey>, a: Archive, a0: Archive, k: FileKey, rec: ArchivalRecord)
    requires DistinctNames(name, protocols, chainIDs) && HasRows(fetch, k)
    requires AllOf(files, protocols, chainIDs) && k.protocol in protocols && k.chainID in chainIDs
    requires Holds(name, fetch, files, a, a0) && Describes(rec, fetch(k), name(k))
    ensures Holds(name, fetch, files + {k}, Archive(a.table[k := rec], a.objects[name(k) := fetch(k)]), a0)
  {
    var b := Archive(a.table[k := rec], a.objects[name(k) := fetch(k)]);
    assert k in files + {k};
    forall d | d in files + {k}
      ensures HasRows(fetch, d) && Stored(name, fetch, b, d)
    {
      if d != k {
        assert HasRows(fetch, d) && Stored(name, fetch, a, d);
        StillStored(name, protocols, chainIDs, fetch, a, k, rec, fetch(k), d);
      }
    }
    forall o | o in b.objects
      ensures o in a0.objects || ComesFrom(name, files + {k}, o)
    {
      ComesFromMore(name, files, k, o);
    }
  }

  // ---- Conservation ----

  predicate InSome(r: Row, ks: seq<FileKey>)
    requires forall k :: k in ks ==> IsMonth(k.month)
  {
    exists k :: k in ks && InFile(r, k)
  }

  function RowsOfAll(db: seq<Row>, ks: seq<FileKey>): seq<Row>
    requires forall k :: k in ks ==> IsMonth(k.month)
  {
    if db == [] then []
    else if InSome(db[0], ks) then [db[0]] + RowsOfAll(db[1..], ks) else RowsOfAll(db[1..], ks)
  }

  function SumRows(db: seq<Row>, ks: seq<FileKey>): nat
    requires forall k :: k in ks ==> IsMonth(k.month)
  {
    if ks == [] then 0 else SumRows(db, ks[..|ks| - 1]) + |RowsOf(db, ks[|ks| - 1])|
  }

  lemma OneFileOnly(r: Row, a: FileKey, b: FileKey)
    requires IsMonth(a.month) && IsMonth(b.month) && InFile(r, a) && InFile(r, b)
    ensures a == b
  {
    OneMonthOnly(Time(r), a.month, b.month);
  }

  lemma {:induction false} SplitLast(db: seq<Row>, ks: seq<FileKey>)
    requires ks != [] && (forall k :: k in ks ==> IsMonth(k.month)) && ks[|ks| - 1] !in ks[..|ks| - 1]
    ensures |RowsOfAll(db, ks)| == |RowsOfAll(db, ks[..|ks| - 1])| + |RowsOf(db, ks[|ks| - 1])|
  {
    if db != [] {
      var init, last := ks[..|ks| - 1], ks[|ks| - 1];
      SplitLast(db[1..], ks);
      assert ks == init + [last];
      var r := db[0];
      assert InSome(r, ks) <==> InSome(r, init) || InFile(r, last);
      if InSome(r, init) && InFile(r, last) {
        var k :| k in init && InFile(r, k);
        OneFileOnly(r, k, last);
      }
    }
  }

  lemma EmptyKeys(db: seq<Row>)
    ensures RowsOfAll(db, []) == []
  {
    if db != [] {
      EmptyKeys(db[1..]);
    }
  }

  /** The row counts of distinct files add up to the rows that lie in any of them. */
  lemma {:induction false} CountsAddUp(db: seq<Row>, ks: seq<FileKey>)
    requires (forall k :: k in ks ==> IsMonth(k.month)) && forall i, j :: 0 <= i < j < |ks| ==> ks[i] != ks[j]
    ensures SumRows(db, ks) == |RowsOfAll(db, ks)|
  {
    if ks == [] {
      EmptyKeys(db);
    } else {
      CountsAddUp(db, ks[..|ks| - 1]);
      SplitLast(db, ks);
    }
  }
}

module Archiver {
  import opened Basics
  import opened Ordering
  import opened Calendar
  import opened ArchiveModel

  datatype ManifestEntry = ManifestEntry(file: FileKey, chainName: string, rowCount: nat, minTimestamp: int, maxTimestamp: int, objectKey: string)

  datatype Manifest = Manifest(totalFiles: nat, totalRows: nat, files: seq<ManifestEntry>)

  class ArchiverService {
    const names: map<nat, string>
    const objectName: Naming
    const protocols: seq<string>
    const chainIDs: seq<nat>
    var table: Table
    var objects: map<string, seq<Row>>
    var manifest: Option<Manifest>

    constructor (names: map<nat, string>, protocols: seq<string>, chainIDs: seq<nat>)
      ensures this.names == names && objectName == ObjectNames(names) && this.protocols == protocols && this.chainIDs == chainIDs
      ensures table == map[] && objects == map[] && manifest == None
    {
      this.names, this.objectName := names, ObjectNames(names);
      this.protocols, this.chainIDs := protocols, chainIDs;
      table, objects, manifest := map[], map[], None;
    }

    ghost function Contents(): Archive
      reads this
    {
      Archive(table, objects)
    }

    method Describe(rows: seq<Row>, objectKey: string) returns (rec: ArchivalRecord)
      requires rows != []
      ensures Describes(rec, rows, objectKey)
    {
      var minTS, maxTS := Time(rows[0]), Time(rows[0]);
      for i := 1 to |rows|
        invariant exists j :: 0 <= j < i && Time(rows[j]) == minTS
        invariant exists j :: 0 <= j < i && Time(rows[j]) == maxTS
        invariant forall j :: 0 <= j < i ==> minTS <= Time(rows[j]) <= maxTS
      {
        if Time(rows[i]) < minTS {
          minTS := Time(rows[i]);
        }
        if Time(rows[i]) > maxTS {
          maxTS := Time(rows[i]);
        }
      }
      rec := ArchivalRecord(|rows|, minTS, maxTS, objectKey);
    }

    /** One month of one pair: nothing if it has no rows, otherwise the file is
        uploaded and its entry recorded, replacing earlier ones. */
    method ArchiveMonth(fetch: Fetch, k: FileKey, ghost files: set<FileKey>, ghost a0: Archive) returns (wrote: bool)
      requires DistinctNames(objectName, protocols, chainIDs) && IsMonth(k.month)
      requires k.protocol in protocols && k.chainID in chainIDs
      requires Sane(objectName, protocols, chainIDs, fetch, files, Contents(), a0)
      modifies this`table, this`objects
      ensures wrote == HasRows(fetch, k)
      ensures wrote ==> Sane(objectName, protocols, chainIDs, fetch, files + {k}, Contents(), a0)
      ensures !wrote ==> Contents() == old(Contents())
    {
      var rows := fetch(k);
      if rows == [] {
        return false;
      }
      var objectKey := objectName(k);
      objects := objects[objectKey := rows];
      var rec := Describe(rows, objectKey);
      table := table[k := rec];
      HoldsOneMore(objectName, protocols, chainIDs, fetch, files, old(Contents()), a0, k, rec);
      return true;
    }

    /** Every month from the scan start up to, not including, the current one. */
    method ArchiveChainProtocol(fetch: Fetch, protocol: string, chainID: nat, current: Month, ghost files0: set<FileKey>, ghost a0: Archive)
      returns (count: nat, ghost files: set<FileKey>)
      requires DistinctNames(objectName, protocols, chainIDs) && IsMonth(current)
      requires protocol in protocols && chainID in chainIDs
      requires Sane(objectName, protocols, chainIDs, fetch, files0, Contents(), a0)
      modifies this`table, this`objects
      ensures Sane(objectName, protocols, chainIDs, fetch, files, Contents(), a0)
      ensures forall d :: d in files <==> d in files0 || OfPair(fetch, d, protocol, chainID, current)
      ensures if count == 0 then files == files0 else files != {}
    {
      count, files := 0, files0;
      var monthStart := SCAN_START;
      while Index(monthStart) < Index(current)
        invariant IsMonth(monthStart) && Index(SCAN_START) <= Index(monthStart)
        invariant Index(monthStart) <= Index(current) || monthStart == SCAN_START
        invariant Sane(objectName, protocols, chainIDs, fetch, files, Contents(), a0)
        invariant forall d :: d in files <==> d in files0 || OfPair(fetch, d, protocol, chainID, monthStart)
        invariant if count == 0 then files == files0 else files != {}
        decreases Index(current) - Index(monthStart)
      {
        var k := FileKey(protocol, chainID, monthStart);
        var wrote := ArchiveMonth(fetch, k, files, a0);
        OfPairNext(fetch, protocol, chainID, monthStart);
        if wrote {
          files := files + {k};
          count := count + 1;
        }
        monthStart := NextMonth(monthStart);
      }
      OfPairEnd(fetch, protocol, chainID, monthStart, current);
    }

    /** Every entry of the table once. */
    method ListArchivalCursors() returns (entries: seq<(FileKey, ArchivalRecord)>)
      ensures EntriesOf(entries, table)
    {
      entries := [];
      var keys := table.Keys;
      while keys != {}
        invariant keys <= table.Keys
        invariant forall k :: k in table <==> k in keys || exists i :: 0 <= i < |entries| && entries[i].0 == k
        invariant forall i :: 0 <= i < |entries| ==> entries[i].0 !in keys && entries[i].0 in table && entries[i].1 == table[entries[i].0]
        invariant forall i, j :: 0 <= i < j < |entries| ==> entries[i].0 != entries[j].0
        decreases |keys|
      {
        var k :| k in keys;
        ghost var before := entries;
        entries := entries + [(k, table[k])];
        keys := keys - {k};
        assert entries[|before|].0 == k;
        assert forall i :: 0 <= i < |before| ==> entries[i] == before[i];
      }
    }

    method BuildManifest(entries: seq<(FileKey, ArchivalRecord)>) returns (m: Manifest)
      ensures ManifestOf(m, entries, names)
    {
      var files := [];
      var totalRows := 0;
      for i := 0 to |entries|
        invariant |files| == i && totalRows == TotalRows(entries, i)
        invariant forall j :: 0 <= j < i ==> EntryFor(files[j], entries[j], names)
      {
        var (k, rec) := entries[i];
        files := files + [ManifestEntry(k, ChainName(names, k.chainID), rec.rowCount, rec.minTimestamp, rec.maxTimestamp, rec.objectKey)];
        totalRows := totalRows + rec.rowCount;
      }
      m := Manifest(|files|, totalRows, files);
    }

    /** All pairs in turn: afterwards exactly the due files with rows are written. */
    method ArchivePairs(fetch: Fetch, current: Month) returns (archived: nat, ghost files: set<FileKey>)
      requires DistinctNames(objectName, protocols, chainIDs) && IsMonth(current)
      modifies this`table, this`objects
      ensures Holds(objectName, fetch, files, Contents(), old(Contents()))
      ensures forall k :: k in files <==> Due(k, protocols, chainIDs, current) && HasRows(fetch, k)
      ensures archived > 0 <==> files != {}
    {
      archived, files := 0, {};
      ghost var a0 := Contents();
      for i := 0 to |protocols|
        invariant Sane(objectName, protocols, chainIDs, fetch, files, Contents(), a0)
        invariant forall k :: k in files <==> Due(k, protocols[..i], chainIDs, current) && HasRows(fetch, k)
        invariant archived > 0 <==> files != {}
      {
        var n;
        n, files := ArchiveProtocol(fetch, i, current, files, a0);
        DueSplit(protocols, i, chainIDs, current);
        archived := archived + n;
      }
      assert protocols[..|protocols|] == protocols;
    }

    method ArchiveProtocol(fetch: Fetch, i: nat, current: Month, ghost files0: set<FileKey>, ghost a0: Archive)
      returns (archived: nat, ghost files: set<FileKey>)
      requires DistinctNames(objectName, protocols, chainIDs) && IsMonth(current) && i < |protocols|
      requires Sane(objectName, protocols, chainIDs, fetch, files0, Contents(), a0)
      modifies this`table, this`objects
      ensures Sane(objectName, protocols, chainIDs, fetch, files, Contents(), a0)
      ensures PairsDone(fetch, files, files0, protocols[i], chainIDs, current)
      ensures if archived == 0 then files == files0 else files != {}
    {
      archived, files := 0, files0;
      var j := 0;
      while j < |chainIDs|
        invariant j <= |chainIDs|
        invariant Sane(objectName, protocols, chainIDs, fetch, files, Contents(), a0)
        invariant PairsDone(fetch, files, files0, protocols[i], chainIDs[..j], current)
        invariant if archived == 0 then files == files0 else files != {}
      {
        ghost var before := files;
        var n;
        n, files := ArchiveChainProtocol(fetch, protocols[i], chainIDs[j], current, before, a0);
        OnePairMore(fetch, before, files, files0, protocols[i], chainIDs, j, current);
        archived, j := archived + n, j + 1;
      }
      assert chainIDs[..|chainIDs|] == chainIDs;
    }

    /** One cycle without failing calls: the archive afterwards holds, for every due
        file that has rows, those rows and a faithful entry, and is otherwise what it
        was before; the manifest is rebuilt when something was written. */
    method RunCycle(fetch: Fetch, current: Month) returns (archived: nat, ghost files: set<FileKey>)
      requires DistinctNames(objectName, protocols, chainIDs) && IsMonth(current)
      modifies this
      ensures forall k :: k in files <==> Due(k, protocols, chainIDs, current) && HasRows(fetch, k)
      ensures Holds(objectName, fetch, files, Contents(), old(Contents()))
      ensures archived > 0 <==> files != {}
      ensures archived == 0 ==> manifest == old(manifest)
      ensures archived > 0 ==> manifest.Some? && Lists(manifest.value, table, names)
    {
      archived, files := ArchivePairs(fetch, current);
      if archived > 0 {
        var entries := ListArchivalCursors();
        var m := BuildManifest(entries);
        manifest := Some(m);
      }
    }
  }

  /** `files` is `files0` and the due files with rows of one protocol and these chains. */
  ghost predicate PairsDone(fetch: Fetch, files: set<FileKey>, files0: set<FileKey>, protocol: string, chainIDs: seq<nat>, current: Month) {
    forall k :: k in files <==> k in files0 || (Due(k, [protocol], chainIDs, current) && HasRows(fetch, k))
  }

  lemma OnePairMore(fetch: Fetch, before: set<FileKey>, files: set<FileKey>, files0: set<FileKey>, protocol: string,
                    chainIDs: seq<nat>, j: nat, current: Month)
    requires j < |chainIDs| && PairsDone(fetch, before, files0, protocol, chainIDs[..j], current)
    requires forall k :: k in files <==> k in before || OfPair(fetch, k, protocol, chainIDs[j], current)
    ensures PairsDone(fetch, files, files0, protocol, chainIDs[..j + 1], current)
  {
    assert chainIDs[..j + 1] == chainIDs[..j] + [chainIDs[j]];
  }

  lemma DueSplit(protocols: seq<string>, i: nat, chainIDs: seq<nat>, current: Month)
    requires i < |protocols|
    ensures forall k :: Due(k, protocols[..i + 1], chainIDs, current) <==>
      Due(k, protocols[..i], chainIDs, current) || Due(k, [protocols[i]], chainIDs, current)
  {
    assert protocols[..i + 1] == protocols[..i] + [protocols[i]];
  }

  /** A file of one pair, of a scanned month before `current`, that has rows. */
  predicate OfPair(fetch: Fetch, k: FileKey, protocol: string, chainID: nat, current: Month) {
    k.protocol == protocol && k.chainID == chainID && Scanned(k.month, current) && HasRows(fetch, k)
  }

  lemma OfPairNext(fetch: Fetch, protocol: string, chainID: nat, m: Month)
    requires IsMonth(m) && Index(SCAN_START) <= Index(m)
    ensures IsMonth(NextMonth(m)) && Index(NextMonth(m)) == Index(m) + 1
    ensures forall k :: OfPair(fetch, k, protocol, chainID, NextMonth(m)) <==>
      OfPair(fetch, k, protocol, chainID, m) || (k == FileKey(protocol, chainID, m) && HasRows(fetch, k))
  {
    ScannedNext(m);
  }

  lemma OfPairEnd(fetch: Fetch, protocol: string, chainID: nat, m: Month, current: Month)
    requires Index(m) >= Index(current) && (Index(m) <= Index(current) || m == SCAN_START)
    ensures forall k :: OfPair(fetch, k, protocol, chainID, m) <==> OfPair(fetch, k, protocol, chainID, current)
  {
  }

  ghost predicate EntriesOf(entries: seq<(FileKey, ArchivalRecord)>, table: Table) {
    && (forall i :: 0 <= i < |entries| ==> entries[i].0 in table && entries[i].1 == table[entries[i].0])
    && (forall k :: k in table ==> exists i :: 0 <= i < |entries| && entries[i].0 == k)
    && (forall i, j :: 0 <= i < j < |entries| ==> entries[i].0 != entries[j].0)
  }

  function TotalRows(entries: seq<(FileKey, ArchivalRecord)>, n: nat): nat
    requires n <= |entries|
  {
    if n == 0 then 0 else TotalRows(entries, n - 1) + entries[n - 1].1.rowCount
  }

  predicate EntryFor(e: ManifestEntry, entry: (FileKey, ArchivalRecord), names: map<nat, string>) {
    e == ManifestEntry(entry.0, ChainName(names, entry.0.chainID), entry.1.rowCount, entry.1.minTimestamp, entry.1.maxTimestamp,
                       entry.1.objectKey)
  }

  ghost predicate ManifestOf(m: Manifest, entries: seq<(FileKey, ArchivalRecord)>, names: map<nat, string>) {
    && |m.files| == m.totalFiles == |entries| && m.totalRows == TotalRows(entries, |entries|)
    && forall i :: 0 <= i < |entries| ==> EntryFor(m.files[i], entries[i], names)
  }

  /** The manifest names every entry of the table once and totals their rows. */
  ghost predicate Lists(m: Manifest, table: Table, names: map<nat, string>) {
    exists entries :: EntriesOf(entries, table) && ManifestOf(m, entries, names)
  }
}

module Conservation {
  import opened Basics
  import opened Ordering
  import opened Calendar
  import opened ArchiveModel
  import opened Archiver

  const EMPTY_ARCHIVE := Archive(map[], map[])

  function EligibleRows(db: seq<Row>, protocols: seq<string>, chainIDs: seq<nat>, current: Month): seq<Row>
    requires IsMonth(current)
  {
    if db == [] then []
    else
      var rest := EligibleRows(db[1..], protocols, chainIDs, current);
      if Eligible(db[0], protocols, chainIDs, current) then [db[0]] + rest else rest
  }

  /** A row belongs to a due file exactly when it is eligible, and then to one only. */
  lemma EligibleExactly(r: Row, protocols: seq<string>, chainIDs: seq<nat>, current: Month)
    requires IsMonth(current)
    ensures Eligible(r, protocols, chainIDs, current) <==> exists k :: Due(k, protocols, chainIDs, current) && InFile(r, k)
    ensures forall j, k | Due(j, protocols, chainIDs, current) && Due(k, protocols, chainIDs, current) && InFile(r, j) && InFile(r, k) :: j == k
  {
    if Eligible(r, protocols, chainIDs, current) {
      if Index(SCAN_START) <= Index(current) {
        var m := SomeScannedMonth(Time(r), SCAN_START, current);
        var k := FileKey(r.rec.core.protocol, r.rec.core.source.chainID, m);
        assert Due(k, protocols, chainIDs, current) && InFile(r, k);
      } else {
        EarlierEndsFirst(current, SCAN_START);
        NextMonthStarts(current);
        assert false;
      }
    }
    forall k | Due(k, protocols, chainIDs, current) && InFile(r, k)
      ensures Eligible(r, protocols, chainIDs, current)
    {
      ScannedTimes(Time(r), k.month, current);
    }
    forall j, k | Due(j, protocols, chainIDs, current) && Due(k, protocols, chainIDs, current) && InFile(r, j) && InFile(r, k)
      ensures j == k
    {
      OneFileOnly(r, j, k);
    }
  }

  /** What a cycle in month `current` has written, starting from nothing. */
  ghost predicate FreshCycle(name: Naming, fetch: Fetch, protocols: seq<string>, chainIDs: seq<nat>, current: Month,
                             files: set<FileKey>, a: Archive)
  {
    && IsMonth(current) && (forall k :: k in files <==> Due(k, protocols, chainIDs, current) && HasRows(fetch, k))
    && Holds(name, fetch, files, a, EMPTY_ARCHIVE)
  }

  /** The store fetches from the database `db`. */
  ghost predicate Fetches(fetch: Fetch, db: seq<Row>) {
    forall k: FileKey {:trigger RowsOf(db, k)} :: IsMonth(k.month) ==> fetch(k) == RowsOf(db, k)
  }

  lemma InFetched(fetch: Fetch, db: seq<Row>, k: FileKey, r: Row)
    requires Fetches(fetch, db) && IsMonth(k.month)
    ensures r in fetch(k) <==> r in db && InFile(r, k)
  {
    InRowsOf(db, k, r);
  }

  /** A row of the database is eligible exactly when one of the written files is its. */
  lemma EligibleIsWritten(fetch: Fetch, db: seq<Row>, protocols: seq<string>, chainIDs: seq<nat>, current: Month,
                          files: set<FileKey>, r: Row)
    requires Fetches(fetch, db) && IsMonth(current) && r in db
    requires forall k :: k in files <==> Due(k, protocols, chainIDs, current) && HasRows(fetch, k)
    ensures Eligible(r, protocols, chainIDs, current) <==> exists k :: k in files && HasRows(fetch, k) && InFile(r, k)
  {
    EligibleExactly(r, protocols, chainIDs, current);
    if Eligible(r, protocols, chainIDs, current) {
      var k :| Due(k, protocols, chainIDs, current) && InFile(r, k);
      InFetched(fetch, db, k, r);
      assert HasRows(fetch, k);
      assert k in files;
    }
  }

  /** After a cycle that starts from an empty archive, every eligible row is in the
      object of exactly one table entry, and the objects hold nothing else. */
  lemma EveryRowOnce(name: Naming, fetch: Fetch, db: seq<Row>, protocols: seq<string>, chainIDs: seq<nat>, current: Month,
                     files: set<FileKey>, a: Archive, r: Row)
    requires Fetches(fetch, db) && FreshCycle(name, fetch, protocols, chainIDs, current, files, a)
    ensures forall k :: k in a.table ==> IsMonth(k.month) && name(k) in a.objects
    ensures forall o :: o in a.objects ==> ComesFrom(name, a.table.Keys, o)
    ensures r in db && Eligible(r, protocols, chainIDs, current) <==>
              exists k :: k in a.table && r in a.objects[name(k)]
    ensures forall j, k | j in a.table && k in a.table && r in a.objects[name(j)] && r in a.objects[name(k)] :: j == k
  {
    assert a.table.Keys == files;
    forall k | k in files
      ensures HasRows(fetch, k) && Stored(name, fetch, a, k)
      ensures r in a.objects[name(k)] <==> r in db && InFile(r, k)
    {
      assert HasRows(fetch, k);
      InFetched(fetch, db, k, r);
    }
    if r in db {
      EligibleIsWritten(fetch, db, protocols, chainIDs, current, files, r);
    }
    forall j, k | j in files && k in files && r in a.objects[name(j)] && r in a.objects[name(k)]
      ensures j == k
    {
      OneFileOnly(r, j, k);
    }
  }

  lemma {:induction false} SameRows(db: seq<Row>, ks: seq<FileKey>, protocols: seq<string>, chainIDs: seq<nat>, current: Month)
    requires IsMonth(current) && forall k :: k in ks ==> IsMonth(k.month)
    requires forall r :: r in db ==> (InSome(r, ks) <==> Eligible(r, protocols, chainIDs, current))
    ensures RowsOfAll(db, ks) == EligibleRows(db, protocols, chainIDs, current)
  {
    if db != [] {
      assert db == [db[0]] + db[1..];
      SameRows(db[1..], ks, protocols, chainIDs, current);
    }
  }

  function FilesOf(entries: seq<(FileKey, ArchivalRecord)>): (ks: seq<FileKey>)
    ensures |ks| == |entries|
  {
    seq(|entries|, i requires 0 <= i < |entries| => entries[i].0)
  }

  lemma {:induction false} TotalIsSum(db: seq<Row>, entries: seq<(FileKey, ArchivalRecord)>, n: nat)
    requires n <= |entries|
    requires forall i :: 0 <= i < |entries| ==> IsMonth(entries[i].0.month) && entries[i].1.rowCount == |RowsOf(db, entries[i].0)|
    ensures TotalRows(entries, n) == SumRows(db, FilesOf(entries)[..n])
  {
    if n > 0 {
      TotalIsSum(db, entries, n - 1);
      var ks := FilesOf(entries);
      assert ks[..n][..n - 1] == ks[..n - 1] && ks[..n][n - 1] == entries[n - 1].0;
    }
  }

  /** And the manifest's row total is the number of eligible rows in the database. */
  lemma ManifestCountsRows(names: map<nat, string>, name: Naming, fetch: Fetch, db: seq<Row>, protocols: seq<string>, chainIDs: seq<nat>,
                           current: Month, files: set<FileKey>, a: Archive, m: Manifest)
    requires Fetches(fetch, db) && FreshCycle(name, fetch, protocols, chainIDs, current, files, a) && Lists(m, a.table, names)
    ensures m.totalRows == |EligibleRows(db, protocols, chainIDs, current)|
    ensures m.totalFiles == |a.table|
  {
    var entries: seq<(FileKey, ArchivalRecord)> :| EntriesOf(entries, a.table) && ManifestOf(m, entries, names);
    TotalIsCovered(name, fetch, db, files, a, entries);
    ListedAreEligible(fetch, db, protocols, chainIDs, current, files, a.table, entries);
    KeysCounted(entries, a.table);
  }

  lemma ListedAreEligible(fetch: Fetch, db: seq<Row>, protocols: seq<string>, chainIDs: seq<nat>, current: Month,
                          files: set<FileKey>, table: Table, entries: seq<(FileKey, ArchivalRecord)>)
    requires Fetches(fetch, db) && IsMonth(current) && table.Keys == files && EntriesOf(entries, table)
    requires forall k :: k in files <==> Due(k, protocols, chainIDs, current) && HasRows(fetch, k)
    requires forall k :: k in FilesOf(entries) ==> IsMonth(k.month)
    ensures RowsOfAll(db, FilesOf(entries)) == EligibleRows(db, protocols, chainIDs, current)
  {
    forall r | r in db
      ensures InSome(r, FilesOf(entries)) <==> Eligible(r, protocols, chainIDs, current)
    {
      EligibleIsWritten(fetch, db, protocols, chainIDs, current, files, r);
      InListedFile(files, table, entries, r);
    }
    SameRows(db, FilesOf(entries), protocols, chainIDs, current);
  }

  lemma TotalIsCovered(name: Naming, fetch: Fetch, db: seq<Row>, files: set<FileKey>, a: Archive,
                       entries: seq<(FileKey, ArchivalRecord)>)
    requires Fetches(fetch, db) && Holds(name, fetch, files, a, EMPTY_ARCHIVE)
    requires EntriesOf(entries, a.table)
    ensures forall k :: k in FilesOf(entries) ==> IsMonth(k.month)
    ensures TotalRows(entries, |entries|) == |RowsOfAll(db, FilesOf(entries))|
  {
    forall i | 0 <= i < |entries|
      ensures IsMonth(entries[i].0.month) && entries[i].1.rowCount == |RowsOf(db, entries[i].0)|
    {
      EntryCount(name, fetch, files, a, entries, i);
    }
    TotalOfEntries(db, entries, a.table);
  }

  lemma TotalOfEntries(db: seq<Row>, entries: seq<(FileKey, ArchivalRecord)>, table: Table)
    requires EntriesOf(entries, table)
    requires forall i :: 0 <= i < |entries| ==> IsMonth(entries[i].0.month) && entries[i].1.rowCount == |RowsOf(db, entries[i].0)|
    ensures forall k :: k in FilesOf(entries) ==> IsMonth(k.month)
    ensures TotalRows(entries, |entries|) == |RowsOfAll(db, FilesOf(entries))|
  {
    TotalIsSum(db, entries, |entries|);
    assert FilesOf(entries)[..|entries|] == FilesOf(entries);
    CountsAddUp(db, FilesOf(entries));
  }

  lemma EntryCount(name: Naming, fetch: Fetch, files: set<FileKey>, a: Archive,
                   entries: seq<(FileKey, ArchivalRecord)>, i: nat)
    requires Holds(name, fetch, files, a, EMPTY_ARCHIVE) && EntriesOf(entries, a.table) && i < |entries|
    ensures IsMonth(entries[i].0.month) && entries[i].1.rowCount == |fetch(entries[i].0)|
  {
    assert entries[i].0 in files && HasRows(fetch, entries[i].0) && Stored(name, fetch, a, entries[i].0);
  }

  lemma InListedFile(files: set<FileKey>, table: Table, entries: seq<(FileKey, ArchivalRecord)>, r: Row)
    requires EntriesOf(entries, table) && table.Keys == files && forall k :: k in files ==> IsMonth(k.month)
    requires forall k :: k in FilesOf(entries) ==> IsMonth(k.month)
    ensures InSome(r, FilesOf(entries)) <==> exists k :: k in files && InFile(r, k)
  {
    var ks := FilesOf(entries);
    forall k
      ensures k in ks <==> k in files
    {
      if k in ks {
        var i :| 0 <= i < |ks| && ks[i] == k;
        assert entries[i].0 == k;
      }
      if k in files {
        var i :| 0 <= i < |entries| && entries[i].0 == k;
        assert ks[i] == k;
      }
    }
  }

  lemma KeysCounted(entries: seq<(FileKey, ArchivalRecord)>, table: Table)
    requires EntriesOf(entries, table)
    ensures |entries| == |table|
  {
    var ks := FilesOf(entries);
    DistinctCount(ks);
    assert (set k | k in ks) == table.Keys by {
      forall k | k in table
        ensures k in ks
      {
        var i :| 0 <= i < |entries| && entries[i].0 == k;
        assert ks[i] == k;
      }
    }
  }

  lemma {:induction false} DistinctCount(ks: seq<FileKey>)
    requires forall i, j :: 0 <= i < j < |ks| ==> ks[i] != ks[j]
    ensures |set k | k in ks| == |ks|
  {
    if ks != [] {
      var init, last := ks[..|ks| - 1], ks[|ks| - 1];
      DistinctCount(init);
      assert ks == init + [last];
      assert (set k | k in ks) == (set k | k in init) + {last};
    }
  }

  /** A later cycle leaves nothing of an earlier one behind: over a database that has
      only grown, in the same or a later month, the table and the objects depend on
      the last cycle alone. */
  lemma LaterCycleStandsAlone(name: Naming, protocols: seq<string>, chainIDs: seq<nat>,
                              fetch1: Fetch, current1: Month, files1: set<FileKey>, a1: Archive,
                              fetch2: Fetch, current2: Month, files2: set<FileKey>, a2: Archive)
    requires FreshCycle(name, fetch1, protocols, chainIDs, current1, files1, a1)
    requires IsMonth(current2) && Index(current1) <= Index(current2)
    requires forall k :: k in files2 <==> Due(k, protocols, chainIDs, current2) && HasRows(fetch2, k)
    requires Holds(name, fetch2, files2, a2, a1)
    requires forall k :: HasRows(fetch1, k) ==> HasRows(fetch2, k)
    ensures FreshCycle(name, fetch2, protocols, chainIDs, current2, files2, a2)
  {
    MoreFiles(protocols, chainIDs, fetch1, current1, files1, fetch2, current2, files2);
    Overwrites(name, fetch2, files1, a1, files2, a2);
  }

  lemma MoreFiles(protocols: seq<string>, chainIDs: seq<nat>, fetch1: Fetch, current1: Month, files1: set<FileKey>,
                  fetch2: Fetch, current2: Month, files2: set<FileKey>)
    requires Index(current1) <= Index(current2) && forall k :: HasRows(fetch1, k) ==> HasRows(fetch2, k)
    requires forall k :: k in files1 <==> Due(k, protocols, chainIDs, current1) && HasRows(fetch1, k)
    requires forall k :: k in files2 <==> Due(k, protocols, chainIDs, current2) && HasRows(fetch2, k)
    ensures files1 <= files2
  {
  }

  lemma Overwrites(name: Naming, fetch: Fetch, files1: set<FileKey>, a1: Archive, files2: set<FileKey>, a2: Archive)
    requires files1 <= files2 && a1.table.Keys == files1 && forall o :: o in a1.objects ==> ComesFrom(name, files1, o)
    requires Holds(name, fetch, files2, a2, a1)
    ensures Holds(name, fetch, files2, a2, EMPTY_ARCHIVE)
  {
    forall o | o in a2.objects
      ensures ComesFrom(name, files2, o)
    {
      if o in a1.objects {
        StillComesFrom(name, files1, files2, o);
      }
    }
  }

  lemma StillComesFrom(name: Naming, files: set<FileKey>, more: set<FileKey>, o: string)
    requires files <= more && ComesFrom(name, files, o)
    ensures ComesFrom(name, more, o)
  {
    var k :| k in files && IsMonth(k.month) && name(k) == o;
    assert k in more;
  }
}
