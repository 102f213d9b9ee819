/** Whole requests against each backend: what one cache object writes, a fresh object for the same
    key reads back; what a fresh object reads from an empty store; and when the store is written. */
module Scenarios {
  import opened Outcomes
  import opened Decimal
  import opened PhpValue
  import opened Serialization
  import opened Compression
  import opened Codec
  import opened Expiration
  import opened Keys
  import opened FileFormat
  import opened Stores
  import opened MemcacheFetch
  import opened Caching

  /** The expiration setCache chose is a positive timestamp. Seen by a request at any time `now`,
      it is stale exactly when `now` is past it: as the value itself, once a file has turned it into
      text, and once the database has cast it into an int column. */
  lemma StoredExpirationFresh(arg: Value, time: nat, strtotime: DateParser, now: int)
    ensures NumericValue(Resolve(arg, time, strtotime)) > 0
    ensures Expired(Resolve(arg, time, strtotime), now) <==> now > NumericValue(Resolve(arg, time, strtotime))
    ensures Expired(Str(ToPhpString(Resolve(arg, time, strtotime))), now)
      <==> now > NumericValue(Resolve(arg, time, strtotime))
    ensures Expired(RowExpiration(UpsertRow(Null, Resolve(arg, time, strtotime))), now)
      <==> now > NumericValue(Resolve(arg, time, strtotime))
  {
    var e := Resolve(arg, time, strtotime);
    var n := IntCast(e);
    assert n == NumericValue(e);
    assert n > 0 by {
      if !(IsNumeric(arg) && NumericValue(arg) > time) {
        match strtotime(ToPhpString(arg), time)
        case Some(t) =>
        case None =>
      }
    }
    ExpiredPrinted(n, now);
    ExpiredInt(n, now);
  }

  /** A serialized array is truthy text: it starts with "a:". */
  lemma SerializedArrayIsTruthy(v: Value)
    requires v.Arr?
    ensures Truthy(Str(Serialize(v)))
  {
    assert Serialize(v)[0] == 'a';
  }

  /** Reading back, at time `now`, the file setCache wrote for an array at `time`: an expiration that
      is stale exactly when `now` is past the one set, and the array. */
  lemma FileHit(files: map<string, string>, path: string, arg: Value, time: nat, strtotime: DateParser,
                v: Value, before: (Value, Value), now: int)
    requires v.Arr?
    requires path in files && files[path] == Content(Resolve(arg, time, strtotime), Encode(v))
    ensures Expired(Loaded(ParseContent(Lookup(files, path)), before).0, now)
      <==> now > NumericValue(Resolve(arg, time, strtotime))
    ensures Decode(Loaded(ParseContent(Lookup(files, path)), before).1) == v
  {
    var e := Resolve(arg, time, strtotime);
    NumericHasNoNewline(e);
    ReadWritten(e, Str(Serialize(v)));
    StoredExpirationFresh(arg, time, strtotime, now);
    DecodeEncodeArray(v);
  }

  /** With getData as written, the file setCache wrote for a non-empty array still gives back the
      array, while an empty array comes back as its serialized text "a:0:{}". */
  lemma FileHitAsWritten(files: map<string, string>, path: string, arg: Value, time: nat,
                         strtotime: DateParser, v: Value, before: (Value, Value))
    requires v.Arr?
    requires path in files && files[path] == Content(Resolve(arg, time, strtotime), Encode(v))
    ensures |v.entries| > 0 ==> DecodeAsWritten(Loaded(ParseContent(Lookup(files, path)), before).1) == v
    ensures |v.entries| == 0 ==>
      DecodeAsWritten(Loaded(ParseContent(Lookup(files, path)), before).1) == Str("a:0:{}")
  {
    var e := Resolve(arg, time, strtotime);
    NumericHasNoNewline(e);
    ReadWritten(e, Str(Serialize(v)));
    if |v.entries| > 0 {
      DecodeAsWrittenNonEmptyArray(v);
    } else {
      assert v == Arr([]);
      DecodeAsWrittenEmptyArray();
    }
  }

  /** One request: a new FileCache for `pairs` sets `v` with an immediate write. */
  method FileWriteRequest(fs: FileSystem, pairs: KeyMap, v: Value, exp: Value, dir: string, time: nat, strtotime: DateParser)
    requires |pairs| > 0
    modifies fs
    ensures fs.files == old(fs.files)[FilePath(TrimDir(dir), pairs) := Content(Resolve(exp, time, strtotime), Encode(v))]
  {
    var writer := Cache.OpenFileCache(Columns(pairs), dir, fs, time, strtotime);
    var o := writer.value.SetCache(v, exp, true);
  }

  /** One request: a new FileCache for `pairs` calls getCache. */
  method FileRequest(fs: FileSystem, pairs: KeyMap, dir: string, time: nat, strtotime: DateParser)
    returns (r: Result<Value>)
    requires |pairs| > 0
    modifies fs
    ensures var (e, d) := Loaded(ParseContent(Lookup(old(fs.files), FilePath(TrimDir(dir), pairs))), (Null, Null));
      r == Ok(if Expired(e, time) then Bool(false) else Decode(d))
  {
    var reader := Cache.OpenFileCache(Columns(pairs), dir, fs, time, strtotime);
    r := reader.value.GetCache(NotArray(Null));
  }

  /** An array written by one FileCache request at `time` comes back from a later request for the
      same key at `later`, until the expiration set; after it the later request gets false. */
  method FileRoundTrip(pairs: KeyMap, v: Value, exp: Value, dir: string, time: nat, later: nat,
                       strtotime: DateParser)
    returns (r: Result<Value>)
    requires |pairs| > 0 && v.Arr?
    ensures r == Ok(if later <= NumericValue(Resolve(exp, time, strtotime)) then v else Bool(false))
  {
    var fs := new FileSystem(map[]);
    FileWriteRequest(fs, pairs, v, exp, dir, time, strtotime);
    FileHit(fs.files, FilePath(TrimDir(dir), pairs), exp, time, strtotime, v, (Null, Null), later);
    r := FileRequest(fs, pairs, dir, later, strtotime);
  }

  /** With the corrected read, an array written by one MCache request at `time` comes back from a
      later request at `later` until the expiration set, and false after it. */
  method MemcacheRoundTrip(pairs: KeyMap, v: Value, exp: Value, time: nat, later: nat, strtotime: DateParser)
    returns (r: Result<Value>)
    requires |pairs| > 0 && v.Arr?
    ensures r == Ok(if later <= NumericValue(Resolve(exp, time, strtotime)) then v else Bool(false))
  {
    var server := new MemcacheServer(map[]);
    var writer := Cache.Open(Columns(pairs), time, strtotime, MemcacheBackend(server));
    var o := writer.value.SetCache(v, exp, true);
    SerializedArrayIsTruthy(v);
    DecodeEncodeArray(v);
    StoredExpirationFresh(exp, time, strtotime, later);
    var reader := Cache.Open(Columns(pairs), later, strtotime, MemcacheBackend(server));
    r := reader.value.GetCache(NotArray(Null));
  }

  /** One request: a new SQLCache for `pairs` sets `v` with an immediate write. */
  method SqlWriteRequest(db: Database, pairs: KeyMap, v: Value, exp: Value, time: nat, strtotime: DateParser)
    requires |pairs| > 0
    modifies db
    ensures db.rows == old(db.rows)[ToMap(pairs) := UpsertRow(Encode(v), Resolve(exp, time, strtotime))]
  {
    var writer := Cache.Open(Columns(pairs), time, strtotime, SqlBackend(db));
    var o := writer.value.SetCache(v, exp, true);
  }

  /** One request: a new SQLCache for `pairs` calls getCache. */
  method SqlRequest(db: Database, pairs: KeyMap, time: nat, strtotime: DateParser) returns (r: Result<Value>)
    requires |pairs| > 0
    modifies db
    ensures ToMap(pairs) in old(db.rows) ==>
      var row := old(db.rows)[ToMap(pairs)];
      r == Ok(if Expired(RowExpiration(row), time) then Bool(false) else Decode(RowData(row)))
    ensures ToMap(pairs) !in old(db.rows) ==> r == Ok(Bool(false))
  {
    var reader := Cache.Open(Columns(pairs), time, strtotime, SqlBackend(db));
    r := reader.value.GetCache(NotArray(Null));
  }

  /** Reading back, at time `now`, the row setCache wrote for an array at `time`: an expiration that
      is stale exactly when `now` is past the one set, and the array. */
  lemma SqlHit(arg: Value, time: nat, strtotime: DateParser, v: Value, now: int)
    requires v.Arr?
    ensures Expired(RowExpiration(UpsertRow(Encode(v), Resolve(arg, time, strtotime))), now)
      <==> now > NumericValue(Resolve(arg, time, strtotime))
    ensures Decode(RowData(UpsertRow(Encode(v), Resolve(arg, time, strtotime)))) == v
  {
    UncompressCompress(Serialize(v));
    StoredExpirationFresh(arg, time, strtotime, now);
    DecodeEncodeArray(v);
  }

  /** With getData as written, the row setCache wrote for a non-empty array still gives back the
      array, while an empty array comes back as its serialized text "a:0:{}". */
  lemma SqlHitAsWritten(arg: Value, time: nat, strtotime: DateParser, v: Value)
    requires v.Arr?
    ensures |v.entries| > 0 ==> DecodeAsWritten(RowData(UpsertRow(Encode(v), Resolve(arg, time, strtotime)))) == v
    ensures |v.entries| == 0 ==>
      DecodeAsWritten(RowData(UpsertRow(Encode(v), Resolve(arg, time, strtotime)))) == Str("a:0:{}")
  {
    UncompressCompress(Serialize(v));
    if |v.entries| > 0 {
      DecodeAsWrittenNonEmptyArray(v);
    } else {
      assert v == Arr([]);
      DecodeAsWrittenEmptyArray();
    }
  }

  /** An array written by one SQLCache request at `time` comes back from a later request at `later`
      for the same key, even with the key's columns given in another order, until the expiration
      set; after it the later request gets false. */
  method SqlRoundTrip(pairs: KeyMap, same: KeyMap, v: Value, exp: Value, time: nat, later: nat,
                      strtotime: DateParser)
    returns (r: Result<Value>)
    requires |pairs| > 0 && |same| > 0 && ToMap(same) == ToMap(pairs) && v.Arr?
    ensures r == Ok(if later <= NumericValue(Resolve(exp, time, strtotime)) then v else Bool(false))
  {
    var db := new Database(map[]);
    SqlWriteRequest(db, pairs, v, exp, time, strtotime);
    SqlHit(exp, time, strtotime, v, later);
    r := SqlRequest(db, same, later, strtotime);
  }

  /** A fresh FileCache over an empty directory finds nothing: getCache is false. */
  method FileMiss(pairs: KeyMap, dir: string, time: nat, strtotime: DateParser) returns (r: Result<Value>)
    requires |pairs| > 0
    ensures r == Ok(Bool(false))
  {
    var fs := new FileSystem(map[]);
    r := FileRequest(fs, pairs, dir, time, strtotime);
  }

  /** A fresh SQLCache over an empty table finds no row: getCache is false. */
  method SqlMiss(pairs: KeyMap, time: nat, strtotime: DateParser) returns (r: Result<Value>)
    requires |pairs| > 0
    ensures r == Ok(Bool(false))
  {
    var db := new Database(map[]);
    r := SqlRequest(db, pairs, time, strtotime);
  }

  /** A fresh MCache over an empty server finds nothing: the miss sets the expiration to 0. */
  method MemcacheMiss(pairs: KeyMap, time: nat, strtotime: DateParser) returns (r: Result<Value>)
    requires |pairs| > 0
    ensures r == Ok(Bool(false))
  {
    var server := new MemcacheServer(map[]);
    var c := Cache.Open(Columns(pairs), time, strtotime, MemcacheBackend(server));
    r := c.value.GetCache(NotArray(Null));
  }

  /** setCache without flushing, then the end of the request: exactly one write, of that data. */
  method DeferredWrite(c: Cache, v: Value, exp: Value)
    requires |c.key| > 0
    modifies c, c.Store()
    ensures c.writes == old(c.writes) + 1
    ensures c.data == Encode(v) && c.expiration == Resolve(exp, c.time, c.strtotime)
    ensures c.Written(old(c.key), Encode(v), Resolve(exp, c.time, c.strtotime))
  {
    var o := c.SetCache(v, exp, false);
    c.Close();
  }

  /** setCache with flushing, then the end of the request: exactly one write; Close adds none. */
  method ImmediateWrite(c: Cache, v: Value, exp: Value)
    requires |c.key| > 0
    modifies c, c.Store()
    ensures c.writes == old(c.writes) + 1
    ensures c.data == Encode(v) && c.expiration == Resolve(exp, c.time, c.strtotime)
    ensures c.Written(old(c.key), Encode(v), Resolve(exp, c.time, c.strtotime))
  {
    var o := c.SetCache(v, exp, true);
    c.Close();
  }

  /** Two deferred setCache calls, then the end of the request: one write, of the last data. */
  method BatchedWrites(c: Cache, v1: Value, v2: Value, exp: Value)
    requires |c.key| > 0
    modifies c, c.Store()
    ensures c.writes == old(c.writes) + 1
    ensures c.data == Encode(v2)
    ensures c.Written(old(c.key), Encode(v2), Resolve(exp, c.time, c.strtotime))
  {
    var o1 := c.SetCache(v1, exp, false);
    var o2 := c.SetCache(v2, exp, false);
    c.Close();
  }

  /** getCache twice on one object, with the same key argument and nothing in between: both calls
      return the same result. */
  method GetTwice(c: Cache, arg: KeyArg) returns (r1: Result<Value>, r2: Result<Value>)
    modifies c, c.Store()
    ensures r1 == r2
  {
    match c.backend {
      case FileBackend(dir, fs) => r1, r2 := GetTwiceFile(c, arg, dir, fs);
      case MemcacheBackend(server) => r1, r2 := GetTwiceMemcache(c, arg, server);
      case SqlBackend(_) => r1, r2 := GetTwiceSql(c, arg);
    }
  }

  /** The first call's merge and in-place sort leave a key that the second merge does not change
      and whose key text is the same, so both reads see the same file. */
  method GetTwiceFile(c: Cache, arg: KeyArg, dir: string, fs: FileSystem)
    returns (r1: Result<Value>, r2: Result<Value>)
    requires c.backend == FileBackend(dir, fs)
    modifies c, fs
    ensures r1 == r2
  {
    ghost var k0 := c.key;
    ghost var files := fs.files;
    r1 := c.GetCache(arg);
    ghost var k1 := c.key;
    ghost var k := if KeyGiven(arg) && arg.Columns? then Merge(k0, arg.pairs) else k0;
    if KeyGiven(arg) && arg.Columns? {
      MergeKnown(k1, arg.pairs);
    }
    NormalizeStable(k, FileSeparator);
    assert FilePath(dir, k1) == FilePath(dir, k);
    assert fs.files == files;
    r2 := c.GetCache(arg);
  }

  /** As for the file backend, both reads see the same memcache item. */
  method GetTwiceMemcache(c: Cache, arg: KeyArg, server: MemcacheServer)
    returns (r1: Result<Value>, r2: Result<Value>)
    requires c.backend == MemcacheBackend(server)
    modifies c, server
    ensures r1 == r2
  {
    ghost var k0 := c.key;
    ghost var items := server.items;
    r1 := c.GetCache(arg);
    ghost var k1 := c.key;
    ghost var k := if KeyGiven(arg) && arg.Columns? then Merge(k0, arg.pairs) else k0;
    if KeyGiven(arg) && arg.Columns? {
      MergeKnown(k1, arg.pairs);
    }
    NormalizeStable(k, MemcacheSeparator);
    assert MemcacheKey(k1) == MemcacheKey(k);
    assert server.items == items;
    r2 := c.GetCache(arg);
  }

  /** The SQL backend does not reorder the key, and the first call's merge leaves a key that the
      second merge does not change. */
  method GetTwiceSql(c: Cache, arg: KeyArg) returns (r1: Result<Value>, r2: Result<Value>)
    requires c.backend.SqlBackend?
    modifies c, c.Store()
    ensures r1 == r2
  {
    r1 := c.GetCache(arg);
    ghost var k1 := c.key;
    if KeyGiven(arg) && arg.Columns? {
      MergeKnown(k1, arg.pairs);
    }
    r2 := c.GetCache(arg);
  }

  /** After a successful construction a key is set and no operation empties it, so setCache
      never reports NO_KEY. */
  method NoKeyUnreachable(pairs: KeyMap, more: KeyArg, v: Value, exp: Value, time: nat, strtotime: DateParser,
                          backend: Backend)
    returns (o: Outcome)
    requires |pairs| > 0
    modifies StoreOf(backend)
    ensures o == Done
  {
    var c := Cache.Open(Columns(pairs), time, strtotime, backend);
    var cache := c.value;
    var d := cache.DeleteCache(more);
    var g := cache.GetCache(more);
    var k := cache.SetKey(more);
    o := cache.SetCache(v, exp, false);
  }
}
