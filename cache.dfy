/** The cache object (Cache.php) with its three storage backends (FileCache.php, MCache.php,
    SQLCache.php): the key, the data and the expiration it holds, when it writes to the store and
    what each backend does to the store on a write, a read and a delete. */
module Caching {
  import opened Outcomes
  import opened Decimal
  import opened PhpValue
  import opened Compression
  import opened Serialization
  import opened Codec
  import opened Expiration
  import opened Keys
  import opened FileFormat
  import opened SqlText
  import opened Stores
  import opened MemcacheFetch

  /** The argument of setKey, getCache and deleteCache: an associative array of column => value
      pairs, or any value that is not an array. */
  datatype KeyArg = Columns(pairs: KeyMap) | NotArray(value: Scalar)

  /** A PHP value that is not an array. */
  type Scalar = v: Value | !v.Arr? witness Null

  /** `if ($key)`, the negation of `empty($key)`. */
  predicate KeyGiven(a: KeyArg)
  {
    match a
    case Columns(p) => |p| > 0
    case NotArray(v) => Truthy(v)
  }

  /** Which subclass the object is, with the store it talks to. */
  datatype Backend =
    | FileBackend(cacheDir: string, fs: FileSystem)
    | MemcacheBackend(server: MemcacheServer)
    | SqlBackend(db: Database)

  /** The object a backend keeps its entries in. */
  function StoreOf(b: Backend): object
  {
    match b
    case FileBackend(_, fs) => fs
    case MemcacheBackend(server) => server
    case SqlBackend(db) => db
  }

  const FileSeparator: string := "-"
  const MemcacheSeparator: string := ":"

  /** The key once a backend has addressed the store with it: FileCache and MCache sort it in
      place, SQLCache leaves it as it is. */
  function Arranged(b: Backend, k: seq<Pair>): seq<Pair>
  {
    if b.SqlBackend? then k else SortByValue(k)
  }

  /** FileCache's file for a key. */
  function FilePath(dir: string, k: seq<Pair>): string
  {
    CachePath(dir, Normalize(k, FileSeparator))
  }

  /** The file at a path, if there is one. */
  function Lookup(files: map<string, string>, path: string): Option<string>
  {
    if path in files then Some(files[path]) else None
  }

  /** The (expiration, data) pair after a file read: the parsed one, or the one held before. */
  function Loaded(parsed: Option<(Value, Value)>, before: (Value, Value)): (Value, Value)
  {
    if parsed.Some? then parsed.value else before
  }

  /** MCache's remote key for a key. */
  function MemcacheKey(k: seq<Pair>): string
  {
    Normalize(k, MemcacheSeparator)
  }

  /** The row SQLCache's upsert writes: the expiration through `%d`, the data compressed. */
  function UpsertRow(data: Value, expiration: Value): (r: Row)
    ensures Uncompress(r.data) == Some(ToPhpString(data))
    ensures IsNumeric(expiration) ==> r.expiration == NumericValue(expiration)
  {
    UncompressCompress(ToPhpString(data));
    Row(IntCast(expiration), Compress(ToPhpString(data)))
  }

  /** What SQLCache's read puts into data: the uncompressed column, or false when it does not
      uncompress. */
  function RowData(row: Row): (r: Value)
    ensures r.Str? ==> row.data == Compress(r.s)
    ensures !r.Str? ==> r == Bool(false) && Uncompress(row.data).None?
  {
    match Uncompress(row.data)
    case Some(s) => Str(s)
    case None => Bool(false)
  }

  /** What SQLCache's read puts into expiration: the column as the driver returns it, as text. */
  function RowExpiration(row: Row): (r: Value)
    ensures IsNumeric(r) && NumericValue(r) == row.expiration
  {
    LeadingIntOfString(row.expiration);
    Str(IntToString(row.expiration))
  }

  class Cache {
    /** time(), read once by the constructor. */
    const time: nat
    /** strtotime as this request sees it. */
    const strtotime: DateParser
    const backend: Backend
    var key: KeyMap
    var data: Value
    var expiration: Value
    var cacheNow: bool
    var dataPrimed: bool
    /** The number of _setCache calls so far. */
    ghost var writes: nat

    /** The store object the backend changes. */
    function Store(): object
    {
      StoreOf(backend)
    }

    /** The property defaults: an empty key, no data, no expiration, nothing to write. */
    constructor (time: nat, strtotime: DateParser, backend: Backend)
      ensures this.time == time && this.strtotime == strtotime && this.backend == backend
      ensures key == [] && data == Null && expiration == Null
      ensures !cacheNow && !dataPrimed && writes == 0
    {
      this.time := time;
      this.strtotime := strtotime;
      this.backend := backend;
      key := [];
      data := Null;
      expiration := Null;
      cacheNow := false;
      dataPrimed := false;
      writes := 0;
    }

    /** new FileCache($key, $dir), new MCache($key), new SQLCache($key): the clock is read, then
        the key is set; a bad key makes construction fail. */
    static method Open(arg: KeyArg, time: nat, strtotime: DateParser, backend: Backend) returns (r: Result<Cache>)
      ensures r.Ok? <==> arg.Columns? && |arg.pairs| > 0
      ensures r.Err? ==> r.error == if KeyGiven(arg) then InvalidKey else NoKey
      ensures r.Ok? ==> fresh(r.value) && r.value.time == time && r.value.strtotime == strtotime
      ensures r.Ok? ==> r.value.backend == backend && r.value.key == arg.pairs && |r.value.key| > 0
      ensures r.Ok? ==> r.value.data == Null && r.value.expiration == Null
      ensures r.Ok? ==> !r.value.cacheNow && !r.value.dataPrimed && r.value.writes == 0
    {
      var c := new Cache(time, strtotime, backend);
      var o := c.SetKey(arg);
      if o.Failed? {
        return Err(o.error);
      }
      assert c.key == Merge([], arg.pairs);
      MergeIntoEmpty(arg.pairs);
      r := Ok(c);
    }

    /** new FileCache($key, $dir): the directory is trimmed before the key is set. */
    static method OpenFileCache(arg: KeyArg, dir: string, fs: FileSystem, time: nat, strtotime: DateParser)
      returns (r: Result<Cache>)
      ensures r.Ok? <==> arg.Columns? && |arg.pairs| > 0
      ensures r.Err? ==> r.error == if KeyGiven(arg) then InvalidKey else NoKey
      ensures r.Ok? ==> fresh(r.value) && r.value.backend == FileBackend(TrimDir(dir), fs)
      ensures r.Ok? ==> r.value.key == arg.pairs && r.value.time == time && r.value.strtotime == strtotime
      ensures r.Ok? ==> r.value.data == Null && r.value.expiration == Null && !r.value.dataPrimed
      ensures r.Ok? ==> r.value.writes == 0
    {
      r := Open(arg, time, strtotime, FileBackend(TrimDir(dir), fs));
    }

    // ------------------------------------------------------------ the key

    /** setKey: an empty argument is NO_KEY and any other non-array INVALID_KEY, both leaving the
        key as it was; an array is merged into the key. */
    method SetKey(arg: KeyArg) returns (o: Outcome)
      modifies this`key
      ensures !KeyGiven(arg) ==> o == Failed(NoKey)
      ensures KeyGiven(arg) && arg.NotArray? ==> o == Failed(InvalidKey)
      ensures o.Failed? ==> key == old(key)
      ensures o == Done <==> KeyGiven(arg) && arg.Columns?
      ensures o == Done ==> key == Merge(old(key), arg.pairs)
      ensures o == Done ==> ToMap(key) == ToMap(old(key)) + ToMap(arg.pairs) && |key| > 0
      ensures |key| >= |old(key)|
    {
      if !KeyGiven(arg) {
        return Failed(NoKey);
      }
      if arg.NotArray? {
        return Failed(InvalidKey);
      }
      key := Merge(key, arg.pairs);
      return Done;
    }

    /** getKey. */
    function GetKey(): (r: KeyMap)
      reads this
      ensures r == key
    {
      key
    }

    /** FileCache::_getKey (separator "-") and MCache::_getKey (":"): asort($this->key), then the
        loop joining each column, the separator and the value. */
    method NormalizedKey(sep: string) returns (s: string)
      modifies this`key
      ensures key == SortByValue(old(key)) && ToMap(key) == ToMap(old(key)) && |key| == |old(key)|
      ensures s == Normalize(old(key), sep) == Normalize(key, sep)
    {
      key := SortByValue(key);
      s := JoinKey(key, sep);
      NormalizeStable(old(key), sep);
    }

    // ------------------------------------------------------------ data and expiration

    /** setData: an array is stored serialized, anything else as it is; either way the data is
        now waiting to be written. */
    method SetData(v: Value)
      modifies this`data, this`dataPrimed
      ensures data == Encode(v) && dataPrimed
      ensures v.Arr? ==> data == Str(Serialize(v))
      ensures !v.Arr? ==> data == v
    {
      if v.Arr? {
        data := Str(Serialize(v));
      } else {
        data := v;
      }
      dataPrimed := true;
    }

    /** getData: the data unserialized, or the data itself when it does not unserialize. */
    function GetData(): (r: Value)
      reads this
      ensures r == data || Unserialize(ToPhpString(data)) == Some(r)
      ensures Unserialize(ToPhpString(data)).None? ==> r == data
    {
      Decode(data)
    }

    /** setExpiration, with the argument it documents: a timestamp in the future is kept, anything
        else goes through strtotime, and a failed or past result becomes a day from now. */
    method SetExpiration(arg: Value)
      modifies this`expiration
      ensures expiration == Resolve(arg, time, strtotime)
      ensures !Expired(expiration, time)
    {
      expiration := Resolve(arg, time, strtotime);
    }

    /** getExpiration: without a format, the expiration; with one, the call to the undefined
        strfrtime is a fatal error, shown as None. */
    function GetExpiration(format: Value): (r: Option<Value>)
      reads this
      ensures r.Some? <==> !Truthy(format)
      ensures r.Some? ==> r.value == expiration
    {
      if Truthy(format) then None else Some(expiration)
    }

    /** is_expired. */
    predicate IsExpired()
      reads this
      ensures IsExpired() <==> Expired(expiration, time)
    {
      Expired(expiration, time)
    }

    // ------------------------------------------------------------ what each backend does to its store

    /** The store after _setCache for key `k` with data `d` and expiration `e`. */
    twostate predicate Written(k: seq<Pair>, d: Value, e: Value)
      reads Store()
    {
      match backend
      case FileBackend(dir, fs) =>
        fs.files == old(fs.files)[FilePath(dir, k) := Content(e, d)]
      case MemcacheBackend(server) =>
        server.items == old(server.items)[MemcacheKey(k) := MemItem(d, e)]
      case SqlBackend(db) =>
        && db.log == old(db.log) + [Statement(UpsertText(|k|), UpsertParams(k, d, e))]
        && db.rows == old(db.rows)[ToMap(k) := UpsertRow(d, e)]
    }

    /** The store after _deleteCache for key `k`. */
    twostate predicate Deleted(k: seq<Pair>)
      reads Store()
    {
      match backend
      case FileBackend(dir, fs) =>
        fs.files == old(fs.files) - {FilePath(dir, k)}
      case MemcacheBackend(server) =>
        server.items == old(server.items) - {MemcacheKey(k)}
      case SqlBackend(db) =>
        && db.log == old(db.log) + [Statement(DeleteText(|k|), KeyParams(k))]
        && db.rows == old(db.rows) - {ToMap(k)}
    }

    /** The store, the data and the expiration after _getCache for key `k`. */
    twostate predicate ReadFrom(k: seq<Pair>)
      reads this, Store()
    {
      match backend
      case FileBackend(dir, fs) =>
        && fs.files == old(fs.files)
        && var path := FilePath(dir, k);
           (expiration, data) == Loaded(ParseContent(Lookup(old(fs.files), path)), (old(expiration), old(data)))
      case MemcacheBackend(server) =>
        && server.items == old(server.items)
        && var item := if MemcacheKey(k) in old(server.items) then Some(old(server.items)[MemcacheKey(k)]) else None;
           (data, expiration) == Fetch(item, old(expiration))
      case SqlBackend(db) =>
        && db.rows == old(db.rows)
        && db.log == old(db.log) + [Statement(SelectText(|k|), KeyParams(k))]
        && if ToMap(k) in old(db.rows) then
             expiration == RowExpiration(old(db.rows)[ToMap(k)]) && data == RowData(old(db.rows)[ToMap(k)])
           else
             expiration == old(expiration) && data == old(data)
    }

    /** _setCache of the backend. */
    method WriteBack()
      modifies this`key, this`writes, Store()
      ensures Written(old(key), data, expiration)
      ensures key == Arranged(backend, old(key)) && ToMap(key) == ToMap(old(key)) && |key| == |old(key)|
      ensures writes == old(writes) + 1
    {
      match backend {
        case FileBackend(dir, fs) =>
          var k := NormalizedKey(FileSeparator);
          fs.Write(CachePath(dir, k), Content(expiration, data));
        case MemcacheBackend(server) =>
          var k := NormalizedKey(MemcacheSeparator);
          server.Set(k, MemItem(data, expiration));
        case SqlBackend(db) =>
          var query, values := BuildUpsert(key, data, expiration);
          db.Replace(Statement(query, values), ToMap(key), UpsertRow(data, expiration));
      }
      writes := writes + 1;
    }

    /** _deleteCache of the backend. */
    method DeleteBack()
      modifies this`key, Store()
      ensures Deleted(old(key))
      ensures key == Arranged(backend, old(key)) && ToMap(key) == ToMap(old(key)) && |key| == |old(key)|
    {
      match backend {
        case FileBackend(dir, fs) =>
          var k := NormalizedKey(FileSeparator);
          fs.Unlink(CachePath(dir, k));
        case MemcacheBackend(server) =>
          var k := NormalizedKey(MemcacheSeparator);
          server.Delete(k);
        case SqlBackend(db) =>
          var query, values := BuildDelete(key);
          db.Delete(Statement(query, values), ToMap(key));
      }
    }

    /** FileCache::_getCache: the file at the key's path, split at its first newline. */
    method ReadFile(dir: string, fs: FileSystem)
      requires backend == FileBackend(dir, fs)
      modifies this`key, this`data, this`expiration, fs
      ensures ReadFrom(old(key))
      ensures key == Arranged(backend, old(key)) && ToMap(key) == ToMap(old(key)) && |key| == |old(key)|
    {
      var k := NormalizedKey(FileSeparator);
      var file := fs.Read(CachePath(dir, k));
      assert file == Lookup(old(fs.files), FilePath(dir, old(key)));
      var parsed := ParseContent(file);
      if parsed.Some? {
        expiration := parsed.value.0;
        data := parsed.value.1;
      }
    }

    /** MCache::_getCache, with the expiration of the stored item taken on a hit. */
    method ReadMemcache(server: MemcacheServer)
      requires backend == MemcacheBackend(server)
      modifies this`key, this`data, this`expiration, server
      ensures ReadFrom(old(key))
      ensures key == Arranged(backend, old(key)) && ToMap(key) == ToMap(old(key)) && |key| == |old(key)|
    {
      var k := NormalizedKey(MemcacheSeparator);
      var item := server.Lookup(k);
      var fetched := Fetch(item, expiration);
      data := fetched.0;
      expiration := fetched.1;
    }

    /** SQLCache::_getCache: one SELECT on the key's columns; a row found replaces both properties. */
    method ReadSql(db: Database)
      requires backend == SqlBackend(db)
      modifies this`data, this`expiration, db
      ensures ReadFrom(old(key))
      ensures key == old(key)
    {
      var query, values := BuildSelect(key);
      var row := db.Fetch(Statement(query, values), ToMap(key));
      if row.Some? {
        expiration := RowExpiration(row.value);
        data := RowData(row.value);
      }
    }

    /** _getCache of the backend. */
    method ReadBack()
      modifies this`key, this`data, this`expiration, Store()
      ensures ReadFrom(old(key))
      ensures key == Arranged(backend, old(key)) && ToMap(key) == ToMap(old(key)) && |key| == |old(key)|
    {
      match backend {
        case FileBackend(dir, fs) => ReadFile(dir, fs);
        case MemcacheBackend(server) => ReadMemcache(server);
        case SqlBackend(db) => ReadSql(db);
      }
    }

    // ------------------------------------------------------------ the lifecycle

    /** setCache: the data and the expiration are set first; with no key that is NO_KEY, with one the
        store is written now when asked, and otherwise on Close. */
    method SetCache(v: Value, exp: Value, flush: bool) returns (o: Outcome)
      modifies this`data, this`expiration, this`cacheNow, this`dataPrimed, this`key, this`writes, Store()
      ensures data == Encode(v) && expiration == Resolve(exp, time, strtotime) && cacheNow == flush
      ensures o == if |old(key)| == 0 then Failed(NoKey) else Done
      ensures dataPrimed <==> |old(key)| == 0 || !flush
      ensures |old(key)| > 0 && flush ==>
        Written(old(key), data, expiration) && key == Arranged(backend, old(key)) && writes == old(writes) + 1
      ensures !(|old(key)| > 0 && flush) ==> unchanged(Store()) && key == old(key) && writes == old(writes)
      ensures ToMap(key) == ToMap(old(key)) && |key| == |old(key)|
    {
      Stage(v, exp, flush);
      if |key| == 0 {
        return Failed(NoKey);
      }
      if flush {
        WriteBack();
        dataPrimed := false;
      }
      return Done;
    }

    /** The start of setCache: the data, the expiration and the write mode are set. */
    method Stage(v: Value, exp: Value, flush: bool)
      modifies this`data, this`expiration, this`cacheNow, this`dataPrimed
      ensures data == Encode(v) && expiration == Resolve(exp, time, strtotime) && cacheNow == flush
      ensures dataPrimed
    {
      SetData(v);
      SetExpiration(exp);
      cacheNow := flush;
    }

    /** The first half of getCache: a given key is merged (a non-array is INVALID_KEY), then the
        store is read. */
    method Load(arg: KeyArg) returns (o: Outcome)
      modifies this`key, this`data, this`expiration, Store()
      ensures KeyGiven(arg) && arg.NotArray? ==>
        o == Failed(InvalidKey) && key == old(key) && data == old(data) && expiration == old(expiration)
        && unchanged(Store())
      ensures !(KeyGiven(arg) && arg.NotArray?) ==>
        var k := if KeyGiven(arg) then Merge(old(key), arg.pairs) else old(key);
        o == Done && ReadFrom(k) && key == Arranged(backend, k)
      ensures |key| >= |old(key)|
    {
      if KeyGiven(arg) {
        o := SetKey(arg);
        if o.Failed? {
          return;
        }
      }
      ReadBack();
      return Done;
    }

    /** getCache: after the read, false when the expiration is stale, the data otherwise. */
    method GetCache(arg: KeyArg) returns (r: Result<Value>)
      modifies this`key, this`data, this`expiration, Store()
      ensures KeyGiven(arg) && arg.NotArray? ==>
        r == Err(InvalidKey) && key == old(key) && data == old(data) && expiration == old(expiration)
        && unchanged(Store())
      ensures !(KeyGiven(arg) && arg.NotArray?) ==>
        var k := if KeyGiven(arg) then Merge(old(key), arg.pairs) else old(key);
        && ReadFrom(k) && key == Arranged(backend, k)
        && r == Ok(if Expired(expiration, time) then Bool(false) else Decode(data))
      ensures |key| >= |old(key)|
    {
      var o := Load(arg);
      if o.Failed? {
        return Err(o.error);
      }
      if IsExpired() {
        return Ok(Bool(false));
      }
      return Ok(GetData());
    }

    /** deleteCache: a given key is merged first (a non-array is INVALID_KEY); then the store's
        entry for the key is removed. */
    method DeleteCache(arg: KeyArg) returns (o: Outcome)
      modifies this`key, Store()
      ensures KeyGiven(arg) && arg.NotArray? ==> o == Failed(InvalidKey) && key == old(key) && unchanged(Store())
      ensures !(KeyGiven(arg) && arg.NotArray?) ==>
        var k := if KeyGiven(arg) then Merge(old(key), arg.pairs) else old(key);
        o == Done && Deleted(k) && key == Arranged(backend, k)
      ensures |key| >= |old(key)|
    {
      if KeyGiven(arg) {
        o := SetKey(arg);
        if o.Failed? {
          return;
        }
      }
      DeleteBack();
      return Done;
    }

    /** __destruct: data set but not yet written is written now. */
    method Close()
      modifies this`key, this`writes, Store()
      ensures old(dataPrimed) ==>
        Written(old(key), data, expiration) && key == Arranged(backend, old(key)) && writes == old(writes) + 1
      ensures !old(dataPrimed) ==> unchanged(Store()) && key == old(key) && writes == old(writes)
      ensures |key| == |old(key)|
    {
      if dataPrimed {
        WriteBack();
      }
    }
  }
}
