# A verified model of a PHP data cache

The repository is a small PHP caching library. The abstract class `Cache` holds:

- a key: an associative array of column => value pairs;
- the data to cache;
- an expiration, a Unix timestamp.

Three subclasses keep the entries in a store:

- `FileCache` writes one file per key under a cache directory;
- `MCache` uses a memcache server;
- `SQLCache` uses a `data_cache` table.

A request builds a cache object for a key, then calls one of:

- `setCache`: written now, or when the object is destroyed;
- `getCache`: the data, or `false` when the entry is missing or stale;
- `deleteCache`.

This project models that core in Dafny and proves properties of the model.

- **Values.** `PhpValue` models the PHP values involved: null, booleans, ints, strings and ordered arrays. It also models PHP's conversions to boolean, to string and to int, and comparison with an int.
- **Data encoding.** `setData` and `getData` serialize arrays in the layout of PHP's `serialize` format (`Serialization`, `Codec`). The SQL backend compresses what it writes (`Compression`).
- **Expiration.** `setExpiration` and `is_expired` are in `Expiration`.
- **The key.** `setKey` merges with `array_merge` (`Keys.Merge`). The file and memcache backends turn the key into one string by sorting it by value (`asort`) and concatenating column, separator and value (`Keys.Normalize`). The SQL backend builds `REPLACE`/`DELETE`/`SELECT` statements with `%s`/`%d` placeholders (`SqlText`).
- **Stores.** `Stores` has a file system, a memcache server and a database table. Each is a class whose methods change its state.
- **The cache object.** `Caching.Cache` is one class for all three backends. The backend is a constant field. The methods have the source's operations, frames and lifecycle. `__destruct` is `Close`.
- **Scenarios.** `Scenarios` chains whole requests. What one request writes, a second request reads back, for each backend. It also covers misses, deferred writes and the unreachability of `NO_KEY` after construction.

Exceptions become `Outcome`/`Result` values (`NoKey`, `InvalidKey`). `time()` and `strtotime` are parameters of the object.

In three places the code does something a reader may not expect, and the model follows the code:

- The key text is sorted *by value* (`asort`), not by column. Two keys with the same columns give the same file name or memcache key only when no two columns share a value (`Keys.NormalizeOrderIndependent`). Otherwise the order in which columns were set decides (`Keys.TiedValuesFollowInsertionOrder`).
- When a file has no newline, the expiration read back is `""` and the data loses its first character (the last `ensures` of `FileFormat.ParseContent`).
- Without key columns the SQL statements lose the end of `WHERE` (`SqlText.EmptyFilter`). `Scenarios.NoKeyUnreachable` shows that a constructed object always has a key.

In three other places the code does not do what its documentation evidently intends. There the cache object follows the intended behaviour, and the code as written is modelled beside it (see "## Findings").

## Model

| member | source | states |
|---|---|---|
| Decimal.NatToString | FileCache.php:60 | PHP's decimal text of a natural number: non-empty, all digits, no leading zero, and it denotes the number |
| Decimal.IntToString | FileCache.php:60 | an int's text is non-empty and holds no newline, so it can come first in a cache file |
| Decimal.ParseIntOfString | Cache.php:91 | reading an int's text back gives the int and leaves what follows untouched |
| Decimal.LeadingIntOfString | Cache.php:220 | the text of an int compares with an int as the int itself and is numeric |
| Serialization.Serialize | Cache.php:74 | serialize for the modelled values, in PHP's layout: its inverse is `Unserialize` (`Serialization.UnserializeSerialize`) |
| Serialization.Unserialize | Cache.php:91 | unserialize: the value parsed from the start of the text, or failure; it inverts `Serialize` |
| Serialization.ParseSerialize | Cache.php:74 | parsing the serialization of any value gives the value and leaves what follows, arrays included |
| Serialization.UnserializeSerialize | Cache.php:91 | unserialize(serialize(v)) == v for every value |
| Serialization.UntaggedIsNotSerialized | Cache.php:91 | text that does not start with a serialize type tag does not unserialize |
| Compression.Uncompress | SQLCache.php:96 | gzuncompress succeeds only on the compression of some text, and gives back that text |
| Compression.UncompressCompress | SQLCache.php:55 | gzuncompress(gzcompress(s)) == s |
| Codec.Encode | Cache.php:72-79 | setData's stored form is never an array: an array becomes its serialization, which unserializes back to it; any other value is kept as it is |
| Codec.DecodeAsWritten | Cache.php:90-93 | getData as written: the unserialized value when it is truthy, else the raw data (`Codec.DecodeAsWrittenNonEmptyArray`, `Codec.DecodeAsWrittenEmptyArray`) |
| Codec.Decode | Cache.php:90-93 | getData as intended: the unserialized value whenever unserialize succeeds, else the raw data (`Codec.DecodeEncodeArray`) |
| Codec.DecodeEncodeArray | Cache.php:90-93 | with the corrected getData every array comes back from its stored form |
| Codec.DecodeAsWrittenNonEmptyArray | Cache.php:90-93 | getData as written returns every non-empty array stored by setData |
| Codec.DecodeAsWrittenEmptyArray | Cache.php:92 | getData as written returns the text "a:0:{}" for a stored empty array, not the array |
| Codec.ScalarPassesThrough | Cache.php:76 | null, booleans, ints and untagged strings come back unchanged from getData, in both versions |
| Codec.DecodeVersionsAgree | Cache.php:92 | the two getData versions differ exactly when unserialize succeeds with a falsy value other than the data |
| Expiration.Resolve | Cache.php:157-172 | the expiration setExpiration sets: never stale, numeric and at least now; a numeric future argument is kept; otherwise strtotime's result when it is non-zero and not before now, else now + 86400 |
| Expiration.DefaultIsOneDay | Cache.php:167-170 | with no expiration given, the entry lives one day |
| Expiration.ParsedDateIsUsed | Cache.php:164-168 | for any argument that is not a numeric future time, numeric ones included, a date strtotime parses to a non-zero time not before now is used as it is |
| Expiration.FailedParseIsOneDay | Cache.php:164-171 | for any argument that is not a numeric future time, a failed parse, a zero or a time before now gives now + 86400 |
| Expiration.ResolveAsWritten | Cache.php:163-164 | as written the body reads an undefined variable: the argument is ignored |
| Expiration.AsWrittenIgnoresArgument | Cache.php:163-172 | as written every argument gives now + 86400 |
| Expiration.AsWrittenLosesTimestamp | Cache.php:164-165 | a timestamp an hour ahead is kept by the documented rule and replaced as written |
| Expiration.Expired | Cache.php:219-225 | is_expired: a falsy expiration is always stale; a positive numeric one is stale exactly when it is before now, so one equal to now is fresh |
| Expiration.ExpiredInt | Cache.php:219-225 | an int expiration is stale exactly when it is 0 or before now |
| Expiration.ExpiredUnset | Cache.php:220 | null, 0 and "" are always stale |
| Expiration.ExpiredPrinted | Cache.php:220 | an expiration read back as decimal text is stale exactly when the int was |
| Keys.Put | Cache.php:205 | one array_merge step: the columns stay distinct, existing columns keep their place, the mapping is updated by the pair |
| Keys.Merge | Cache.php:205 | array_merge of two keys: distinct columns, the union of the columns, the mapping of the first overwritten by the second, existing columns in place |
| Keys.MergeAppends | Cache.php:205 | array_merge appends the columns the key does not hold yet after the existing ones, in the merged array's order |
| Keys.MergeKnown | Cache.php:205 | merging an array whose columns the key already holds with the same values gives back the key, order included |
| Keys.MergeIntoEmpty | Cache.php:60 | merging into the empty initial key gives the argument itself |
| Keys.MergeOrderIrrelevant | Cache.php:194 | two setKey calls with disjoint columns give the same mapping in either order |
| Keys.Insert | FileCache.php:86 | inserting into a key sorted by value keeps it sorted and adds exactly the pair (as multisets) |
| Keys.InsertFields | FileCache.php:86 | insertion adds the pair's column and, for a new column, its mapping |
| Keys.SortByValue | FileCache.php:86 | asort: sorted by value, a permutation, same columns, same mapping |
| Keys.SortSorted | FileCache.php:86 | sorting a key that is already sorted changes nothing |
| Keys.NormalizeStable | MCache.php:83 | the key text of a key sorted in place by an earlier call is the same |
| Keys.SortedUnique | FileCache.php:86 | two sorted keys with the same injective mapping are equal |
| Keys.JoinKey | FileCache.php:87-91 | the foreach loop builds the concatenation of column, separator and value over the pairs |
| Keys.NormalizeOrderIndependent | FileCache.php:85-92 | keys with the same mapping and no shared values give the same key text |
| Keys.TiedValuesFollowInsertionOrder | FileCache.php:86 | with two columns sharing a value, the same mapping gives "a-1b-1" or "b-1a-1" by insertion order |
| FileFormat.LTrim | FileCache.php:42 | ltrim: the longest suffix not starting with a stripped character, all of whose dropped characters are stripped ones |
| FileFormat.RTrim | FileCache.php:43 | rtrim: the longest prefix not ending with a stripped character, all of whose dropped characters are stripped ones |
| FileFormat.TrimDir | FileCache.php:42-43 | the cache directory is a prefix of the trimmed argument, does not end in '/', and only '/' was cut |
| FileFormat.TrimDirHasNoOuterSpace | FileCache.php:42 | a non-empty cache directory does not start with white space |
| FileFormat.FindNewline | FileCache.php:78 | strpos of "\n": the first newline's index, or -1 when there is none |
| FileFormat.ParseContent | FileCache.php:76-81 | a read sets both fields exactly when the file exists and its contents are truthy, and both become strings; with a newline they are the text before the first newline and the text after it; without one the expiration is "" and the data is the contents minus their first character |
| FileFormat.ContentIsTruthy | FileCache.php:77 | the contents _setCache writes are always truthy |
| FileFormat.ReadWritten | FileCache.php:58-82 | reading a written file gives back the expiration's and the data's text, when the expiration's text has no newline |
| FileFormat.NumericHasNoNewline | FileCache.php:60 | a numeric expiration's text holds no newline |
| SqlText.KeyParams | SQLCache.php:49-52 | the parameters hold each column then its value, two per pair in key order |
| SqlText.AppendColumns | SQLCache.php:49-53 | the statement loop appends one fragment per column and the column and value to the parameters |
| SqlText.BuildUpsert | SQLCache.php:46-58 | _setCache's statement: the upsert text; the key parameters, then 'data', the compressed data, 'expiration' and the expiration; one placeholder per parameter |
| SqlText.BuildFilter | SQLCache.php:67-74 | the delete/select loop and the substr cut of the last four characters |
| SqlText.BuildDelete | SQLCache.php:66-76 | _deleteCache's statement, with one placeholder per parameter |
| SqlText.BuildSelect | SQLCache.php:83-91 | _getCache's statement with LIMIT 1, with one placeholder per parameter |
| SqlText.UpsertPlaceholders | SQLCache.php:47-58 | the upsert text has 2n + 4 placeholders for n key columns, as many as its parameters |
| SqlText.FilterPlaceholders | SQLCache.php:69-74 | the delete and select texts have 2n placeholders, as many as their parameters |
| SqlText.DeleteShape | SQLCache.php:68-74 | with key columns the delete is DELETE ... WHERE, then the tests joined by " AND ", then a space |
| SqlText.SelectShape | SQLCache.php:84-91 | with key columns the select is SELECT ... WHERE, then the tests joined by " AND ", then " LIMIT 1" |
| SqlText.SameColumns | SQLCache.php:50-51 | the upsert's parameters start with the same column and value parameters as the delete and the select |
| SqlText.EmptyFilter | SQLCache.php:74 | without key columns the cut eats into WHERE: "DELETE FROM data_cache WH…" |
| Stores.FileSystem.Write | FileCache.php:59-62 | fopen with 'w' then fwrite: the file holds exactly the content |
| Stores.FileSystem.Unlink | FileCache.php:69 | @unlink: the file is gone, a missing one is no error |
| Stores.FileSystem.Read | FileCache.php:76 | @file_get_contents: the contents, or false when there is no file |
| Stores.MemcacheServer.Set | MCache.php:61 | set: the key now holds the data with its expiration |
| Stores.MemcacheServer.Delete | MCache.php:68 | delete: the key is gone |
| Stores.MemcacheServer.Get | MCache.php:75 | get: the stored data, or false on a miss |
| Stores.MemcacheServer.Lookup | MCache.php:75 | the stored item with its expiration, or nothing on a miss |
| Stores.Database.Replace | SQLCache.php:60 | REPLACE INTO: the row for the key's mapping is the new row; the statement is logged |
| Stores.Database.Delete | SQLCache.php:76 | DELETE: the row for the key's mapping is gone; the statement is logged |
| Stores.Database.Fetch | SQLCache.php:93 | db_fetch_object of the SELECT: the row for the key's mapping, or false; the statement is logged and the rows are unchanged |
| MemcacheFetch.FetchAsWritten | MCache.php:74-79 | data is what get returned; a falsy result sets the expiration to 0, a hit leaves it as it was |
| MemcacheFetch.Fetch | MCache.php:74-79 | corrected: a miss is as written; a hit also takes the expiration the item was stored with |
| MemcacheFetch.FreshHitIsExpiredAsWritten | MCache.php:75-78 | as written, a hit on an object whose expiration is still null is stale |
| MemcacheFetch.FreshHitLostAsWritten | MCache.php:75-78 | as written, an item stored with a fresh expiration is lost on a new object |
| MemcacheFetch.HitUsesStoredExpiration | MCache.php:61 | corrected, a hit is stale exactly when the expiration it was set with is stale |
| MemcacheFetch.MissIsExpired | MCache.php:76-78 | a miss gives false with expiration 0, which is always stale |
| Caching.Cache.constructor | Cache.php:32-38 | the property defaults: empty key, null data and expiration, nothing primed |
| Caching.Cache.Open | Cache.php:58-61 | construction succeeds exactly for a non-empty array key, else NO_KEY or INVALID_KEY; the object's key is that array, the rest at defaults |
| Caching.Cache.OpenFileCache | FileCache.php:41-45 | FileCache's constructor: the directory is trimmed, then the key is set; it fails exactly as Open does, with NO_KEY or INVALID_KEY |
| Caching.Cache.SetKey | Cache.php:198-206 | empty is NO_KEY, a non-array INVALID_KEY, both leaving the key; an array is merged, and the key only grows |
| Caching.Cache.GetKey | Cache.php:214-216 | the current key |
| Caching.Cache.NormalizedKey | FileCache.php:85-92 | _getKey: the key is sorted in place and the result is its key text, the same as before sorting |
| Caching.Cache.SetData | Cache.php:72-79 | arrays are stored serialized, other values as they are; the data is primed |
| Caching.Cache.GetData | Cache.php:90-93 | the data unserialized, or the data itself when it does not unserialize |
| Caching.Cache.SetExpiration | Cache.php:163-172 | the expiration is Resolve of the argument, never stale |
| Caching.Cache.GetExpiration | Cache.php:182-188 | without a format the expiration; with one the undefined strfrtime is fatal |
| Caching.Cache.IsExpired | Cache.php:219-225 | is_expired on the object: `Expired` of its expiration against the time captured at construction |
| Caching.UpsertRow | SQLCache.php:54-58 | the row the upsert writes: its data column uncompresses to the data's text, and its expiration column is the expiration's number |
| Caching.RowData | SQLCache.php:96 | gzuncompress of the data column: a string exactly when the column is the compression of that string, else false |
| Caching.RowExpiration | SQLCache.php:95 | the expiration column as text: numeric, and it stands for the column's number |
| Caching.Cache.WriteBack | Cache.php:249 | _setCache of the backend: the store holds the entry for the key, data and expiration; FileCache and MCache sort the key |
| Caching.Cache.DeleteBack | Cache.php:255 | _deleteCache of the backend: the store's entry for the key is removed |
| Caching.Cache.ReadFile | FileCache.php:75-82 | FileCache's read: the fields are set from the key's file when there is a truthy one, the files are unchanged |
| Caching.Cache.ReadMemcache | MCache.php:74-79 | MCache's read, corrected: data and expiration from the key's item, or false and 0 |
| Caching.Cache.ReadSql | SQLCache.php:82-98 | SQLCache's read: a row for the key's mapping sets both fields, none leaves them |
| Caching.Cache.ReadBack | Cache.php:243 | _getCache of the backend: one of the three reads |
| Caching.Cache.Stage | Cache.php:105-107 | the start of setCache: data, expiration and write mode set |
| Caching.Cache.SetCache | Cache.php:104-118 | data and expiration are set; no key is NO_KEY; with cacheNow the entry is written once and nothing stays primed, else nothing is written and the data waits |
| Caching.Cache.Load | Cache.php:143-148 | a given array key is merged (a non-array is INVALID_KEY and nothing changes), then the store is read |
| Caching.Cache.GetCache | Cache.php:142-154 | after the read: false when the expiration is stale, otherwise the decoded data |
| Caching.Cache.DeleteCache | Cache.php:125-132 | a given array key is merged (a non-array is INVALID_KEY), then the entry is deleted |
| Caching.Cache.Close | Cache.php:232-236 | __destruct: primed data is written exactly once, otherwise the store is unchanged |
| Scenarios.StoredExpirationFresh | Cache.php:164-172 | any expiration setCache sets is positive, and at any later time it is stale exactly when that time is past it: as the value, printed into a file, or cast into an int column |
| Scenarios.SerializedArrayIsTruthy | MCache.php:76 | a serialized array is truthy, so a memcache hit on it is not taken for a miss |
| Scenarios.FileHit | FileCache.php:75-82 | the file setCache wrote for an array reads back at any time with an expiration that is stale exactly when that time is past the one set, and the corrected getData gives that array |
| Scenarios.FileHitAsWritten | FileCache.php:75-82 | with getData as written, that file gives back a non-empty array, but the text "a:0:{}" for an empty one |
| Scenarios.FileRequest | FileCache.php:75-82 | a new FileCache's getCache: false for a missing, falsy or stale file, else the decoded data |
| Scenarios.FileWriteRequest | FileCache.php:58-62 | a FileCache request with an immediate setCache: the key's file holds the expiration, a newline and the stored data |
| Scenarios.FileRoundTrip | FileCache.php:58-82 | with the corrected getData, an array written by one FileCache request is returned by a later request for the same key up to its expiration, and false after it |
| Scenarios.MemcacheRoundTrip | MCache.php:60-79 | with the corrected read and the corrected getData, an array written by one MCache request is returned by a later request up to its expiration, and false after it |
| Scenarios.SqlRequest | SQLCache.php:82-98 | a new SQLCache's getCache: false without a row or with a stale one, else the decoded data |
| Scenarios.SqlHit | SQLCache.php:55-57 | the row setCache wrote for an array reads back at any time with an expiration that is stale exactly when that time is past the one set, and the corrected getData gives that array |
| Scenarios.SqlHitAsWritten | SQLCache.php:55-57 | with getData as written, that row gives back a non-empty array, but the text "a:0:{}" for an empty one |
| Scenarios.SqlWriteRequest | SQLCache.php:46-60 | a SQLCache request with an immediate setCache: the row for the key's mapping holds the compressed data and the expiration |
| Scenarios.SqlRoundTrip | SQLCache.php:46-98 | with the corrected getData, an array written by one SQLCache request is returned by a later request up to its expiration, even with the key's columns in another order, and false after it |
| Scenarios.FileMiss | FileCache.php:76-77 | getCache on an empty directory is false |
| Scenarios.SqlMiss | SQLCache.php:93-94 | getCache on an empty table is false |
| Scenarios.MemcacheMiss | MCache.php:76-78 | getCache on an empty server is false |
| Scenarios.DeferredWrite | Cache.php:232-236 | setCache without cacheNow, then the end of the request: one write, and the store holds that data and expiration under the key |
| Scenarios.ImmediateWrite | Cache.php:114-117 | setCache with cacheNow, then the end of the request: one write in all, and the store holds that data and expiration under the key |
| Scenarios.BatchedWrites | Cache.php:101 | two deferred setCache calls then the end of the request: one write, and the store holds the last data under the key |
| Scenarios.GetTwice | Cache.php:142-154 | two getCache calls on one object with the same key argument and nothing in between return the same result, for every backend |
| Scenarios.NoKeyUnreachable | Cache.php:109-111 | after a successful construction, deleteCache, getCache and setKey never empty the key, so setCache never reports NO_KEY |

## Left out

- File, memcache and database I/O are not performed. Each store is a class holding the state the cache can observe. `fopen` failures, partial writes and concurrent requests are not modelled.
- Connecting to memcache at localhost:11211 is not modelled, and neither is the unused `NO_CONNECTION` message.
- Memcache's server-side expiry and the `MEMCACHE_COMPRESSED` flag are not modelled beyond this: the server stores the expiration with the item, and the model's server never drops items itself.
- Memcache type flags: the server returns exactly the `Value` it was given. Real memcache may return an int as a string.
- `gzcompress`: the zlib format is replaced by a two-character header before the payload. Only the inverse property and the rejection of non-compressed text are modelled.
- The SQL engine: `REPLACE`, `DELETE` and `SELECT` address the row whose key columns equal the key's mapping exactly. A row matched on a subset of its key columns is not modelled. Parameter substitution and escaping by `db_query` are not performed; the log keeps the query text and its parameters.
- Database typing: the expiration column is an int written through `%d` (PHP's `(int)` cast) and read back as decimal text.
- `getExpiration` with a format calls `strfrtime`, which is undefined and fatal. It is modelled as `None`; date formatting is not modelled.
- Floats, objects and references among PHP values are not modelled. `is_numeric` and the comparison with an int cover only integer strings, without leading white space, fractions or exponents.
- Keys.LexLe: `asort` compares numeric strings numerically. The model orders values as plain strings, so keys whose values are numeric strings may sort differently.
- Keys.SortByValue: `asort` of PHP 5 and 7 does not promise an order for equal values. The model keeps insertion order, as PHP 8 does.
- Keys.Merge: `array_merge` renumbers integer keys. Key columns are modelled as strings only.
- The `debug` property is not modelled, because no code reads it. The exception classes become `Outcome`/`Result` values.
- Destructor timing becomes an explicit `Close` call at the end of a request.
- `time()` and `strtotime` are parameters of the object; the date grammar of `strtotime` is not modelled.
- Serialization.Unserialize: PHP's `d:` (float), `O:` and `C:` (object), `r:` and `R:` (reference), `S:` and `E:` tags are not modelled. Text with these tags is treated as a failed unserialize, so getData returns it raw where PHP would decode it. Repeated array keys are all kept and integer-string keys such as `s:1:"5"` stay strings, where PHP keeps the last value for a key and converts the key to an int. `Value` can therefore hold arrays PHP cannot, and getData of such text differs from PHP.
- Serialization.Serialize: PHP's `s:<n>` counts bytes. The model counts characters, so strings with non-ASCII characters get a different length than PHP writes. Byte encodings are not modelled.
- Scenarios.FileHit: it is proved with the corrected getData. As written, an empty array comes back as "a:0:{}" (Scenarios.FileHitAsWritten).
- Scenarios.FileRoundTrip: it holds with the corrected getData that the cache object uses. As written it holds only for non-empty arrays (Scenarios.FileHitAsWritten).
- Scenarios.SqlHit: it is proved with the corrected getData. As written, an empty array comes back as "a:0:{}" (Scenarios.SqlHitAsWritten).
- Scenarios.MemcacheRoundTrip: it holds with the corrected read and the corrected getData. As written, getData returns an empty array as "a:0:{}" (`Codec.DecodeAsWrittenEmptyArray`), and the read loses every hit on a new object (`MemcacheFetch.FreshHitLostAsWritten`).
- Scenarios.SqlRoundTrip: it holds with the corrected getData that the cache object uses. As written it holds only for non-empty arrays (Scenarios.SqlHitAsWritten).
- Caching.Cache.GetData: the contract says only that the result is the data or its unserialization. The exact result is `Codec.Decode`, whose properties are the lemmas of `Codec`.

## Findings

| source | as written | input that shows it | evidently intended | confidence | as-written member | corrected member |
|---|---|---|---|---|---|---|
| Cache.php:163-164 | the parameter is spelled `$expriation`, while the body reads the undefined `$expiration`, which is null | `setExpiration(time() + 3600)`: strtotime("") fails and the expiration becomes now + 86400 | a future timestamp is kept, as the docblock says | high (not executed) | Expiration.AsWrittenLosesTimestamp | Expiration.Resolve |
| Cache.php:91-92 | `($data) ? $data : $this->data` falls back to the raw data whenever unserialize returns a falsy value | `setCache(array())`, then `getCache()` returns the string "a:0:{}" | the raw data only when unserialize fails | medium (not executed) | Codec.DecodeAsWrittenEmptyArray | Codec.DecodeEncodeArray |
| MCache.php:75-78 | a hit leaves `$this->expiration` as it was, which is null on a new object, so `is_expired` is true | a new MCache for a key stored with a fresh expiration: getCache returns false | a hit that the server still holds is returned | medium (not executed) | MemcacheFetch.FreshHitLostAsWritten | MemcacheFetch.HitUsesStoredExpiration |

Each corrected member is the one the cache object uses:

- `Caching.Cache.SetExpiration` uses `Expiration.Resolve`, not `Expiration.ResolveAsWritten`.
- `Caching.Cache.GetData` uses `Codec.Decode`, not `Codec.DecodeAsWritten`. The correction also changes stored strings that unserialize to a falsy value other than themselves. Examples are "b:0;" and "N;": as written getData returns the text, corrected it returns `false` or `null` (`Codec.DecodeVersionsAgree`).
- `Caching.Cache.ReadMemcache` uses `MemcacheFetch.Fetch`, not `MemcacheFetch.FetchAsWritten`.

For the third finding, the real server enforces the expiration it was given at `set` and holds only live items. The model's server keeps that expiration with the item, and the corrected read takes it over. The cache's own staleness check then stands in for the server's expiry. `Scenarios.MemcacheRoundTrip` relies on this correction and on the corrected getData.
