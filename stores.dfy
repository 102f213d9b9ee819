/** The storage the three backends talk to, each reduced to the state the cache can observe: a
    file system under the cache directory, a memcache server, and a database table. */
module Stores {
  import opened Outcomes
  import opened PhpValue

  /** The files under the cache directory: path => contents. */
  class FileSystem {
    var files: map<string, string>

    constructor (files: map<string, string>)
      ensures this.files == files
    {
      this.files := files;
    }

    /** fopen($path, 'w'), fwrite, fclose: the file then holds exactly `content`. */
    method Write(path: string, content: string)
      modifies this
      ensures files == old(files)[path := content]
    {
      files := files[path := content];
    }

    /** @unlink($path): removes the file; a missing file is no error. */
    method Unlink(path: string)
      modifies this
      ensures files == old(files) - {path}
    {
      files := files - {path};
    }

    /** @file_get_contents($path): the contents, or None (PHP's false) when there is no such file. */
    method Read(path: string) returns (r: Option<string>)
      ensures r.Some? <==> path in files
      ensures r.Some? ==> r.value == files[path]
    {
      if path in files {
        r := Some(files[path]);
      } else {
        r := None;
      }
    }
  }

  /** What memcache keeps for a key: the value and the expiration it was set with. */
  datatype MemItem = MemItem(data: Value, expiration: Value)

  /** A memcache server: key => item. */
  class MemcacheServer {
    var items: map<string, MemItem>

    constructor (items: map<string, MemItem>)
      ensures this.items == items
    {
      this.items := items;
    }

    /** Memcache::set. */
    method Set(key: string, item: MemItem)
      modifies this
      ensures items == old(items)[key := item]
    {
      items := items[key := item];
    }

    /** Memcache::delete: a missing key is no error. */
    method Delete(key: string)
      modifies this
      ensures items == old(items) - {key}
    {
      items := items - {key};
    }

    /** The stored item, with the expiration it was set with, or None on a miss. */
    method Lookup(key: string) returns (r: Option<MemItem>)
      ensures r.Some? <==> key in items
      ensures r.Some? ==> r.value == items[key]
    {
      if key in items {
        r := Some(items[key]);
      } else {
        r := None;
      }
    }

    /** Memcache::get: the stored value, or false on a miss. */
    method Get(key: string) returns (r: Value)
      ensures key in items ==> r == items[key].data
      ensures key !in items ==> r == Bool(false)
    {
      if key in items {
        r := items[key].data;
      } else {
        r := Bool(false);
      }
    }
  }

  /** A row of data_cache: the expiration column (an integer) and the data column (compressed text). */
  datatype Row = Row(expiration: int, data: string)

  /** A statement sent to the database: the query text and its parameters. */
  datatype Statement = Statement(query: string, values: seq<Value>)

  /** The data_cache table, keyed by the column => value mapping of the cache key, and the
      statements sent to it, in order. */
  class Database {
    var rows: map<map<string, string>, Row>
    var log: seq<Statement>

    constructor (rows: map<map<string, string>, Row>)
      ensures this.rows == rows && log == []
    {
      this.rows := rows;
      log := [];
    }

    /** db_query of a REPLACE INTO: the row for `columns` becomes `row`. */
    method Replace(s: Statement, columns: map<string, string>, row: Row)
      modifies this
      ensures log == old(log) + [s]
      ensures rows == old(rows)[columns := row]
    {
      log := log + [s];
      rows := rows[columns := row];
    }

    /** db_query of a DELETE: the row for `columns` is gone; deleting nothing is no error. */
    method Delete(s: Statement, columns: map<string, string>)
      modifies this
      ensures log == old(log) + [s]
      ensures rows == old(rows) - {columns}
    {
      log := log + [s];
      rows := rows - {columns};
    }

    /** db_fetch_object(db_query(...)) of a SELECT: the row for `columns`, or None when there is none. */
    method Fetch(s: Statement, columns: map<string, string>) returns (r: Option<Row>)
      modifies this
      ensures log == old(log) + [s] && rows == old(rows)
      ensures r.Some? <==> columns in rows
      ensures r.Some? ==> r.value == rows[columns]
    {
      log := log + [s];
      if columns in rows {
        r := Some(rows[columns]);
      } else {
        r := None;
      }
    }
  }
}
