/** gzcompress/gzuncompress as used by the SQL backend. The zlib byte format is not modelled: a
    compressed string is a two-character header followed by the payload, which is enough to state
    that gzuncompress inverts gzcompress and rejects text that is not a compressed stream. */
module Compression {
  import opened Outcomes

  const Header: string := ['x', 0x9C as char]

  function Compress(s: string): (c: string)
    ensures |c| == |s| + |Header|
  {
    Header + s
  }

  /** None stands for PHP's false, returned for data that is not a compressed stream. */
  function Uncompress(c: string): (r: Option<string>)
    ensures r.Some? ==> Compress(r.value) == c
  {
    if |c| >= 2 && c[..2] == Header then
      assert Header + c[2..] == c;
      Some(c[2..])
    else None
  }

  lemma UncompressCompress(s: string)
    ensures Uncompress(Compress(s)) == Some(s)
  {
    assert Compress(s)[..2] == Header;
    assert Compress(s)[2..] == s;
  }
}
