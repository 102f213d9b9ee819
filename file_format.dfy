/** FileCache's on-disk layout: the cache directory as the constructor cleans it, the path of a
    key's file, and the file's contents: the expiration, a newline, then the data. */
module FileFormat {
  import opened Outcomes
  import opened Decimal
  import opened PhpValue

  /** The characters PHP's trim() strips by default: space, tab, newline, carriage return, NUL and
      vertical tab. */
  const WhiteSpace: set<char> := {' ', '\t', '\n', '\r', 0 as char, 11 as char}

  /** ltrim($s, $cs): the longest suffix of `s` that does not start with a character of `cs`. */
  function LTrim(s: string, cs: set<char>): (r: string)
    ensures |r| <= |s| && r == s[|s| - |r|..]
    ensures |r| == 0 || r[0] !in cs
    ensures forall i | 0 <= i < |s| - |r| :: s[i] in cs
  {
    if |s| > 0 && s[0] in cs then
      var r := LTrim(s[1..], cs);
      assert forall i | 1 <= i < |s| - |r| :: s[i] == s[1..][i - 1];
      r
    else s
  }

  /** rtrim($s, $cs): the longest prefix of `s` that does not end with a character of `cs`. */
  function RTrim(s: string, cs: set<char>): (r: string)
    ensures |r| <= |s| && r == s[..|r|]
    ensures |r| == 0 || r[|r| - 1] !in cs
    ensures forall i | |r| <= i < |s| :: s[i] in cs
  {
    if |s| > 0 && s[|s| - 1] in cs then
      var r := RTrim(s[..|s| - 1], cs);
      assert forall i | |r| <= i < |s| - 1 :: s[i] == s[..|s| - 1][i];
      r
    else s
  }

  /** trim($s). */
  function Trim(s: string): string
  {
    RTrim(LTrim(s, WhiteSpace), WhiteSpace)
  }

  /** The cache directory the FileCache constructor keeps: the argument trimmed of white space and,
      when it then ends in '/', of all its trailing slashes. */
  function TrimDir(dir: string): (r: string)
    ensures |r| == 0 || r[|r| - 1] != '/'
    ensures |r| <= |Trim(dir)| && r == Trim(dir)[..|r|]
    ensures forall i | |r| <= i < |Trim(dir)| :: Trim(dir)[i] == '/'
  {
    var t := Trim(dir);
    if |t| > 0 && t[|t| - 1] == '/' then RTrim(t, {'/'}) else t
  }

  /** A non-empty trimmed directory does not start with white space. */
  lemma TrimDirHasNoOuterSpace(dir: string)
    requires |TrimDir(dir)| > 0
    ensures TrimDir(dir)[0] !in WhiteSpace
  {
    var l := LTrim(dir, WhiteSpace);
    var t := Trim(dir);
    assert t == l[..|t|];
    assert t[0] == l[0];
    assert TrimDir(dir)[0] == t[0];
  }

  /** The file a key is stored in. */
  function CachePath(dir: string, key: string): string
  {
    dir + "/" + key + ".cache"
  }

  /** The contents FileCache writes: the expiration and the data as strings, one newline between. */
  function Content(expiration: Value, data: Value): string
  {
    ToPhpString(expiration) + "\n" + ToPhpString(data)
  }

  /** strpos($s, "\n"): the first newline, or -1 when there is none. */
  function FindNewline(s: string): (i: int)
    ensures -1 <= i < |s|
    ensures i >= 0 ==> s[i] == '\n' && '\n' !in s[..i]
    ensures i < 0 ==> '\n' !in s
  {
    if |s| == 0 then -1
    else if s[0] == '\n' then 0
    else
      var i := FindNewline(s[1..]);
      assert s == [s[0]] + s[1..];
      if i < 0 then -1
      else
        assert s[..i + 1] == [s[0]] + s[1..][..i];
        i + 1
  }

  /** What a read does with the file's contents (None when the file is missing): nothing when the
      contents are falsy, otherwise the expiration is the text before the first newline and the data
      the text after it. Without a newline strpos is false, which substr reads as 0: the expiration
      is empty and the data loses its first character. */
  function ParseContent(file: Option<string>): (r: Option<(Value, Value)>)
    ensures r.Some? <==> file.Some? && Truthy(Str(file.value))
    ensures r.Some? ==> r.value.0.Str? && r.value.1.Str?
    ensures r.Some? && '\n' in file.value ==>
      '\n' !in r.value.0.s && r.value.0.s + "\n" + r.value.1.s == file.value
    ensures r.Some? && '\n' !in file.value ==> r.value == (Str(""), Str(file.value[1..]))
  {
    match file
    case None => None
    case Some(f) =>
      if !Truthy(Str(f)) then None
      else
        var pos := FindNewline(f);
        if pos >= 0 then
          assert f[..pos] + "\n" + f[pos + 1..] == f by {
            assert f == f[..pos] + [f[pos]] + f[pos + 1..];
          }
          Some((Str(f[..pos]), Str(f[pos + 1..])))
        else Some((Str(""), Str(f[1..])))
  }

  /** Written contents are never falsy, since they hold a newline. */
  lemma ContentIsTruthy(expiration: Value, data: Value)
    ensures Truthy(Str(Content(expiration, data)))
  {
    var c := Content(expiration, data);
    assert c[|ToPhpString(expiration)|] == '\n';
  }

  /** Reading back a written file gives the expiration and the data as strings, provided the
      expiration's text holds no newline. */
  lemma ReadWritten(expiration: Value, data: Value)
    requires '\n' !in ToPhpString(expiration)
    ensures ParseContent(Some(Content(expiration, data)))
      == Some((Str(ToPhpString(expiration)), Str(ToPhpString(data))))
  {
    var e, d := ToPhpString(expiration), ToPhpString(data);
    var c := Content(expiration, data);
    ContentIsTruthy(expiration, data);
    FirstNewline(e, d);
    assert c[..|e|] == e;
    assert c[|e| + 1..] == d;
  }

  lemma {:induction false} FirstNewline(e: string, d: string)
    requires '\n' !in e
    ensures FindNewline(e + "\n" + d) == |e|
  {
    var c := e + "\n" + d;
    if |e| > 0 {
      assert e[0] in e;
      assert c[1..] == e[1..] + "\n" + d;
      assert forall x | x in e[1..] :: x in e;
      FirstNewline(e[1..], d);
    }
  }

  /** Every expiration the cache sets itself is numeric, and numeric text has no newline. */
  lemma NumericHasNoNewline(v: Value)
    requires IsNumeric(v)
    ensures '\n' !in ToPhpString(v)
  {
    if v.Str? {
      var s := v.s;
      var signed := |s| > 0 && (s[0] == '-' || s[0] == '+');
      var body := if signed then s[1..] else s;
      forall i | 0 <= i < |s| ensures s[i] != '\n' {
        if signed {
          if i > 0 {
            assert s[i] == body[i - 1];
            assert IsDigit(body[i - 1]);
          }
        } else {
          assert IsDigit(body[i]);
        }
      }
    }
  }
}
