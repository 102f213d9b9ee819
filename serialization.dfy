/** PHP's serialize/unserialize text format, for the values of PhpValue:
    `N;`, `b:0;`/`b:1;`, `i:<int>;`, `s:<length>:"<chars>";` and `a:<count>:{<key><value>...}`. */
module Serialization {
  import opened Outcomes
  import opened Decimal
  import opened PhpValue

  function StrItem(s: string): string
  {
    "s:" + NatToString(|s|) + ":\"" + s + "\";"
  }

  function IntItem(i: int): string
  {
    "i:" + IntToString(i) + ";"
  }

  function KeyItem(k: ArrayKey): string
  {
    match k
    case IntKey(i) => IntItem(i)
    case StrKey(s) => StrItem(s)
  }

  /** serialize($v). */
  function Serialize(v: Value): string
    decreases v, 1
  {
    match v
    case Null => "N;"
    case Bool(b) => if b then "b:1;" else "b:0;"
    case Int(i) => IntItem(i)
    case Str(s) => StrItem(s)
    case Arr(es) => "a:" + NatToString(|es|) + ":{" + SerializeEntries(v, 0) + "}"
  }

  /** The key/value items of the entries of array `v` from index `i` on. */
  function SerializeEntries(v: Value, i: nat): string
    requires v.Arr? && i <= |v.entries|
    decreases v, 0, |v.entries| - i
  {
    if i == |v.entries| then ""
    else KeyItem(v.entries[i].0) + Serialize(v.entries[i].1) + SerializeEntries(v, i + 1)
  }

  /** Reads `i:<int>;` and returns the int and what follows. */
  function ParseIntItem(s: string): (r: Option<(int, string)>)
    ensures r.Some? ==> |r.value.1| < |s|
  {
    if |s| >= 2 && s[0] == 'i' && s[1] == ':' then
      match ParseInt(s[2..])
      case Some((i, rest)) => if |rest| > 0 && rest[0] == ';' then Some((i, rest[1..])) else None
      case None => None
    else None
  }

  /** Reads `s:<length>:"<chars>";` and returns the chars and what follows. */
  function ParseStrItem(s: string): (r: Option<(string, string)>)
    ensures r.Some? ==> |r.value.1| < |s|
  {
    if |s| >= 2 && s[0] == 's' && s[1] == ':' then
      match ParseNat(s[2..])
      case Some((n, rest)) =>
        if |rest| >= n + 4 && rest[0] == ':' && rest[1] == '"' && rest[n + 2] == '"' && rest[n + 3] == ';'
        then Some((rest[2..n + 2], rest[n + 4..]))
        else None
      case None => None
    else None
  }

  function ParseKeyItem(s: string): (r: Option<(ArrayKey, string)>)
    ensures r.Some? ==> |r.value.1| < |s|
  {
    match ParseIntItem(s)
    case Some((i, rest)) => Some((IntKey(i), rest))
    case None =>
      match ParseStrItem(s)
      case Some((t, rest)) => Some((StrKey(t), rest))
      case None => None
  }

  /** Reads one serialized value and returns it and what follows; None when the text is not one. */
  function Parse(s: string): (r: Option<(Value, string)>)
    ensures r.Some? ==> |r.value.1| < |s|
    decreases |s|, 1
  {
    if |s| < 2 then None
    else if s[0] == 'N' then
      if s[1] == ';' then Some((Null, s[2..])) else None
    else if s[0] == 'b' then
      if |s| >= 4 && s[1] == ':' && (s[2] == '0' || s[2] == '1') && s[3] == ';'
      then Some((Bool(s[2] == '1'), s[4..]))
      else None
    else if s[0] == 'i' then
      match ParseIntItem(s)
      case Some((i, rest)) => Some((Int(i), rest))
      case None => None
    else if s[0] == 's' then
      match ParseStrItem(s)
      case Some((t, rest)) => Some((Str(t), rest))
      case None => None
    else if s[0] == 'a' then ParseArrayItem(s)
    else None
  }

  /** Reads `a:<count>:{<key><value>...}`. */
  function ParseArrayItem(s: string): (r: Option<(Value, string)>)
    ensures r.Some? ==> |r.value.1| < |s|
    decreases |s|, 0
  {
    if |s| >= 2 && s[0] == 'a' && s[1] == ':' then
      match ParseNat(s[2..])
      case Some((n, rest)) =>
        if |rest| >= 2 && rest[0] == ':' && rest[1] == '{' then
          match ParseEntries(rest[2..], n)
          case Some((es, rest2)) =>
            if |rest2| > 0 && rest2[0] == '}' then Some((Arr(es), rest2[1..])) else None
          case None => None
        else None
      case None => None
    else None
  }

  /** Reads `n` key/value items. */
  function ParseEntries(s: string, n: nat): (r: Option<(seq<(ArrayKey, Value)>, string)>)
    ensures r.Some? ==> |r.value.1| <= |s| && |r.value.0| == n
    decreases |s|, 0
  {
    if n == 0 then Some(([], s))
    else
      match ParseKeyItem(s)
      case Some((k, rest)) =>
        (match Parse(rest)
         case Some((v, rest2)) =>
           (match ParseEntries(rest2, n - 1)
            case Some((es, rest3)) => Some(([(k, v)] + es, rest3))
            case None => None)
         case None => None)
      case None => None
  }

  /** unserialize($s): the value serialized at the start of `s` (what follows is ignored), or
      None where PHP returns false for a malformed string. */
  function Unserialize(s: string): Option<Value>
  {
    match Parse(s)
    case Some((v, _)) => Some(v)
    case None => None
  }

  lemma ParseIntItemOf(i: int, rest: string)
    ensures ParseIntItem(IntItem(i) + rest) == Some((i, rest))
  {
    var s := IntItem(i) + rest;
    assert s[2..] == IntToString(i) + (";" + rest);
    ParseIntOfString(i, ";" + rest);
  }

  lemma ParseStrItemOf(t: string, rest: string)
    ensures ParseStrItem(StrItem(t) + rest) == Some((t, rest))
  {
    var s := StrItem(t) + rest;
    var tail := ":\"" + t + "\";" + rest;
    assert s[2..] == NatToString(|t|) + tail;
    ParseNatOfString(|t|, tail);
    assert tail[2..|t| + 2] == t;
    assert tail[|t| + 4..] == rest;
  }

  lemma ParseKeyItemOf(k: ArrayKey, rest: string)
    ensures ParseKeyItem(KeyItem(k) + rest) == Some((k, rest))
  {
    match k
    case IntKey(i) => ParseIntItemOf(i, rest);
    case StrKey(t) =>
      ParseStrItemOf(t, rest);
      assert (KeyItem(k) + rest)[0] == 's';
  }

  lemma ParseScalarOf(v: Value, rest: string)
    requires v.Null? || v.Bool?
    ensures Parse(Serialize(v) + rest) == Some((v, rest))
  {
    var s := Serialize(v) + rest;
    assert s[0] == Serialize(v)[0] && s[1] == Serialize(v)[1];
    if v.Bool? {
      assert s[2] == Serialize(v)[2] && s[3] == Serialize(v)[3];
      assert s[4..] == rest;
    } else {
      assert s[2..] == rest;
    }
  }

  lemma ParseArrayFromParts(s: string, n: nat, tail: string, es: seq<(ArrayKey, Value)>, close: string)
    requires |s| >= 2 && s[0] == 'a' && s[1] == ':'
    requires ParseNat(s[2..]) == Some((n, tail))
    requires |tail| >= 2 && tail[0] == ':' && tail[1] == '{'
    requires ParseEntries(tail[2..], n) == Some((es, close))
    requires |close| > 0 && close[0] == '}'
    ensures ParseArrayItem(s) == Some((Arr(es), close[1..]))
  {
  }

  lemma ParseArrayOf(n: nat, t: string, es: seq<(ArrayKey, Value)>, rest: string)
    requires ParseEntries(t, n) == Some((es, "}" + rest))
    ensures ParseArrayItem("a:" + NatToString(n) + ":{" + t) == Some((Arr(es), rest))
  {
    var digits := NatToString(n);
    var tail := ":{" + t;
    var s := "a:" + digits + ":{" + t;
    assert s == "a:" + (digits + tail);
    assert s[2..] == digits + tail;
    ParseNatOfString(n, tail);
    assert tail[2..] == t;
    var close := "}" + rest;
    assert close[1..] == rest;
    ParseArrayFromParts(s, n, tail, es, close);
  }

  lemma ParseOfIntItem(i: int, rest: string)
    ensures Parse(IntItem(i) + rest) == Some((Int(i), rest))
  {
    ParseIntItemOf(i, rest);
    assert (IntItem(i) + rest)[0] == 'i';
  }

  lemma ParseOfStrItem(t: string, rest: string)
    ensures Parse(StrItem(t) + rest) == Some((Str(t), rest))
  {
    ParseStrItemOf(t, rest);
    assert (StrItem(t) + rest)[0] == 's';
  }

  /** Round trip: reading back what serialize wrote gives the value, and leaves what followed it. */
  lemma {:induction false} ParseSerialize(v: Value, rest: string)
    ensures Parse(Serialize(v) + rest) == Some((v, rest))
    decreases v, 2
  {
    match v
    case Null => ParseScalarOf(v, rest);
    case Bool(_) => ParseScalarOf(v, rest);
    case Int(i) => ParseOfIntItem(i, rest);
    case Str(t) => ParseOfStrItem(t, rest);
    case Arr(_) => ParseSerializeArray(v, rest);
  }

  lemma {:induction false} ParseSerializeArray(v: Value, rest: string)
    requires v.Arr?
    ensures Parse(Serialize(v) + rest) == Some((v, rest))
    decreases v, 1
  {
    var body := SerializeEntries(v, 0);
    ParseSerializeEntries(v, 0, |v.entries|, "}" + rest);
    EntriesFromStart(v, |v.entries|, body + ("}" + rest), "}" + rest);
    ParseArrayOf(|v.entries|, body + ("}" + rest), v.entries, rest);
    UnfoldArray(v, rest);
    ParseOfArrayItem(Serialize(v) + rest);
  }

  lemma EntriesFromStart(v: Value, n: nat, s: string, rest: string)
    requires v.Arr? && n == |v.entries|
    requires ParseEntries(s, n) == Some((v.entries[0..], rest))
    ensures ParseEntries(s, n) == Some((v.entries, rest))
  {
    assert v.entries[0..] == v.entries;
  }

  lemma UnfoldArray(v: Value, rest: string)
    requires v.Arr?
    ensures Serialize(v) + rest == "a:" + NatToString(|v.entries|) + ":{" + (SerializeEntries(v, 0) + ("}" + rest))
    ensures (Serialize(v) + rest)[0] == 'a' && |Serialize(v) + rest| >= 2
  {
  }

  lemma ParseOfArrayItem(s: string)
    requires |s| >= 2 && s[0] == 'a'
    ensures Parse(s) == ParseArrayItem(s)
  {
  }

  lemma {:induction false} ParseSerializeEntries(v: Value, i: nat, n: nat, rest: string)
    requires v.Arr? && i <= |v.entries| && n == |v.entries| - i
    ensures ParseEntries(SerializeEntries(v, i) + rest, n) == Some((v.entries[i..], rest))
    decreases v, 0, n
  {
    if i < |v.entries| {
      ParseSerialize(v.entries[i].1, SerializeEntries(v, i + 1) + rest);
      ParseSerializeEntries(v, i + 1, n - 1, rest);
      EntriesStep(v, i, n, rest);
    } else {
      EntriesEnd(v, i, rest);
    }
  }

  /** One entry more: its key item, then its value, then the entries after it. */
  lemma EntriesStep(v: Value, i: nat, n: nat, rest: string)
    requires v.Arr? && i < |v.entries| && n == |v.entries| - i
    requires Parse(Serialize(v.entries[i].1) + (SerializeEntries(v, i + 1) + rest))
          == Some((v.entries[i].1, SerializeEntries(v, i + 1) + rest))
    requires ParseEntries(SerializeEntries(v, i + 1) + rest, n - 1) == Some((v.entries[i + 1..], rest))
    ensures ParseEntries(SerializeEntries(v, i) + rest, n) == Some((v.entries[i..], rest))
  {
    UnfoldEntries(v, i, rest);
    SuffixFrom(v.entries, i);
    ParseEntriesCons(SerializeEntries(v, i) + rest, n, v.entries[i], SerializeEntries(v, i + 1) + rest,
                     v.entries[i + 1..], v.entries[i..], rest);
  }

  /** Reading n entries: a key item, a value, then n - 1 entries more. */
  lemma ParseEntriesCons(s: string, n: nat, e: (ArrayKey, Value), r2: string, es: seq<(ArrayKey, Value)>,
                         all: seq<(ArrayKey, Value)>, rest: string)
    requires n > 0 && all == [e] + es
    requires s == KeyItem(e.0) + (Serialize(e.1) + r2)
    requires Parse(Serialize(e.1) + r2) == Some((e.1, r2))
    requires ParseEntries(r2, n - 1) == Some((es, rest))
    ensures ParseEntries(s, n) == Some((all, rest))
  {
    ParseKeyItemOf(e.0, Serialize(e.1) + r2);
  }

  lemma EntriesEnd(v: Value, i: nat, rest: string)
    requires v.Arr? && i == |v.entries|
    ensures ParseEntries(SerializeEntries(v, i) + rest, 0) == Some((v.entries[i..], rest))
  {
    assert SerializeEntries(v, i) + rest == rest;
    assert v.entries[i..] == [];
  }

  lemma UnfoldEntries(v: Value, i: nat, rest: string)
    requires v.Arr? && i < |v.entries|
    ensures SerializeEntries(v, i) + rest
         == KeyItem(v.entries[i].0) + (Serialize(v.entries[i].1) + (SerializeEntries(v, i + 1) + rest))
  {
    Associative(KeyItem(v.entries[i].0), Serialize(v.entries[i].1), SerializeEntries(v, i + 1), rest);
  }

  lemma Associative<T>(a: seq<T>, b: seq<T>, c: seq<T>, d: seq<T>)
    ensures a + b + c + d == a + (b + (c + d))
  {
  }

  lemma SuffixFrom<T>(s: seq<T>, i: nat)
    requires i < |s|
    ensures s[i..] == [s[i]] + s[i + 1..]
  {
  }

  /** unserialize(serialize($v)) == $v. */
  lemma UnserializeSerialize(v: Value)
    ensures Unserialize(Serialize(v)) == Some(v)
  {
    ParseSerialize(v, "");
    assert Serialize(v) + "" == Serialize(v);
  }

  /** A string that does not start with a type tag is never a serialization. */
  lemma UntaggedIsNotSerialized(s: string)
    requires |s| == 0 || s[0] !in {'N', 'b', 'i', 's', 'a'}
    ensures Unserialize(s) == None
  {
  }
}
