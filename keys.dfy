/** The cache key: an ordered PHP array of column => value pairs, how setKey merges into it
    (array_merge), and how the file and memcache backends turn it into one string (asort, then
    the concatenation of column, separator and value). */
module Keys {
  /** A key pair: column name and value. */
  type Pair = (string, string)

  /** The columns of a key. */
  function FieldSet(k: seq<Pair>): set<string>
  {
    if |k| == 0 then {} else {k[0].0} + FieldSet(k[1..])
  }

  /** Each column appears once. */
  predicate DistinctFields(k: seq<Pair>)
  {
    |k| == 0 || (k[0].0 !in FieldSet(k[1..]) && DistinctFields(k[1..]))
  }

  /** A PHP associative array with string keys: each column appears once, in insertion order. */
  type KeyMap = k: seq<Pair> | DistinctFields(k)

  /** The column => value mapping a key denotes, forgetting the order. */
  function ToMap(k: seq<Pair>): map<string, string>
  {
    if |k| == 0 then map[] else ToMap(k[1..])[k[0].0 := k[0].1]
  }

  /** No two columns carry the same value. */
  predicate Injective(m: map<string, string>)
  {
    forall f, g | f in m && g in m && f != g :: m[f] != m[g]
  }

  // ---------------------------------------------------------------- the mapping of a key

  lemma {:induction false} ToMapKeys(k: seq<Pair>)
    ensures ToMap(k).Keys == FieldSet(k)
  {
    if |k| > 0 {
      ToMapKeys(k[1..]);
    }
  }

  lemma {:induction false} FieldAt(k: seq<Pair>, i: nat)
    requires i < |k|
    ensures k[i].0 in FieldSet(k)
  {
    if i > 0 {
      FieldAt(k[1..], i - 1);
    }
  }

  lemma {:induction false} ToMapAt(k: seq<Pair>, i: nat)
    requires DistinctFields(k) && i < |k|
    ensures k[i].0 in ToMap(k) && ToMap(k)[k[i].0] == k[i].1
  {
    ToMapKeys(k);
    FieldAt(k, i);
    if i > 0 {
      ToMapAt(k[1..], i - 1);
      FieldAt(k[1..], i - 1);
    }
  }

  /** The position of column `f` in `k`, or -1 when it is absent. */
  function IndexOf(k: seq<Pair>, f: string): (i: int)
    ensures -1 <= i < |k|
    ensures i >= 0 ==> k[i].0 == f
    ensures i < 0 <==> f !in FieldSet(k)
  {
    if |k| == 0 then -1
    else if k[0].0 == f then 0
    else
      var i := IndexOf(k[1..], f);
      if i < 0 then -1 else i + 1
  }

  /** Dropping the first pair drops its column from the mapping. */
  lemma ToMapTail(k: seq<Pair>)
    requires DistinctFields(k) && |k| > 0
    ensures ToMap(k[1..]) == ToMap(k) - {k[0].0}
  {
    ToMapKeys(k[1..]);
  }

  // ---------------------------------------------------------------- array_merge

  lemma MapUpdateCommute(m: map<string, string>, x: string, v: string, y: string, w: string)
    requires x != y
    ensures m[x := v][y := w] == m[y := w][x := v]
  {
  }

  /** The columns, mapping and distinctness of a key with one pair in front. */
  lemma ConsFacts(q: Pair, t: seq<Pair>)
    ensures FieldSet([q] + t) == {q.0} + FieldSet(t)
    ensures ToMap([q] + t) == ToMap(t)[q.0 := q.1]
    ensures DistinctFields([q] + t) <==> q.0 !in FieldSet(t) && DistinctFields(t)
  {
    assert ([q] + t)[1..] == t;
  }

  lemma {:induction false} AppendFacts(k: seq<Pair>, p: Pair)
    requires DistinctFields(k) && p.0 !in FieldSet(k)
    ensures DistinctFields(k + [p])
    ensures FieldSet(k + [p]) == FieldSet(k) + {p.0}
    ensures ToMap(k + [p]) == ToMap(k)[p.0 := p.1]
  {
    if |k| > 0 {
      assert k + [p] == [k[0]] + (k[1..] + [p]);
      assert k == [k[0]] + k[1..];
      ConsFacts(k[0], k[1..] + [p]);
      ConsFacts(k[0], k[1..]);
      AppendFacts(k[1..], p);
      MapUpdateCommute(ToMap(k[1..]), p.0, p.1, k[0].0, k[0].1);
    }
  }

  lemma {:induction false} UpdateFacts(k: seq<Pair>, i: nat, p: Pair)
    requires DistinctFields(k) && i < |k| && k[i].0 == p.0
    ensures DistinctFields(k[i := p])
    ensures FieldSet(k[i := p]) == FieldSet(k)
    ensures ToMap(k[i := p]) == ToMap(k)[p.0 := p.1]
  {
    assert k == [k[0]] + k[1..];
    ConsFacts(k[0], k[1..]);
    if i == 0 {
      assert k[i := p] == [p] + k[1..];
      ConsFacts(p, k[1..]);
    } else {
      assert k[i := p] == [k[0]] + k[1..][i - 1 := p];
      ConsFacts(k[0], k[1..][i - 1 := p]);
      UpdateFacts(k[1..], i - 1, p);
      FieldAt(k[1..], i - 1);
      MapUpdateCommute(ToMap(k[1..]), p.0, p.1, k[0].0, k[0].1);
    }
  }

  /** `$result[$f] = $v` on an array with string keys: an existing column keeps its place and
      takes the new value, a new column is appended. */
  function Put(k: seq<Pair>, p: Pair): (r: seq<Pair>)
    requires DistinctFields(k)
    ensures DistinctFields(r)
    ensures FieldSet(r) == FieldSet(k) + {p.0}
    ensures ToMap(r) == ToMap(k)[p.0 := p.1]
    ensures |r| >= |k| && forall i | 0 <= i < |k| :: r[i].0 == k[i].0
  {
    var i := IndexOf(k, p.0);
    if i >= 0 then
      UpdateFacts(k, i, p);
      k[i := p]
    else
      AppendFacts(k, p);
      k + [p]
  }

  /** The mapping of a key is that of all but its last pair, updated with the last pair. */
  lemma {:induction false} ToMapSnoc(k: seq<Pair>)
    requires DistinctFields(k) && |k| > 0
    ensures k[|k| - 1].0 !in FieldSet(k[..|k| - 1])
    ensures DistinctFields(k[..|k| - 1])
    ensures ToMap(k) == ToMap(k[..|k| - 1])[k[|k| - 1].0 := k[|k| - 1].1]
    ensures FieldSet(k) == FieldSet(k[..|k| - 1]) + {k[|k| - 1].0}
  {
    if |k| > 1 {
      var t := k[1..];
      ToMapSnoc(t);
      assert t[..|t| - 1] == k[..|k| - 1][1..];
      assert t[|t| - 1] == k[|k| - 1];
    }
  }

  lemma MapUpdateUnion(a: map<string, string>, b: map<string, string>, x: string, v: string)
    ensures (a + b)[x := v] == a + b[x := v]
  {
  }

  lemma MapUnionCommute(m: map<string, string>, a: map<string, string>, b: map<string, string>)
    requires a.Keys !! b.Keys
    ensures m + a + b == m + b + a
  {
  }

  /** array_merge($key, $extra) for string-keyed arrays: the columns of `extra` are written over
      `key` in their order. */
  function Merge(key: seq<Pair>, extra: seq<Pair>): (r: seq<Pair>)
    requires DistinctFields(key) && DistinctFields(extra)
    ensures DistinctFields(r)
    ensures FieldSet(r) == FieldSet(key) + FieldSet(extra)
    ensures ToMap(r) == ToMap(key) + ToMap(extra)
    ensures |r| >= |key| && (|extra| > 0 ==> |r| > 0)
    ensures forall i | 0 <= i < |key| :: r[i].0 == key[i].0
    decreases |extra|
  {
    if |extra| == 0 then key
    else
      var front, last := extra[..|extra| - 1], extra[|extra| - 1];
      ToMapSnoc(extra);
      var m := Merge(key, front);
      MapUpdateUnion(ToMap(key), ToMap(front), last.0, last.1);
      Put(m, last)
  }

  /** The pairs of `extra` whose column `key` does not hold yet, in `extra`'s order. */
  function NewPairs(key: seq<Pair>, extra: seq<Pair>): seq<Pair>
    decreases |extra|
  {
    if |extra| == 0 then []
    else
      var front, last := extra[..|extra| - 1], extra[|extra| - 1];
      NewPairs(key, front) + (if last.0 in FieldSet(key) then [] else [last])
  }

  lemma {:induction false} DistinctAt(k: seq<Pair>, i: nat, j: nat)
    requires DistinctFields(k) && i < |k| && j < |k| && k[i].0 == k[j].0
    ensures i == j
  {
    if i != j {
      if i == 0 {
        FieldAt(k[1..], j - 1);
      } else if j == 0 {
        FieldAt(k[1..], i - 1);
      } else {
        DistinctAt(k[1..], i - 1, j - 1);
      }
    }
  }

  /** array_merge appends the new columns after the existing ones, in the merged array's order. */
  lemma {:induction false} MergeAppends(key: seq<Pair>, extra: seq<Pair>)
    requires DistinctFields(key) && DistinctFields(extra)
    ensures Merge(key, extra)[|key|..] == NewPairs(key, extra)
    decreases |extra|
  {
    if |extra| > 0 {
      var front, last := extra[..|extra| - 1], extra[|extra| - 1];
      ToMapSnoc(extra);
      var m := Merge(key, front);
      MergeAppends(key, front);
      var i := IndexOf(m, last.0);
      if last.0 in FieldSet(key) {
        var j := IndexOf(key, last.0);
        DistinctAt(m, i, j);
        assert m[i := last][|key|..] == m[|key|..];
      } else {
        assert i < 0;
        assert (m + [last])[|key|..] == m[|key|..] + [last];
      }
    }
  }

  /** Merging into an empty key gives the merged array itself. */
  lemma {:induction false} MergeIntoEmpty(extra: seq<Pair>)
    requires DistinctFields(extra)
    ensures Merge([], extra) == extra
    decreases |extra|
  {
    if |extra| > 0 {
      var front := extra[..|extra| - 1];
      ToMapSnoc(extra);
      MergeIntoEmpty(front);
      assert front + [extra[|extra| - 1]] == extra;
    }
  }

  /** Merging an array whose every column the key already holds with the same value changes
      nothing, not even the order. */
  lemma {:induction false} MergeKnown(key: seq<Pair>, extra: seq<Pair>)
    requires DistinctFields(key) && DistinctFields(extra)
    requires forall f | f in ToMap(extra) :: f in ToMap(key) && ToMap(key)[f] == ToMap(extra)[f]
    ensures Merge(key, extra) == key
    decreases |extra|
  {
    if |extra| > 0 {
      var front, last := extra[..|extra| - 1], extra[|extra| - 1];
      ToMapSnoc(extra);
      ToMapKeys(front);
      MergeKnown(key, front);
      ToMapKeys(key);
      var i := IndexOf(key, last.0);
      ToMapAt(key, i);
      assert key[i := last] == key;
    }
  }

  /** Two merges of arrays with no column in common give the same mapping in either order. */
  lemma MergeOrderIrrelevant(key: seq<Pair>, a: seq<Pair>, b: seq<Pair>)
    requires DistinctFields(key) && DistinctFields(a) && DistinctFields(b)
    requires FieldSet(a) !! FieldSet(b)
    ensures ToMap(Merge(Merge(key, a), b)) == ToMap(Merge(Merge(key, b), a))
  {
    ToMapKeys(a);
    ToMapKeys(b);
    MapUnionCommute(ToMap(key), ToMap(a), ToMap(b));
  }

  // ---------------------------------------------------------------- asort

  /** PHP's comparison of two non-numeric strings, character by character. */
  predicate LexLe(a: string, b: string)
    decreases |a|
  {
    |a| == 0 || (|b| > 0 && (a[0] < b[0] || (a[0] == b[0] && LexLe(a[1..], b[1..]))))
  }

  lemma {:induction false} LexReflexive(a: string)
    ensures LexLe(a, a)
    decreases |a|
  {
    if |a| > 0 {
      LexReflexive(a[1..]);
    }
  }

  lemma {:induction false} LexTotal(a: string, b: string)
    ensures LexLe(a, b) || LexLe(b, a)
    decreases |a|
  {
    if |a| > 0 && |b| > 0 && a[0] == b[0] {
      LexTotal(a[1..], b[1..]);
    }
  }

  lemma {:induction false} LexAntisymmetric(a: string, b: string)
    requires LexLe(a, b) && LexLe(b, a)
    ensures a == b
    decreases |a|
  {
    if |a| > 0 {
      LexAntisymmetric(a[1..], b[1..]);
      assert a == [a[0]] + a[1..] && b == [b[0]] + b[1..];
    }
  }

  lemma {:induction false} LexTransitive(a: string, b: string, c: string)
    requires LexLe(a, b) && LexLe(b, c)
    ensures LexLe(a, c)
    decreases |a|
  {
    if |a| > 0 && a[0] == b[0] && b[0] == c[0] {
      LexTransitive(a[1..], b[1..], c[1..]);
    }
  }

  predicate SortedByValue(k: seq<Pair>)
  {
    forall i, j | 0 <= i < j < |k| :: LexLe(k[i].1, k[j].1)
  }

  /** Every pair of `k` has a value at least `v`. */
  predicate AllAtLeast(v: string, k: seq<Pair>)
  {
    forall j | 0 <= j < |k| :: LexLe(v, k[j].1)
  }

  lemma SortedCons(q: Pair, t: seq<Pair>)
    requires SortedByValue(t) && AllAtLeast(q.1, t)
    ensures SortedByValue([q] + t)
  {
    assert forall j | 1 <= j <= |t| :: ([q] + t)[j] == t[j - 1];
  }

  /** Inserts `p` before the first pair whose value is not below it. */
  function Insert(p: Pair, s: seq<Pair>): (r: seq<Pair>)
    requires SortedByValue(s)
    ensures SortedByValue(r)
    ensures multiset(r) == multiset(s) + multiset{p}
    ensures forall v | LexLe(v, p.1) && AllAtLeast(v, s) :: AllAtLeast(v, r)
  {
    if |s| == 0 then [p]
    else if LexLe(p.1, s[0].1) then
      InsertBelow(p, s);
      [p] + s
    else
      var t := Insert(p, s[1..]);
      InsertAbove(p, s, t);
      [s[0]] + t
  }

  /** `p` goes in front when its value is at most the first one. */
  lemma InsertBelow(p: Pair, s: seq<Pair>)
    requires SortedByValue(s) && |s| > 0 && LexLe(p.1, s[0].1)
    ensures SortedByValue([p] + s)
    ensures forall v | LexLe(v, p.1) && AllAtLeast(v, s) :: AllAtLeast(v, [p] + s)
  {
    assert AllAtLeast(p.1, s) by {
      forall j | 0 <= j < |s| ensures LexLe(p.1, s[j].1) {
        if j > 0 { LexTransitive(p.1, s[0].1, s[j].1); }
      }
    }
    SortedCons(p, s);
  }

  /** Otherwise the first pair stays in front of the insertion into the rest. */
  lemma InsertAbove(p: Pair, s: seq<Pair>, t: seq<Pair>)
    requires SortedByValue(s) && |s| > 0 && !LexLe(p.1, s[0].1)
    requires SortedByValue(t) && multiset(t) == multiset(s[1..]) + multiset{p}
    requires forall v | LexLe(v, p.1) && AllAtLeast(v, s[1..]) :: AllAtLeast(v, t)
    ensures SortedByValue([s[0]] + t)
    ensures multiset([s[0]] + t) == multiset(s) + multiset{p}
    ensures forall v | LexLe(v, p.1) && AllAtLeast(v, s) :: AllAtLeast(v, [s[0]] + t)
  {
    LexTotal(p.1, s[0].1);
    assert AllAtLeast(s[0].1, s[1..]);
    SortedCons(s[0], t);
    assert s == [s[0]] + s[1..];
    forall v | LexLe(v, p.1) && AllAtLeast(v, s) ensures AllAtLeast(v, [s[0]] + t) {
      assert AllAtLeast(v, s[1..]);
      assert forall j | 1 <= j <= |t| :: ([s[0]] + t)[j] == t[j - 1];
    }
  }

  /** Insertion adds the column of `p` and, when it is new, its mapping. */
  lemma {:induction false} InsertFields(p: Pair, s: seq<Pair>)
    requires SortedByValue(s)
    ensures FieldSet(Insert(p, s)) == FieldSet(s) + {p.0}
    ensures DistinctFields(s) && p.0 !in FieldSet(s) ==>
      DistinctFields(Insert(p, s)) && ToMap(Insert(p, s)) == ToMap(s)[p.0 := p.1]
  {
    if |s| == 0 {
      ConsFacts(p, []);
    } else if LexLe(p.1, s[0].1) {
      ConsFacts(p, s);
    } else {
      var t := Insert(p, s[1..]);
      InsertFields(p, s[1..]);
      assert s == [s[0]] + s[1..];
      ConsFacts(s[0], s[1..]);
      ConsFacts(s[0], t);
      if p.0 != s[0].0 {
        MapUpdateCommute(ToMap(s[1..]), p.0, p.1, s[0].0, s[0].1);
      }
    }
  }

  /** asort($key): reorders the pairs by value, keeping each column with its value. Equal values
      keep their insertion order. */
  function SortByValue(k: seq<Pair>): (r: seq<Pair>)
    ensures SortedByValue(r)
    ensures multiset(r) == multiset(k)
    ensures FieldSet(r) == FieldSet(k)
    ensures DistinctFields(k) ==> DistinctFields(r) && ToMap(r) == ToMap(k)
  {
    if |k| == 0 then []
    else
      assert k == [k[0]] + k[1..];
      InsertFields(k[0], SortByValue(k[1..]));
      Insert(k[0], SortByValue(k[1..]))
  }

  /** Sorting a sorted key changes nothing, so a key sorted in place by one request gives the
      same key text to the next. */
  lemma {:induction false} SortSorted(k: seq<Pair>)
    requires SortedByValue(k)
    ensures SortByValue(k) == k
  {
    if |k| > 0 {
      SortSorted(k[1..]);
      if |k| > 1 {
        assert LexLe(k[0].1, k[1..][0].1);
      }
      assert [k[0]] + k[1..] == k;
    }
  }

  lemma NormalizeStable(k: seq<Pair>, sep: string)
    ensures Normalize(SortByValue(k), sep) == Normalize(k, sep)
  {
    SortSorted(SortByValue(k));
  }

  /** Two keys sorted by value with the same injective mapping are the same sequence. */
  lemma {:induction false} SortedUnique(a: seq<Pair>, b: seq<Pair>)
    requires DistinctFields(a) && DistinctFields(b)
    requires SortedByValue(a) && SortedByValue(b)
    requires ToMap(a) == ToMap(b) && Injective(ToMap(a))
    ensures a == b
    decreases |a|
  {
    ToMapKeys(a);
    ToMapKeys(b);
    if |a| > 0 && |b| > 0 {
      var j := IndexOf(b, a[0].0);
      var i := IndexOf(a, b[0].0);
      ToMapAt(a, 0);
      ToMapAt(b, j);
      ToMapAt(a, i);
      ToMapAt(b, 0);
      LexReflexive(a[0].1);
      assert LexLe(b[0].1, a[0].1);
      assert LexLe(a[0].1, b[0].1);
      LexAntisymmetric(a[0].1, b[0].1);
      assert a[0] == b[0];
      ToMapTail(a);
      ToMapTail(b);
      SortedUnique(a[1..], b[1..]);
      assert a == [a[0]] + a[1..] && b == [b[0]] + b[1..];
    }
  }

  // ---------------------------------------------------------------- the key string

  /** The concatenation of column, separator and value over the pairs, in order. */
  function Join(k: seq<Pair>, sep: string): string
  {
    if |k| == 0 then "" else Join(k[..|k| - 1], sep) + (k[|k| - 1].0 + sep + k[|k| - 1].1)
  }

  /** _getKey's result: the key text of the key sorted by value. */
  function Normalize(k: seq<Pair>, sep: string): string
  {
    Join(SortByValue(k), sep)
  }

  /** The foreach loop of _getKey: appends column, separator and value for each pair. */
  method JoinKey(k: seq<Pair>, sep: string) returns (s: string)
    ensures s == Join(k, sep)
  {
    s := "";
    var i := 0;
    while i < |k|
      invariant 0 <= i <= |k|
      invariant s == Join(k[..i], sep)
    {
      assert k[..i + 1][..i] == k[..i];
      s := s + (k[i].0 + sep + k[i].1);
      i := i + 1;
    }
    assert k[..|k|] == k;
  }

  /** Keys with the same column => value mapping give the same key text, whatever order their
      columns were set in, as long as no two columns share a value. */
  lemma NormalizeOrderIndependent(k1: seq<Pair>, k2: seq<Pair>, sep: string)
    requires DistinctFields(k1) && DistinctFields(k2)
    requires ToMap(k1) == ToMap(k2) && Injective(ToMap(k1))
    ensures Normalize(k1, sep) == Normalize(k2, sep)
  {
    SortedUnique(SortByValue(k1), SortByValue(k2));
  }

  /** With two columns sharing a value the key text follows the order the columns were set in. */
  lemma TiedValuesFollowInsertionOrder()
    ensures ToMap([("a", "1"), ("b", "1")]) == ToMap([("b", "1"), ("a", "1")])
    ensures Normalize([("a", "1"), ("b", "1")], "-") == "a-1b-1"
    ensures Normalize([("b", "1"), ("a", "1")], "-") == "b-1a-1"
  {
    TwoEqual("a", "b", "1", "-");
    TwoEqual("b", "a", "1", "-");
    MapUpdateCommute(map[], "a", "1", "b", "1");
    TieText();
  }

  lemma TieText()
    ensures "a" + "-" + "1" + ("b" + "-" + "1") == "a-1b-1"
    ensures "b" + "-" + "1" + ("a" + "-" + "1") == "b-1a-1"
  {
  }

  /** Two pairs with the same value stay in their order and join in that order. */
  lemma TwoEqual(f: string, g: string, x: string, sep: string)
    ensures ToMap([(f, x), (g, x)]) == map[][g := x][f := x]
    ensures Normalize([(f, x), (g, x)], sep) == f + sep + x + (g + sep + x)
  {
    var k: seq<Pair> := [(f, x), (g, x)];
    assert k[1..] == [(g, x)];
    TwoSorted(f, g, x);
    assert k[..1] == [(f, x)];
    assert k[..1][..0] == [];
    assert Join(k[..1], sep) == f + sep + x;
    assert Join(k, sep) == f + sep + x + (g + sep + x);
  }

  lemma TwoSorted(f: string, g: string, x: string)
    ensures SortByValue([(f, x), (g, x)]) == [(f, x), (g, x)]
  {
    var k: seq<Pair> := [(f, x), (g, x)];
    assert k[1..] == [(g, x)];
    LexReflexive(x);
    var one := SortByValue(k[1..]);
    assert one == Insert((g, x), []);
    assert SortByValue(k) == Insert((f, x), one);
  }
}
