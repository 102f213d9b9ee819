/** SQLCache's statements: the query text with its `%s`/`%d` placeholders and the parallel list of
    parameters, built by one loop over the key columns per statement. */
module SqlText {
  import opened PhpValue
  import opened Keys
  import opened Compression

  const UpsertHead: string := "REPLACE INTO data_cache SET "
  /** Appended once per key column by the upsert loop. */
  const Assignment: string := "%s = '%s', "
  /** The expiration column, written through `%d`. */
  const IntAssignment: string := "%s = %d"
  /** The data and expiration columns closing the upsert: "%s = '%s', %s = %d". */
  const UpsertTail: string := Assignment + IntAssignment
  const DeleteHead: string := "DELETE FROM data_cache WHERE "
  const SelectHead: string := "SELECT expiration, data FROM data_cache WHERE "
  /** One column test of a WHERE clause. */
  const Condition: string := "%s = '%s'"
  /** Appended once per key column by the delete and select loops: "%s = '%s' AND ". */
  const Conjunct: string := Condition + " AND "
  const Limit: string := "LIMIT 1"

  /** `n` copies of `s`. */
  function Repeat(s: string, n: nat): string
  {
    if n == 0 then "" else Repeat(s, n - 1) + s
  }

  /** substr($s, 0, -4): all but the last four characters, or "" when there are not that many. */
  function DropLast4(s: string): string
  {
    if |s| >= 4 then s[..|s| - 4] else ""
  }

  /** The query text of the upsert for a key of `n` columns. */
  function UpsertText(n: nat): string
  {
    UpsertHead + Repeat(Assignment, n) + UpsertTail
  }

  /** The text of a conjunctive filter after `head` for a key of `n` columns, the trailing "AND "
      cut off. */
  function FilterText(head: string, n: nat): string
  {
    DropLast4(head + Repeat(Conjunct, n))
  }

  function DeleteText(n: nat): string
  {
    FilterText(DeleteHead, n)
  }

  function SelectText(n: nat): string
  {
    FilterText(SelectHead, n) + Limit
  }

  /** `n` column tests joined by " AND ". */
  function Joined(n: nat): string
    requires n > 0
  {
    if n == 1 then Condition else Joined(n - 1) + " AND " + Condition
  }

  /** The column name and value of every key column, in the key's order. */
  function KeyParams(key: seq<Pair>): (r: seq<Value>)
    ensures |r| == 2 * |key|
    ensures forall i | 0 <= i < |key| :: r[2 * i] == Str(key[i].0) && r[2 * i + 1] == Str(key[i].1)
  {
    if |key| == 0 then []
    else
      var r := KeyParams(key[..|key| - 1]) + [Str(key[|key| - 1].0), Str(key[|key| - 1].1)];
      assert forall i | 0 <= i < |key| - 1 :: key[..|key| - 1][i] == key[i];
      r
  }

  lemma KeyParamsStep(key: seq<Pair>, i: nat)
    requires i < |key|
    ensures KeyParams(key[..i + 1]) == KeyParams(key[..i]) + [Str(key[i].0)] + [Str(key[i].1)]
  {
    assert key[..i + 1][..i] == key[..i];
  }

  /** The upsert's parameters: the key columns, then the data column with the compressed data and
      the expiration column with the expiration. */
  function UpsertParams(key: seq<Pair>, data: Value, expiration: Value): seq<Value>
  {
    KeyParams(key) + [Str("data"), Str(Compress(ToPhpString(data))), Str("expiration"), expiration]
  }

  // ---------------------------------------------------------------- placeholders

  /** The number of `%s` and `%d` placeholders in a query text, read left to right. */
  function Placeholders(s: string): nat
  {
    if |s| < 2 then 0
    else if s[0] == '%' && (s[1] == 's' || s[1] == 'd') then 1 + Placeholders(s[2..])
    else Placeholders(s[1..])
  }

  /** Text that does not end in '%', so that no placeholder straddles its end. */
  predicate SafeEnd(s: string)
  {
    |s| == 0 || s[|s| - 1] != '%'
  }

  lemma SafeEndConcat(a: string, b: string)
    requires SafeEnd(a) && SafeEnd(b)
    ensures SafeEnd(a + b)
  {
    if |b| == 0 {
      assert a + b == a;
    }
  }

  /** Placeholders add up over a concatenation whose left part does not end in '%'. */
  lemma {:induction false} PlaceholdersConcat(a: string, b: string)
    requires SafeEnd(a)
    ensures Placeholders(a + b) == Placeholders(a) + Placeholders(b)
    decreases |a|
  {
    if |a| == 0 {
      assert a + b == b;
    } else if |a| == 1 {
      assert (a + b)[1..] == b;
    } else {
      if a[0] == '%' && (a[1] == 's' || a[1] == 'd') {
        assert (a + b)[2..] == a[2..] + b;
        PlaceholdersConcat(a[2..], b);
      } else {
        assert (a + b)[1..] == a[1..] + b;
        PlaceholdersConcat(a[1..], b);
      }
    }
  }

  lemma Concat3(a: string, b: string, c: string)
    requires SafeEnd(a) && SafeEnd(b)
    ensures Placeholders(a + b + c) == Placeholders(a) + Placeholders(b) + Placeholders(c)
  {
    PlaceholdersConcat(a, b);
    SafeEndConcat(a, b);
    PlaceholdersConcat(a + b, c);
  }

  /** Text without '%' holds no placeholder. */
  lemma {:induction false} NoPercent(s: string)
    requires forall i | 0 <= i < |s| :: s[i] != '%'
    ensures Placeholders(s) == 0 && SafeEnd(s)
    decreases |s|
  {
    if |s| >= 2 {
      NoPercent(s[1..]);
    }
  }

  /** A placeholder, then text without '%'. */
  lemma OnePlaceholder(p: string, rest: string)
    requires p == "%s" || p == "%d"
    requires |rest| > 0 && forall i | 0 <= i < |rest| :: rest[i] != '%'
    ensures Placeholders(p + rest) == 1 && SafeEnd(p + rest)
  {
    assert (p + rest)[2..] == rest;
    NoPercent(rest);
  }

  /** Two placeholders, each followed by text without '%'. */
  lemma TwoPlaceholders(x: string, y: string)
    requires |x| > 0 && forall i | 0 <= i < |x| :: x[i] != '%'
    requires |y| > 0 && forall i | 0 <= i < |y| :: y[i] != '%'
    ensures Placeholders("%s" + x + ("%s" + y)) == 2 && SafeEnd("%s" + x + ("%s" + y))
  {
    OnePlaceholder("%s", x);
    OnePlaceholder("%s", y);
    PlaceholdersConcat("%s" + x, "%s" + y);
    SafeEndConcat("%s" + x, "%s" + y);
  }

  lemma AssignmentCount()
    ensures Placeholders(Assignment) == 2 && SafeEnd(Assignment)
  {
    assert Assignment == "%s" + " = '" + ("%s" + "', ");
    TwoPlaceholders(" = '", "', ");
  }

  lemma ConditionCount()
    ensures Placeholders(Condition) == 2 && SafeEnd(Condition)
  {
    assert Condition == "%s" + " = '" + ("%s" + "'");
    TwoPlaceholders(" = '", "'");
  }

  lemma ConjunctCount()
    ensures Placeholders(Conjunct) == 2 && SafeEnd(Conjunct)
  {
    ConditionCount();
    NoPercent(" AND ");
    PlaceholdersConcat(Condition, " AND ");
    SafeEndConcat(Condition, " AND ");
  }

  lemma IntAssignmentCount()
    ensures Placeholders(IntAssignment) == 2
  {
    assert IntAssignment == "%s" + " = " + "%d";
    OnePlaceholder("%s", " = ");
    assert Placeholders("%d") == 1;
    PlaceholdersConcat("%s" + " = ", "%d");
  }

  lemma TailCount()
    ensures Placeholders(UpsertTail) == 4
  {
    AssignmentCount();
    IntAssignmentCount();
    PlaceholdersConcat(Assignment, IntAssignment);
  }

  lemma {:induction false} RepeatCount(s: string, n: nat)
    requires SafeEnd(s)
    ensures Placeholders(Repeat(s, n)) == n * Placeholders(s)
    ensures SafeEnd(Repeat(s, n))
  {
    if n > 0 {
      RepeatCount(s, n - 1);
      PlaceholdersConcat(Repeat(s, n - 1), s);
      SafeEndConcat(Repeat(s, n - 1), s);
    }
  }

  /** Text without any '%'. */
  predicate NoPercentIn(s: string)
  {
    forall i | 0 <= i < |s| :: s[i] != '%'
  }

  lemma HeadsHaveNoPercent()
    ensures NoPercentIn(UpsertHead) && NoPercentIn(DeleteHead) && NoPercentIn(SelectHead)
  {
    NoPercentConcat("SELECT expiration, data ", "FROM data_cache WHERE ");
  }

  lemma NoPercentDrop(s: string)
    requires NoPercentIn(s)
    ensures NoPercentIn(DropLast4(s))
  {
  }

  lemma NoPercentConcat(a: string, b: string)
    requires NoPercentIn(a) && NoPercentIn(b)
    ensures NoPercentIn(a + b)
  {
  }

  lemma UpsertTextCount(n: nat)
    ensures Placeholders(UpsertText(n)) == 2 * n + 4
  {
    var r := Repeat(Assignment, n);
    AssignmentCount();
    TailCount();
    RepeatCount(Assignment, n);
    assert Placeholders(r) == 2 * n;
    HeadsHaveNoPercent();
    NoPercent(UpsertHead);
    Concat3(UpsertHead, r, UpsertTail);
  }

  /** The upsert text has one placeholder per parameter. */
  lemma UpsertPlaceholders(key: seq<Pair>, data: Value, expiration: Value)
    ensures Placeholders(UpsertText(|key|)) == |UpsertParams(key, data, expiration)| == 2 * |key| + 4
  {
    UpsertTextCount(|key|);
  }

  // ---------------------------------------------------------------- the filter

  /** Every conjunct but the last, then the last column test. */
  lemma {:induction false} RepeatJoined(n: nat)
    requires n > 0
    ensures Repeat(Conjunct, n - 1) + Condition == Joined(n)
  {
    if n > 1 {
      RepeatJoined(n - 1);
      assert Repeat(Conjunct, n - 1) + Condition
        == Repeat(Conjunct, n - 2) + Condition + " AND " + Condition;
    }
  }

  lemma CutAnd(x: string)
    ensures DropLast4(x + " AND ") == x + " "
  {
    assert (x + " AND ")[..|x| + 1] == x + " ";
  }

  /** Cutting the trailing "AND " leaves the column tests joined by " AND " and one space. */
  lemma FilterShape(head: string, n: nat)
    requires n > 0
    ensures FilterText(head, n) == head + Joined(n) + " "
  {
    var r := Repeat(Conjunct, n - 1);
    RepeatJoined(n);
    Regroup(head, r, Condition, " AND ");
    CutAnd(head + (r + Condition));
  }

  lemma Regroup(a: string, b: string, c: string, d: string)
    ensures a + (b + (c + d)) == a + (b + c) + d
  {
  }

  lemma DeleteShape(n: nat)
    requires n > 0
    ensures DeleteText(n) == DeleteHead + Joined(n) + " "
  {
    FilterShape(DeleteHead, n);
  }

  lemma SelectShape(n: nat)
    requires n > 0
    ensures SelectText(n) == SelectHead + Joined(n) + " " + Limit
  {
    FilterShape(SelectHead, n);
  }

  /** With no key column the cut takes "ERE " off the WHERE. */
  lemma EmptyFilter()
    ensures DeleteText(0) == "DELETE FROM data_cache WH"
    ensures SelectText(0) == "SELECT expiration, data FROM data_cache WHLIMIT 1"
  {
    assert DeleteHead + Repeat(Conjunct, 0) == DeleteHead;
    assert SelectHead + Repeat(Conjunct, 0) == SelectHead;
  }

  lemma {:induction false} JoinedCount(n: nat)
    requires n > 0
    ensures Placeholders(Joined(n)) == 2 * n && SafeEnd(Joined(n))
  {
    ConditionCount();
    if n > 1 {
      JoinedCount(n - 1);
      NoPercent(" AND ");
      Concat3(Joined(n - 1), " AND ", Condition);
      SafeEndConcat(Joined(n - 1) + " AND ", Condition);
    }
  }

  lemma FilterCount(head: string, n: nat, tail: string)
    requires n > 0
    requires NoPercentIn(head) && NoPercentIn(tail)
    ensures Placeholders(head + Joined(n) + tail) == 2 * n
  {
    JoinedCount(n);
    NoPercent(head);
    NoPercent(tail);
    Concat3(head, Joined(n), tail);
  }

  /** The delete and select texts have one placeholder per parameter. */
  lemma FilterPlaceholders(key: seq<Pair>)
    ensures Placeholders(DeleteText(|key|)) == |KeyParams(key)|
    ensures Placeholders(SelectText(|key|)) == |KeyParams(key)|
  {
    if |key| == 0 {
      EmptyFilterCount();
    } else {
      DeleteCount(|key|);
      SelectCount(|key|);
    }
  }

  lemma EmptyFilterCount()
    ensures Placeholders(DeleteText(0)) == 0 && Placeholders(SelectText(0)) == 0
  {
    HeadsHaveNoPercent();
    assert DeleteText(0) == DropLast4(DeleteHead) by {
      assert DeleteHead + Repeat(Conjunct, 0) == DeleteHead;
    }
    assert SelectText(0) == DropLast4(SelectHead) + Limit by {
      assert SelectHead + Repeat(Conjunct, 0) == SelectHead;
    }
    NoPercentDrop(DeleteHead);
    NoPercentDrop(SelectHead);
    NoPercentConcat(DropLast4(SelectHead), Limit);
    NoPercent(DeleteText(0));
    NoPercent(SelectText(0));
  }

  lemma DeleteCount(n: nat)
    requires n > 0
    ensures Placeholders(DeleteText(n)) == 2 * n
  {
    DeleteShape(n);
    HeadsHaveNoPercent();
    FilterCount(DeleteHead, n, " ");
  }

  lemma SelectCount(n: nat)
    requires n > 0
    ensures Placeholders(SelectText(n)) == 2 * n
  {
    SelectShape(n);
    HeadsHaveNoPercent();
    assert " " + Limit == " LIMIT 1";
    assert SelectText(n) == SelectHead + Joined(n) + " LIMIT 1";
    FilterCount(SelectHead, n, " LIMIT 1");
  }

  /** Write, read and delete address the same columns: the upsert's parameters start with the
      filter's. */
  lemma SameColumns(key: seq<Pair>, data: Value, expiration: Value)
    ensures UpsertParams(key, data, expiration)[..2 * |key|] == KeyParams(key)
  {
  }

  // ---------------------------------------------------------------- the loops

  /** The loop each statement builder runs: per key column, `fragment` is appended to the query and
      the column's name and value to the parameters. */
  method AppendColumns(head: string, fragment: string, key: seq<Pair>) returns (query: string, values: seq<Value>)
    ensures query == head + Repeat(fragment, |key|)
    ensures values == KeyParams(key)
  {
    values := [];
    query := head;
    var i := 0;
    while i < |key|
      invariant 0 <= i <= |key|
      invariant query == head + Repeat(fragment, i)
      invariant values == KeyParams(key[..i])
    {
      KeyParamsStep(key, i);
      values := values + [Str(key[i].0)];
      values := values + [Str(key[i].1)];
      query := query + fragment;
      i := i + 1;
    }
    assert key[..i] == key;
  }

  /** _setCache's loop: one assignment and two parameters per key column, then the data and the
      expiration. */
  method BuildUpsert(key: seq<Pair>, data: Value, expiration: Value) returns (query: string, values: seq<Value>)
    ensures query == UpsertText(|key|)
    ensures values == UpsertParams(key, data, expiration)
    ensures Placeholders(query) == |values| == 2 * |key| + 4
  {
    query, values := AppendColumns(UpsertHead, Assignment, key);
    values := values + [Str("data")];
    values := values + [Str(Compress(ToPhpString(data)))];
    values := values + [Str("expiration")];
    values := values + [expiration];
    query := query + UpsertTail;
    UpsertPlaceholders(key, data, expiration);
  }

  /** The loop shared by _deleteCache and _getCache: one column test and two parameters per key
      column, then the trailing "AND " cut off. */
  method BuildFilter(head: string, key: seq<Pair>) returns (query: string, values: seq<Value>)
    ensures query == FilterText(head, |key|)
    ensures values == KeyParams(key)
  {
    query, values := AppendColumns(head, Conjunct, key);
    query := DropLast4(query);
  }

  /** _deleteCache's statement. */
  method BuildDelete(key: seq<Pair>) returns (query: string, values: seq<Value>)
    ensures query == DeleteText(|key|) && values == KeyParams(key)
    ensures Placeholders(query) == |values| == 2 * |key|
  {
    query, values := BuildFilter(DeleteHead, key);
    FilterPlaceholders(key);
  }

  /** _getCache's statement. */
  method BuildSelect(key: seq<Pair>) returns (query: string, values: seq<Value>)
    ensures query == SelectText(|key|) && values == KeyParams(key)
    ensures Placeholders(query) == |values| == 2 * |key|
  {
    query, values := BuildFilter(SelectHead, key);
    query := query + Limit;
    FilterPlaceholders(key);
  }
}
