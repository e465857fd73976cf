/** The result collector, the equivalence checker and the two query-combination
    strategies of `ComparatorHelper.java`. Executing a query against the engine
    is a caller-supplied function from query text to `Outcome`; the replay log
    (`state.getState().statements`) and the list of combined query texts are
    threaded through as sequences of strings. */
module Comparator {
  import opened Wrappers
  import opened Text
  import ExpectedErrors

  /** One cell as read by `getString`: `None` is SQL NULL. */
  type Value = Option<string>

  /** A row as delivered by the engine; a result set always has a first column. */
  type Row = r: seq<Value> | |r| >= 1 witness [None]

  /** The first-column values of a result, one per row, in delivery order. */
  type Projection = seq<Value>

  /** What executing one query text yields. */
  datatype Outcome =
    | Rows(rows: seq<Row>)            // a result set
    | NoResult                        // `executeAndGet` returned null
    | NumberFormatErr                 // a `NumberFormatException` was raised
    | Err(message: Option<string>)    // any other exception, with its message

  /** The engine under test, as seen by one session. */
  type Engine = string -> Outcome

  /** How a call ends: a normal return, an `IgnoreMeException` (skip this
      round, not a bug), or an `AssertionError` with its message. */
  datatype Flow<+T> = Normal(value: T) | Skip | Fail(message: Option<string>)

  /** Reads the first column of every row, in order (`resultSet.add(result.getString(1))`). */
  function FirstColumn(rows: seq<Row>): (p: Projection)
    ensures |p| == |rows|
    ensures forall i :: 0 <= i < |rows| ==> p[i] == rows[i][0]
  {
    if |rows| == 0 then [] else FirstColumn(rows[..|rows| - 1]) + [rows[|rows| - 1][0]]
  }

  /** `getResultSetFirstColumnAsString`: executes `query` and classifies the outcome.
      Only the literal substrings in `errors` are consulted, each tested with `contains`. */
  function CollectFirstColumn(query: string, errors: set<string>, exec: Engine): (r: Flow<Projection>)
    ensures r.Normal? <==> exec(query).Rows?
    ensures r.Normal? ==> |r.value| == |exec(query).rows|
    ensures r.Normal? ==> forall i :: 0 <= i < |r.value| ==> r.value[i] == exec(query).rows[i][0]
    ensures exec(query).NoResult? ==> r == Skip
    ensures exec(query).NumberFormatErr? ==> r == Skip
    ensures exec(query) == Err(None) ==> r == Fail(Some(query))
    ensures exec(query).Err? && exec(query).message.Some? ==>
              (r == Skip <==> exists s :: s in errors && IsSubstring(s, exec(query).message.value))
    ensures r.Fail? ==> r.message == Some(query)
  {
    match exec(query)
    case Rows(rows) => Normal(FirstColumn(rows))
    case NoResult => Skip
    case NumberFormatErr => Skip
    case Err(None) => Fail(Some(query))
    case Err(Some(m)) => if ContainsAny(m, errors) then Skip else Fail(Some(query))
  }

  /** The collector's inline literal test is the classifier's test for a
      classifier holding the same literals and no patterns. */
  lemma CollectorAgreesWithClassifier(query: string, errors: set<string>, exec: Engine,
                                      finds: ExpectedErrors.Finder)
    requires exec(query).Err? && exec(query).message.Some?
    ensures CollectFirstColumn(query, errors, exec) == Skip
        <==> ExpectedErrors.Expected(ExpectedErrors.ExpectedErrors(errors, {}), exec(query).message.value, finds)
  {
  }

  /** `new HashSet<>(list)`: the elements, added in list order. */
  function Elements(s: Projection): (r: set<Value>)
    ensures forall x :: x in r <==> x in s
  {
    if |s| == 0 then {} else Elements(s[..|s| - 1]) + {s[|s| - 1]}
  }

  /** The verdict of the equivalence check, before anything is logged. */
  datatype Comparison =
    | Equal
    | CardinalityMismatch(size1: nat, size2: nat)
    | ContentMismatch(misses1: set<Value>, misses2: set<Value>)

  /** Cardinalities first; at equal cardinality the results are compared as sets. */
  function Compare(r1: Projection, r2: Projection): (c: Comparison)
    ensures c.Equal? <==> |r1| == |r2| && forall x :: x in r1 <==> x in r2
    ensures c.CardinalityMismatch? <==> |r1| != |r2|
    ensures c.CardinalityMismatch? ==> c.size1 == |r1| && c.size2 == |r2|
    ensures c.ContentMismatch? ==> forall x :: x in c.misses1 <==> x in r1 && x !in r2
    ensures c.ContentMismatch? ==> forall x :: x in c.misses2 <==> x in r2 && x !in r1
    ensures c.ContentMismatch? ==> c.misses1 != {} || c.misses2 != {}
  {
    if |r1| != |r2| then CardinalityMismatch(|r1|, |r2|)
    else
      var s1 := Elements(r1);
      var s2 := Elements(r2);
      if s1 == s2 then Equal
      else
        var m1 := s1 - s2;
        var m2 := s2 - s1;
        assert m1 == {} && m2 == {} ==> s1 == s2;
        ContentMismatch(m1, m2)
  }

  /** The same verdict seen from the other side. */
  function Swapped(c: Comparison): Comparison {
    match c
    case Equal => Equal
    case CardinalityMismatch(n1, n2) => CardinalityMismatch(n2, n1)
    case ContentMismatch(m1, m2) => ContentMismatch(m2, m1)
  }

  /** The check is symmetric: exchanging the sides exchanges sizes and misses. */
  lemma CompareSymmetric(r1: Projection, r2: Projection)
    ensures Compare(r2, r1) == Swapped(Compare(r1, r2))
  {
  }

  /** The check is reflexive. */
  lemma CompareReflexive(r: Projection)
    ensures Compare(r, r) == Equal
  {
  }

  /** The verdict depends on each side only through its multiset of values:
      row order never matters. */
  lemma CompareIgnoresOrder(r1: Projection, r1': Projection, r2: Projection)
    requires multiset(r1) == multiset(r1')
    ensures Compare(r1, r2) == Compare(r1', r2)
    ensures Compare(r2, r1) == Compare(r2, r1')
  {
    assert |r1| == |multiset(r1)| == |r1'|;
    assert forall x :: x in r1 <==> x in multiset(r1);
    assert forall x :: x in r1' <==> x in multiset(r1');
    assert Elements(r1) == Elements(r1');
  }

  /** At equal cardinality duplicate counts are invisible: `[1, 1, 2]` and
      `[1, 2, 2]` differ as multisets yet pass the check. */
  lemma DuplicatesAreInvisible()
    ensures multiset([Some("1"), Some("1"), Some("2")]) != multiset([Some("1"), Some("2"), Some("2")])
    ensures Compare([Some("1"), Some("1"), Some("2")], [Some("1"), Some("2"), Some("2")]) == Equal
  {
  }

  /** Three worked examples: a cardinality failure, an
      order-only difference that passes, and a content failure. */
  lemma CompareExamples()
    ensures Compare([Some("1"), Some("2"), Some("2")], [Some("1"), Some("2")]) == CardinalityMismatch(3, 2)
    ensures Compare([Some("1"), Some("2")], [Some("2"), Some("1")]) == Equal
    ensures Compare([Some("1"), Some("1")], [Some("1"), Some("2")]) == ContentMismatch({}, {Some("2")})
  {
  }

  /** `String.format("%s; -- cardinality: %d", query, n)`: the query, the
      marker, then digits that read back as `n`. */
  function CardinalityLine(query: string, n: nat): (line: string)
    ensures StartsWith(line, query + "; -- cardinality: ")
    ensures var digits := line[|query + "; -- cardinality: "|..];
            && |digits| >= 1 && (|digits| > 1 ==> digits[0] != '0')
            && (forall k :: 0 <= k < |digits| ==> '0' <= digits[k] <= '9') && ParseDigits(digits) == n
  {
    ParseNatToString(n);
    var line := query + "; -- cardinality: " + NatToString(n);
    assert line[|query + "; -- cardinality: "|..] == NatToString(n);
    line
  }

  /** `String.format("%s; -- misses: %s", query, misses)`; `show` renders a
      `HashSet`, whose iteration order Java leaves unspecified. The rendering
      is everything after the marker. */
  function MissesLine(query: string, misses: set<Value>, show: set<Value> -> string): (line: string)
    ensures StartsWith(line, query + "; -- misses: ")
    ensures line[|query + "; -- misses: "|..] == show(misses)
  {
    var line := query + "; -- misses: " + show(misses);
    assert line[|query + "; -- misses: "|..] == show(misses);
    line
  }

  /** A cardinality line records its number unambiguously. */
  lemma CardinalityLineDeterminesSize(query: string, m: nat, n: nat)
    requires CardinalityLine(query, m) == CardinalityLine(query, n)
    ensures m == n
  {
    var prefix := query + "; -- cardinality: ";
    assert NatToString(m) == CardinalityLine(query, m)[|prefix|..];
    assert NatToString(n) == CardinalityLine(query, n)[|prefix|..];
    NatToStringInjective(m, n);
  }

  /** The verdict of `assumeResultSetsAreEqual` with the replay log after it. */
  datatype Checked = Checked(flow: Flow<()>, statements: seq<string>)

  /** `assumeResultSetsAreEqual`: on a mismatch, appends one replay line for the
      original query and one for the `;`-joined combined queries, then fails. */
  function AssumeResultSetsAreEqual(r1: Projection, r2: Projection, original: string,
                                    combined: seq<string>, statements: seq<string>,
                                    show: set<Value> -> string): (c: Checked)
    ensures c.flow.Normal? <==> |r1| == |r2| && forall x :: x in r1 <==> x in r2
    ensures !c.flow.Skip?
    ensures c.flow.Normal? ==> c.statements == statements
    ensures |r1| != |r2| ==>
              c.statements == statements + [CardinalityLine(original, |r1|), CardinalityLine(Join(combined, ";"), |r2|)]
    ensures |r1| == |r2| && c.flow.Fail? ==>
              var m1 := Compare(r1, r2).misses1;
              var m2 := Compare(r1, r2).misses2;
              && (m1 != {} || m2 != {})
              && (forall x :: x in m1 <==> x in r1 && x !in r2)
              && (forall x :: x in m2 <==> x in r2 && x !in r1)
              && c.statements == statements
                   + [MissesLine(original, m1, show), MissesLine(Join(combined, ";"), m2, show)]
    ensures c.flow.Fail? ==>
              && |c.statements| == |statements| + 2 && c.flow.message.Some?
              && IsSubstring(c.statements[|statements|], c.flow.message.value)
              && IsSubstring(c.statements[|statements| + 1], c.flow.message.value)
    ensures |r1| != |r2| ==>
              c.flow.Fail? && c.flow.message.Some?
              && StartsWith(c.flow.message.value, "the size of the result sets mismatch ("
                              + NatToString(|r1|) + " and " + NatToString(|r2|) + ")!\n")
    ensures |r1| == |r2| && c.flow.Fail? ==>
              c.flow.message.Some? && StartsWith(c.flow.message.value, "the content of the result sets mismatch!\n")
  {
    var joined := Join(combined, ";");
    match Compare(r1, r2)
    case Equal => Checked(Normal(()), statements)
    case CardinalityMismatch(n1, n2) =>
      var first := CardinalityLine(original, n1);
      var second := CardinalityLine(joined, n2);
      var head := "the size of the result sets mismatch (" + NatToString(n1) + " and " + NatToString(n2) + ")!\n";
      Framed(head, first, second);
      Checked(Fail(Some(head + first + "\n" + second)), statements + [first, second])
    case ContentMismatch(m1, m2) =>
      var first := MissesLine(original, m1, show);
      var second := MissesLine(joined, m2, show);
      var head := "the content of the result sets mismatch!\n";
      Framed(head, first, second);
      Checked(Fail(Some(head + first + "\n" + second)), statements + [first, second])
  }

  /** The single duplicate-preserving query `q1 UNION ALL q2 UNION ALL q3`. */
  function UnionAllText(q1: string, q2: string, q3: string): string {
    q1 + " UNION ALL " + q2 + " UNION ALL " + q3
  }

  /** The single duplicate-eliminating query `q1 UNION q2 UNION q3`. */
  function UnionText(q1: string, q2: string, q3: string): string {
    q1 + " UNION " + q2 + " UNION " + q3
  }

  /** A combined result together with the list of combined query texts after the call. */
  datatype Combined = Combined(result: Flow<Projection>, combinedString: seq<string>)

  /** `getCombinedResultSet`: either one `UNION ALL` query, recorded before it
      runs, or three executions concatenated client-side, recorded only once all
      three have returned normally. */
  function GetCombinedResultSet(q1: string, q2: string, q3: string, combined: seq<string>,
                                asUnion: bool, errors: set<string>, exec: Engine): (c: Combined)
    ensures asUnion ==> c.combinedString == combined + [UnionAllText(q1, q2, q3)]
    ensures asUnion ==> c.result == CollectFirstColumn(UnionAllText(q1, q2, q3), errors, exec)
    ensures !asUnion ==>
              var r1 := CollectFirstColumn(q1, errors, exec);
              var r2 := CollectFirstColumn(q2, errors, exec);
              var r3 := CollectFirstColumn(q3, errors, exec);
              && (c.result.Normal? <==> r1.Normal? && r2.Normal? && r3.Normal?)
              && (c.result.Normal? ==> c.result.value == r1.value + r2.value + r3.value)
              && (c.result.Normal? ==> |c.result.value| == |r1.value| + |r2.value| + |r3.value|)
              && (c.result.Normal? ==> c.combinedString == combined + [q1, q2, q3])
              && (!c.result.Normal? ==> c.combinedString == combined)
              && (!r1.Normal? ==> c.result == r1)
              && (r1.Normal? && !r2.Normal? ==> c.result == r2)
              && (r1.Normal? && r2.Normal? && !r3.Normal? ==> c.result == r3)
  {
    if asUnion then
      var u := UnionAllText(q1, q2, q3);
      Combined(CollectFirstColumn(u, errors, exec), combined + [u])
    else
      var r1 := CollectFirstColumn(q1, errors, exec);
      if !r1.Normal? then Combined(r1, combined) else
      var r2 := CollectFirstColumn(q2, errors, exec);
      if !r2.Normal? then Combined(r2, combined) else
      var r3 := CollectFirstColumn(q3, errors, exec);
      if !r3.Normal? then Combined(r3, combined) else
      Combined(Normal(r1.value + r2.value + r3.value), combined + [q1, q2, q3])
  }

  /** `getCombinedResultSetNoDuplicates`: only the `UNION` form exists; asking
      for client-side concatenation is an `AssertionError` with no message. */
  function GetCombinedResultSetNoDuplicates(q1: string, q2: string, q3: string, combined: seq<string>,
                                            asUnion: bool, errors: set<string>, exec: Engine): (c: Combined)
    ensures !asUnion ==> c == Combined(Fail(None), combined)
    ensures asUnion ==> c.combinedString == combined + [UnionText(q1, q2, q3)]
    ensures asUnion ==> c.result == CollectFirstColumn(UnionText(q1, q2, q3), errors, exec)
  {
    if !asUnion then Combined(Fail(None), combined)
    else
      var u := UnionText(q1, q2, q3);
      Combined(CollectFirstColumn(u, errors, exec), combined + [u])
  }

  /** SQL's three truth values. */
  datatype Truth = True | False | Unknown

  /** The rows for which `p` evaluates to `t`: the rows `WHERE p`, `WHERE NOT p`
      and `WHERE p IS NULL` return from a correct engine. */
  function Where(rows: seq<Row>, p: Row -> Truth, t: Truth): (r: seq<Row>)
    ensures forall i :: 0 <= i < |r| ==> p(r[i]) == t
    ensures forall x :: x in r ==> x in rows
  {
    if |rows| == 0 then []
    else Where(rows[..|rows| - 1], p, t) + (if p(rows[|rows| - 1]) == t then [rows[|rows| - 1]] else [])
  }

  /** Ternary-logic partitioning loses and invents nothing: the three parts
      together hold exactly the base rows' first-column values, as a multiset. */
  lemma PartitionPreservesValues(rows: seq<Row>, p: Row -> Truth)
    ensures multiset(FirstColumn(Where(rows, p, True)) + FirstColumn(Where(rows, p, False))
                     + FirstColumn(Where(rows, p, Unknown)))
         == multiset(FirstColumn(rows))
  {
    var parts := Where(rows, p, True) + Where(rows, p, False) + Where(rows, p, Unknown);
    var m := multiset(parts);
    var all := multiset(rows);
    forall x
      ensures m[x] == all[x]
    {
      WhereCount(rows, p, True, x);
      WhereCount(rows, p, False, x);
      WhereCount(rows, p, Unknown, x);
    }
    assert m == all;
    FirstColumnMultiset(parts, rows);
    FirstColumnAppend(Where(rows, p, True), Where(rows, p, False));
    FirstColumnAppend(Where(rows, p, True) + Where(rows, p, False), Where(rows, p, Unknown));
  }

  /** Each part keeps every copy of the rows of its truth value and no other row. */
  lemma {:induction false} WhereCount(rows: seq<Row>, p: Row -> Truth, t: Truth, x: Row)
    ensures multiset(Where(rows, p, t))[x] == if p(x) == t then multiset(rows)[x] else 0
  {
    if |rows| > 0 {
      var init := rows[..|rows| - 1];
      WhereCount(init, p, t, x);
      assert rows == init + [rows[|rows| - 1]];
    }
  }

  lemma FirstColumnAppend(a: seq<Row>, b: seq<Row>)
    ensures FirstColumn(a + b) == FirstColumn(a) + FirstColumn(b)
  {
  }

  /** What a correct engine returns for the partition query `q`: the rows of
      `rows` for which `p` is `t`, in any order. */
  ghost predicate ReturnsPartition(exec: Engine, q: string, rows: seq<Row>, p: Row -> Truth, t: Truth) {
    exec(q).Rows? && multiset(exec(q).rows) == multiset(Where(rows, p, t))
  }

  /** Soundness of the oracle: when the engine evaluates the base query and the
      three partition queries correctly, each partition in whatever row order,
      concatenating the partitions and comparing never reports a bug and never
      skips. */
  lemma CorrectEngineReportsNoBug(q0: string, q1: string, q2: string, q3: string,
                                  rows: seq<Row>, p: Row -> Truth, errors: set<string>, exec: Engine,
                                  combined: seq<string>, statements: seq<string>,
                                  show: set<Value> -> string)
    requires exec(q0) == Rows(rows)
    requires ReturnsPartition(exec, q1, rows, p, True)
    requires ReturnsPartition(exec, q2, rows, p, False)
    requires ReturnsPartition(exec, q3, rows, p, Unknown)
    ensures var base := CollectFirstColumn(q0, errors, exec);
            var c := GetCombinedResultSet(q1, q2, q3, combined, false, errors, exec);
            && base.Normal? && c.result.Normal?
            && AssumeResultSetsAreEqual(base.value, c.result.value, q0, c.combinedString,
                                        statements, show) == Checked(Normal(()), statements)
  {
    var base := CollectFirstColumn(q0, errors, exec);
    var c := GetCombinedResultSet(q1, q2, q3, combined, false, errors, exec);
    var a1, a2, a3 := exec(q1).rows, exec(q2).rows, exec(q3).rows;
    var w1, w2, w3 := Where(rows, p, True), Where(rows, p, False), Where(rows, p, Unknown);
    FirstColumnMultiset(a1 + a2 + a3, w1 + w2 + w3);
    FirstColumnAppend(a1, a2);
    FirstColumnAppend(a1 + a2, a3);
    FirstColumnAppend(w1, w2);
    FirstColumnAppend(w1 + w2, w3);
    PartitionPreservesValues(rows, p);
    CompareIgnoresOrder(FirstColumn(rows), c.result.value, FirstColumn(rows));
    CompareReflexive(FirstColumn(rows));
  }

  /** What a correct engine does with `q1 UNION ALL q2 UNION ALL q3`: when the
      three parts return rows, it returns their rows as one multiset. */
  ghost predicate UnionAllIsMultisetUnion(exec: Engine, q1: string, q2: string, q3: string) {
    exec(q1).Rows? && exec(q2).Rows? && exec(q3).Rows? ==>
      && exec(UnionAllText(q1, q2, q3)).Rows?
      && multiset(exec(UnionAllText(q1, q2, q3)).rows)
         == multiset(exec(q1).rows + exec(q2).rows + exec(q3).rows)
  }

  lemma {:induction false} FirstColumnMultiset(a: seq<Row>, b: seq<Row>)
    requires multiset(a) == multiset(b)
    ensures multiset(FirstColumn(a)) == multiset(FirstColumn(b))
    decreases |a|
  {
    if |a| > 0 {
      var x := a[|a| - 1];
      assert x in multiset(b);
      var k :| 0 <= k < |b| && b[k] == x;
      var b' := b[..k] + b[k + 1..];
      assert b == b[..k] + [x] + b[k + 1..];
      assert a == a[..|a| - 1] + [x];
      assert multiset(a) == multiset(a[..|a| - 1]) + multiset{x};
      assert multiset(b) == multiset(b[..k]) + multiset{x} + multiset(b[k + 1..]);
      assert multiset(b') == multiset(b[..k]) + multiset(b[k + 1..]);
      assert multiset(a[..|a| - 1]) == multiset(a) - multiset{x};
      assert multiset(b') == multiset(b) - multiset{x};
      FirstColumnMultiset(a[..|a| - 1], b');
      FirstColumnAppend(b[..k], [x]);
      FirstColumnAppend(b[..k] + [x], b[k + 1..]);
      FirstColumnAppend(b[..k], b[k + 1..]);
      FirstColumnAppend(a[..|a| - 1], [x]);
    }
  }

  /** The two duplicate-preserving modes are interchangeable for the checker:
      against any base result they give the same verdict, on an engine that
      implements `UNION ALL` as multiset union. */
  lemma UnionAllModeMatchesConcatenation(q1: string, q2: string, q3: string, base: Projection,
                                         combined: seq<string>, errors: set<string>, exec: Engine)
    requires UnionAllIsMultisetUnion(exec, q1, q2, q3)
    requires exec(q1).Rows? && exec(q2).Rows? && exec(q3).Rows?
    ensures var u := GetCombinedResultSet(q1, q2, q3, combined, true, errors, exec);
            var c := GetCombinedResultSet(q1, q2, q3, combined, false, errors, exec);
            && u.result.Normal? && c.result.Normal?
            && Compare(base, u.result.value) == Compare(base, c.result.value)
  {
    var u := GetCombinedResultSet(q1, q2, q3, combined, true, errors, exec);
    var c := GetCombinedResultSet(q1, q2, q3, combined, false, errors, exec);
    var all := exec(q1).rows + exec(q2).rows + exec(q3).rows;
    FirstColumnMultiset(exec(UnionAllText(q1, q2, q3)).rows, all);
    FirstColumnAppend(exec(q1).rows, exec(q2).rows);
    FirstColumnAppend(exec(q1).rows + exec(q2).rows, exec(q3).rows);
    CompareIgnoresOrder(u.result.value, c.result.value, base);
  }

  /** What a correct engine does with `q1 UNION q2 UNION q3`: when the three
      parts return rows, it returns the rows that occur in at least one of them. */
  ghost predicate UnionIsSetUnion(exec: Engine, q1: string, q2: string, q3: string) {
    exec(q1).Rows? && exec(q2).Rows? && exec(q3).Rows? ==>
      && exec(UnionText(q1, q2, q3)).Rows?
      && forall r :: r in exec(UnionText(q1, q2, q3)).rows <==> r in exec(q1).rows + exec(q2).rows + exec(q3).rows
  }

  /** Rows that occur in the same results have first columns with the same values. */
  lemma FirstColumnValues(a: seq<Row>, b: seq<Row>)
    requires forall r :: r in a <==> r in b
    ensures Elements(FirstColumn(a)) == Elements(FirstColumn(b))
  {
    var fa, fb := FirstColumn(a), FirstColumn(b);
    forall v | v in fa
      ensures v in fb
    {
      var i :| 0 <= i < |a| && fa[i] == v;
      assert a[i] in b;
      var j :| 0 <= j < |b| && b[j] == a[i];
      assert fb[j] == v;
    }
    forall v | v in fb
      ensures v in fa
    {
      var j :| 0 <= j < |b| && fb[j] == v;
      assert b[j] in a;
      var i :| 0 <= i < |a| && a[i] == b[j];
      assert fa[i] == v;
    }
    assert Elements(fa) == Elements(fb);
  }

  /** The duplicate-eliminating combination holds the same values as the
      client-side concatenation, on an engine that implements `UNION` as set
      union; only the duplicate counts can differ. */
  lemma UnionModeMatchesConcatenationValues(q1: string, q2: string, q3: string,
                                            combined: seq<string>, errors: set<string>, exec: Engine)
    requires UnionIsSetUnion(exec, q1, q2, q3)
    requires exec(q1).Rows? && exec(q2).Rows? && exec(q3).Rows?
    ensures var d := GetCombinedResultSetNoDuplicates(q1, q2, q3, combined, true, errors, exec);
            var c := GetCombinedResultSet(q1, q2, q3, combined, false, errors, exec);
            && d.result.Normal? && c.result.Normal?
            && Elements(d.result.value) == Elements(c.result.value)
  {
    var all := exec(q1).rows + exec(q2).rows + exec(q3).rows;
    FirstColumnValues(exec(UnionText(q1, q2, q3)).rows, all);
    FirstColumnAppend(exec(q1).rows, exec(q2).rows);
    FirstColumnAppend(exec(q1).rows + exec(q2).rows, exec(q3).rows);
  }
}
