/** The expected-error classifier of `common/query/ExpectedErrors.java`: an
    append-only pair of sets, literal substrings and regular expressions, with a
    pure membership test over an error message. Regular-expression matching
    (`Pattern.matcher(msg).find()`) is a library call and is supplied by the
    caller as `finds`. */
module ExpectedErrors {
  import opened Wrappers
  import opened Text

  /** A compiled `java.util.regex.Pattern`: its source text and the flags word
      passed to `Pattern.compile` (0 when none). Two patterns with the same text
      and flags are one value here, and match alike. */
  datatype Pattern = Pattern(source: string, flags: int)

  /** The exceptions the classifier raises on misuse. */
  datatype Error =
    | IllegalArgument   // `IllegalArgumentException`, raised explicitly
    | NullPointer       // `NullPointerException`, raised by the collection library

  /** `Pattern.matcher(msg).find()`: whether the pattern matches somewhere in `msg`. */
  type Finder = (Pattern, string) -> bool

  datatype ExpectedErrors = ExpectedErrors(errors: set<string>, regexes: set<Pattern>)

  /** `new ExpectedErrors()`. */
  function Empty(): ExpectedErrors {
    ExpectedErrors({}, {})
  }

  /** The reference meaning of the classifier: some literal occurs in `msg`, or
      some pattern finds a match in it. */
  ghost predicate Expected(e: ExpectedErrors, msg: string, finds: Finder) {
    (exists s :: s in e.errors && IsSubstring(s, msg))
    || (exists p :: p in e.regexes && finds(p, msg))
  }

  /** `add(error)`: a null literal is refused; otherwise the literal joins the set. */
  function Add(e: ExpectedErrors, error: Option<string>): (r: Result<ExpectedErrors, Error>)
    ensures error.None? <==> r == Failure(IllegalArgument)
    ensures error.Some? ==> r.Success?
    ensures r.Success? ==> r.value.regexes == e.regexes
    ensures r.Success? ==> r.value.errors == e.errors + {error.value}
  {
    match error
    case None => Failure(IllegalArgument)
    case Some(s) => Success(e.(errors := e.errors + {s}))
  }

  /** `addRegex(pattern)`: a null pattern is refused; otherwise it joins the set. */
  function AddRegex(e: ExpectedErrors, pattern: Option<Pattern>): (r: Result<ExpectedErrors, Error>)
    ensures pattern.None? <==> r == Failure(IllegalArgument)
    ensures pattern.Some? ==> r.Success?
    ensures r.Success? ==> r.value.errors == e.errors
    ensures r.Success? ==> r.value.regexes == e.regexes + {pattern.value}
  {
    match pattern
    case None => Failure(IllegalArgument)
    case Some(p) => Success(e.(regexes := e.regexes + {p}))
  }

  /** `addAll(list)`: no explicit null check, so a null list fails inside
      `HashSet.addAll` with a `NullPointerException`. */
  function AddAll(e: ExpectedErrors, list: Option<seq<string>>): (r: Result<ExpectedErrors, Error>)
    ensures list.None? <==> r == Failure(NullPointer)
    ensures list.Some? ==> r.Success?
    ensures r.Success? ==> r.value.regexes == e.regexes
    ensures r.Success? ==> forall s :: s in r.value.errors <==> s in e.errors || s in list.value
  {
    match list
    case None => Failure(NullPointer)
    case Some(xs) => Success(e.(errors := e.errors + set s | s in xs))
  }

  /** `addAllRegexes(list)`: a null list is refused explicitly. */
  function AddAllRegexes(e: ExpectedErrors, list: Option<seq<Pattern>>): (r: Result<ExpectedErrors, Error>)
    ensures list.None? <==> r == Failure(IllegalArgument)
    ensures list.Some? ==> r.Success?
    ensures r.Success? ==> r.value.errors == e.errors
    ensures r.Success? ==> forall p :: p in r.value.regexes <==> p in e.regexes || p in list.value
  {
    match list
    case None => Failure(IllegalArgument)
    case Some(ps) => Success(e.(regexes := e.regexes + set p | p in ps))
  }

  /** `errorIsExpected(msg)`: a null message is refused; otherwise the literals
      are tried, then the patterns, each set in whatever order it iterates. */
  method ErrorIsExpected(e: ExpectedErrors, msg: Option<string>, finds: Finder)
    returns (r: Result<bool, Error>)
    ensures msg.None? <==> r == Failure(IllegalArgument)
    ensures msg.Some? ==> r == Success(Expected(e, msg.value, finds))
  {
    if msg.None? {
      return Failure(IllegalArgument);
    }
    var m := msg.value;
    var literals := e.errors;
    while literals != {}
      invariant literals <= e.errors
      invariant forall s :: s in e.errors && s !in literals ==> !IsSubstring(s, m)
      decreases |literals|
    {
      var s :| s in literals;
      ContainsIsSubstring(m, s);
      if Contains(m, s) {
        return Success(true);
      }
      literals := literals - {s};
    }
    var patterns := e.regexes;
    while patterns != {}
      invariant patterns <= e.regexes
      invariant forall p :: p in e.regexes && p !in patterns ==> !finds(p, m)
      decreases |patterns|
    {
      var p :| p in patterns;
      if finds(p, m) {
        return Success(true);
      }
      patterns := patterns - {p};
    }
    return Success(false);
  }

  /** A fresh instance expects no message at all. */
  lemma EmptyExpectsNothing(msg: string, finds: Finder)
    ensures !Expected(Empty(), msg, finds)
  {
  }

  /** `add(s)` only ever widens the classifier: every message expected before is
      still expected, and every message containing `s` is now expected. */
  lemma AddIsMonotone(e: ExpectedErrors, s: string, msg: string, finds: Finder)
    ensures Add(e, Some(s)).Success?
    ensures Expected(e, msg, finds) ==> Expected(Add(e, Some(s)).value, msg, finds)
    ensures IsSubstring(s, msg) ==> Expected(Add(e, Some(s)).value, msg, finds)
  {
  }

  /** `addRegex(p)` only ever widens the classifier as well. */
  lemma AddRegexIsMonotone(e: ExpectedErrors, p: Pattern, msg: string, finds: Finder)
    ensures AddRegex(e, Some(p)).Success?
    ensures Expected(e, msg, finds) ==> Expected(AddRegex(e, Some(p)).value, msg, finds)
    ensures finds(p, msg) ==> Expected(AddRegex(e, Some(p)).value, msg, finds)
  {
  }

  /** Adding the empty literal makes every (non-null) message expected. */
  lemma EmptyLiteralExpectsEverything(e: ExpectedErrors, msg: string, finds: Finder)
    ensures Add(e, Some("")).Success?
    ensures Expected(Add(e, Some("")).value, msg, finds)
  {
    EmptyOccursEverywhere(msg);
  }

  /** `add(s1)…add(sn)` in sequence; every element is non-null, so no call fails. */
  function AddEach(e: ExpectedErrors, xs: seq<string>): (r: ExpectedErrors)
    ensures r.regexes == e.regexes
    decreases xs
  {
    if |xs| == 0 then e else AddEach(Add(e, Some(xs[0])).value, xs[1..])
  }

  /** Repeated `add` calls leave exactly the added literals on top of those held before. */
  lemma {:induction false} AddEachErrors(e: ExpectedErrors, xs: seq<string>)
    ensures AddEach(e, xs).errors == e.errors + set s | s in xs
    decreases xs
  {
    if |xs| > 0 {
      AddEachErrors(Add(e, Some(xs[0])).value, xs[1..]);
      assert (set s | s in xs) == {xs[0]} + set s | s in xs[1..];
    }
  }

  /** The classifier does not depend on the order or the repetition of insertions:
      two insertion sequences with the same elements give the same classifier. */
  lemma AddOrderIrrelevant(e: ExpectedErrors, xs: seq<string>, ys: seq<string>)
    requires forall s :: s in xs <==> s in ys
    ensures AddEach(e, xs) == AddEach(e, ys)
  {
    AddEachErrors(e, xs);
    AddEachErrors(e, ys);
    assert (set s | s in xs) == (set s | s in ys);
  }

  /** `ExpectedErrors.ExpectedErrorsBuilder`: the sets being accumulated. */
  datatype Builder = Builder(errors: set<string>, regexes: set<Pattern>)

  /** `newErrors()`. */
  function NewErrors(): Builder {
    Builder({}, {})
  }

  /** `with(String... list)`. */
  function With(b: Builder, list: seq<string>): (r: Builder)
    ensures r.regexes == b.regexes
    ensures forall s :: s in r.errors <==> s in b.errors || s in list
  {
    b.(errors := b.errors + set s | s in list)
  }

  /** `with(Pattern... list)`. */
  function WithPatterns(b: Builder, list: seq<Pattern>): (r: Builder)
    ensures r.errors == b.errors
    ensures forall p :: p in r.regexes <==> p in b.regexes || p in list
  {
    b.(regexes := b.regexes + set p | p in list)
  }

  /** `build()`: copies the accumulated sets into a classifier. */
  function Build(b: Builder): (r: ExpectedErrors)
    ensures r.errors == b.errors && r.regexes == b.regexes
  {
    ExpectedErrors(b.errors, b.regexes)
  }

  /** A classifier built from literals `ls` and patterns `ps` expects a message
      exactly when one of the literals occurs in it or one of the patterns matches it. */
  lemma BuiltExpected(ls: seq<string>, ps: seq<Pattern>, msg: string, finds: Finder)
    ensures Expected(Build(WithPatterns(With(NewErrors(), ls), ps)), msg, finds)
        <==> (exists i :: 0 <= i < |ls| && IsSubstring(ls[i], msg))
             || (exists j :: 0 <= j < |ps| && finds(ps[j], msg))
  {
  }

  /** `from(e1, …, en)`, i.e. `newErrors().with(e1, …, en).build()`. */
  function From(list: seq<string>): (r: ExpectedErrors)
    ensures r.regexes == {}
    ensures forall s :: s in r.errors <==> s in list
  {
    Build(With(NewErrors(), list))
  }

  /** `from(e1, …, en)` is the same classifier as a fresh one followed by
      `add(e1)`, …, `add(en)`. */
  lemma FromIsAddEach(list: seq<string>)
    ensures From(list) == AddEach(Empty(), list)
  {
    AddEachErrors(Empty(), list);
  }

  /** Hence `from(e1, …, en)` expects a message exactly when one of the `ei` occurs in it. */
  lemma FromExpected(list: seq<string>, msg: string, finds: Finder)
    ensures Expected(From(list), msg, finds) <==> exists i :: 0 <= i < |list| && IsSubstring(list[i], msg)
  {
  }
}
