/** The statement scheduler inside `CockroachDBProvider.generateAndTestDatabase`:
    every action receives a budget, then actions are drawn one at a time, each
    with probability proportional to its remaining budget, until every budget is
    spent. The random source is the caller's: `draws[i]` is the value
    `r.getInteger(0, …)` returned for the action of ordinal `i`, and
    `selections[k]` the value `r.getInteger(0, total)` returned in round `k`. */
module CockroachScheduler {
  import opened Wrappers

  /** `CockroachDBProvider.Action`, in declaration order. */
  datatype Action =
    | Insert | Truncate | CreateStatistics | SetSession | CreateIndex | Update | CreateView
    | SetClusterSetting | Delete | CommentOn | Show | Transaction | Explain | Scrub | Split

  /** `Action.values()`. */
  const Actions: seq<Action> := [Insert, Truncate, CreateStatistics, SetSession, CreateIndex,
                                 Update, CreateView, SetClusterSetting, Delete, CommentOn, Show,
                                 Transaction, Explain, Scrub, Split]

  /** `action.ordinal()`. */
  function Ordinal(a: Action): (i: nat)
    ensures i < |Actions| && Actions[i] == a
  {
    match a
    case Insert => 0
    case Truncate => 1
    case CreateStatistics => 2
    case SetSession => 3
    case CreateIndex => 4
    case Update => 5
    case CreateView => 6
    case SetClusterSetting => 7
    case Delete => 8
    case CommentOn => 9
    case Show => 10
    case Transaction => 11
    case Explain => 12
    case Scrub => 13
    case Split => 14
  }

  /** Ordinals are positions: each index of `Actions` is the ordinal of its action. */
  lemma OrdinalOfValue(i: nat)
    requires i < |Actions|
    ensures Ordinal(Actions[i]) == i
  {
  }

  /** The actions whose budget is fixed at zero: COMMENT ON and SCRUB (open
      server bugs) and TRANSACTION. */
  predicate NeverScheduled(a: Action) {
    a == CommentOn || a == Scrub || a == Transaction
  }

  /** The budget switch: every other action takes the value drawn for it
      (INSERT up to the configured maximum of inserts, UPDATE and SPLIT up to 3,
      EXPLAIN and CREATE INDEX up to 10, SET SESSION and SET CLUSTER SETTING up
      to 3, the rest up to 2). Every action is named, so the `AssertionError`
      of the default case is unreachable. */
  function Budget(a: Action, draw: nat): (n: nat)
    ensures NeverScheduled(a) ==> n == 0
    ensures !NeverScheduled(a) ==> n == draw
  {
    match a
    case CommentOn | Scrub | Transaction => 0
    case Insert | Update | Split | Explain | Show | Truncate | Delete | CreateStatistics
       | CreateView | SetSession | SetClusterSetting | CreateIndex => draw
  }

  /** The sum of a sequence of counts. */
  function Sum(s: seq<nat>): nat {
    if |s| == 0 then 0 else Sum(s[..|s| - 1]) + s[|s| - 1]
  }

  /** Appending a count adds it to the sum. */
  lemma SumSnoc(s: seq<nat>, x: nat)
    ensures Sum(s + [x]) == Sum(s) + x
  {
    assert (s + [x])[..|s|] == s;
  }

  /** After `|nrRemaining|` iterations of the budget loop, each visited action
      has the budget the switch gives it. */
  predicate Budgeted(draws: seq<nat>, nrRemaining: seq<nat>)
    requires |nrRemaining| <= |draws| == |Actions|
  {
    forall k :: 0 <= k < |nrRemaining| ==> nrRemaining[k] == Budget(Actions[k], draws[k])
  }

  /** One iteration of the budget loop records the next action's budget. */
  lemma BudgetedStep(draws: seq<nat>, nrRemaining: seq<nat>)
    requires |nrRemaining| < |draws| == |Actions| && Budgeted(draws, nrRemaining)
    ensures Budgeted(draws, nrRemaining + [Budget(Actions[|nrRemaining|], draws[|nrRemaining|])])
  {
  }

  /** After `i` iterations of the budget loop, `actions` lists in ordinal order
      exactly the first `i` actions whose count is not zero. */
  predicate ListedUpTo(nrRemaining: seq<nat>, actions: seq<Action>, i: nat)
    requires i <= |nrRemaining| && i <= |Actions|
  {
    && (forall k :: 0 <= k < i ==> (Actions[k] in actions <==> nrRemaining[k] != 0))
    && (forall j :: 0 <= j < |actions| ==> Ordinal(actions[j]) < i)
    && (forall j, k :: 0 <= j < k < |actions| ==> Ordinal(actions[j]) < Ordinal(actions[k]))
  }

  /** One iteration of the budget loop keeps the list of scheduled actions right. */
  lemma ListedStep(nrRemaining: seq<nat>, actions: seq<Action>, i: nat, n: nat)
    requires i == |nrRemaining| < |Actions| && ListedUpTo(nrRemaining, actions, i)
    ensures ListedUpTo(nrRemaining + [n], if n != 0 then actions + [Actions[i]] else actions, i + 1)
  {
    if n != 0 {
      ListedAppend(nrRemaining, actions, i, n);
    } else {
      OrdinalOfValue(i);
      assert Actions[i] !in actions;
    }
  }

  /** An action with a non-zero budget joins the end of the list. */
  lemma ListedAppend(nrRemaining: seq<nat>, actions: seq<Action>, i: nat, n: nat)
    requires i == |nrRemaining| < |Actions| && ListedUpTo(nrRemaining, actions, i)
    requires n != 0
    ensures ListedUpTo(nrRemaining + [n], actions + [Actions[i]], i + 1)
  {
    var next := actions + [Actions[i]];
    OrdinalOfValue(i);
    forall k | 0 <= k < i
      ensures Actions[k] in next <==> Actions[k] in actions
    {
      OrdinalOfValue(k);
    }
    assert forall j :: 0 <= j < |next| ==> Ordinal(next[j]) <= i;
  }

  /** Once every action has been visited, `actions` holds exactly those with a
      non-zero count. */
  lemma ListedAll(nrRemaining: seq<nat>, actions: seq<Action>)
    requires |nrRemaining| == |Actions| && ListedUpTo(nrRemaining, actions, |Actions|)
    ensures forall a :: a in actions <==> nrRemaining[Ordinal(a)] != 0
  {
  }

  /** The budget loop: `nrRemaining`, `actions` and `total` after it. */
  method AssignBudgets(draws: seq<nat>) returns (nrRemaining: seq<nat>, actions: seq<Action>, total: nat)
    requires |draws| == |Actions|
    ensures |nrRemaining| == |Actions|
    ensures forall i :: 0 <= i < |Actions| ==> nrRemaining[i] == Budget(Actions[i], draws[i])
    ensures total == Sum(nrRemaining)
    ensures forall a :: a in actions <==> nrRemaining[Ordinal(a)] != 0
    ensures forall j, k :: 0 <= j < k < |actions| ==> Ordinal(actions[j]) < Ordinal(actions[k])
  {
    nrRemaining := [];
    actions := [];
    total := 0;
    var i := 0;
    while i < |Actions|
      invariant 0 <= i <= |Actions|
      invariant |nrRemaining| == i
      invariant Budgeted(draws, nrRemaining)
      invariant total == Sum(nrRemaining)
      invariant ListedUpTo(nrRemaining, actions, i)
    {
      var action := Actions[i];
      var nrPerformed := Budget(action, draws[i]);
      ListedStep(nrRemaining, actions, i, nrPerformed);
      BudgetedStep(draws, nrRemaining);
      if nrPerformed != 0 {
        actions := actions + [action];
      }
      SumSnoc(nrRemaining, nrPerformed);
      nrRemaining := nrRemaining + [nrPerformed];
      total := total + nrPerformed;
      i := i + 1;
    }
    ListedAll(nrRemaining, actions);
  }

  /** The start of the window of entry `i`: the counts before it. */
  function Prefix(s: seq<nat>, i: nat): nat
    requires i <= |s|
  {
    Sum(s[..i])
  }

  /** `selection` lies in the window of entry `i`. */
  predicate InWindow(s: seq<nat>, i: nat, selection: int)
    requires i < |s|
  {
    Prefix(s, i) <= selection < Prefix(s, i) + s[i]
  }

  lemma PrefixStep(s: seq<nat>, i: nat)
    requires i < |s|
    ensures Prefix(s, i + 1) == Prefix(s, i) + s[i]
  {
    assert s[..i + 1][..i] == s[..i];
  }

  lemma PrefixAll(s: seq<nat>)
    ensures Prefix(s, |s|) == Sum(s)
  {
    assert s[..|s|] == s;
  }

  /** Windows follow each other: an earlier window ends before a later one starts. */
  lemma {:induction false} WindowsOrdered(s: seq<nat>, j: nat, k: nat)
    requires j < k <= |s|
    ensures Prefix(s, j) + s[j] <= Prefix(s, k)
    decreases k - j
  {
    PrefixStep(s, j);
    if j + 1 < k {
      WindowsOrdered(s, j + 1, k);
      PrefixStep(s, j + 1);
    }
  }

  /** At most one window contains a selection. */
  lemma WindowUnique(s: seq<nat>, j: nat, k: nat, selection: int)
    requires j < |s| && k < |s|
    requires InWindow(s, j, selection) && InWindow(s, k, selection)
    ensures j == k
  {
    if j < k {
      WindowsOrdered(s, j, k);
    } else if k < j {
      WindowsOrdered(s, k, j);
    }
  }

  /** The weighted pick: scans the windows `[prefix(i), prefix(i) + nrRemaining[i])`
      in ordinal order and stops at the one containing `selection`. */
  method Pick(nrRemaining: seq<nat>, selection: int) returns (found: Option<nat>)
    ensures found.Some? <==> 0 <= selection < Sum(nrRemaining)
    ensures found.Some? ==> found.value < |nrRemaining| && InWindow(nrRemaining, found.value, selection)
    ensures found.Some? ==> nrRemaining[found.value] > 0
    ensures found.Some? ==> forall j :: 0 <= j < |nrRemaining| && InWindow(nrRemaining, j, selection) ==> j == found.value
  {
    var previousRange := 0;
    var i := 0;
    while i < |nrRemaining|
      invariant 0 <= i <= |nrRemaining|
      invariant previousRange == Prefix(nrRemaining, i)
      invariant selection < 0 || previousRange <= selection
    {
      if previousRange <= selection && selection < previousRange + nrRemaining[i] {
        assert InWindow(nrRemaining, i, selection);
        forall j | 0 <= j < |nrRemaining| && InWindow(nrRemaining, j, selection)
          ensures j == i
        {
          WindowUnique(nrRemaining, i, j, selection);
        }
        WindowsOrdered(nrRemaining, i, |nrRemaining|);
        PrefixAll(nrRemaining);
        return Some(i);
      }
      PrefixStep(nrRemaining, i);
      previousRange := previousRange + nrRemaining[i];
      i := i + 1;
    }
    PrefixAll(nrRemaining);
    return None;
  }

  /** Taking one from entry `j` takes one from the sum. */
  lemma {:induction false} SumDecrement(s: seq<nat>, j: nat)
    requires j < |s| && s[j] > 0
    ensures Sum(s[j := s[j] - 1]) + 1 == Sum(s)
    decreases |s|
  {
    var t := s[j := s[j] - 1];
    if j < |s| - 1 {
      assert t[..|t| - 1] == s[..|s| - 1][j := s[j] - 1];
      SumDecrement(s[..|s| - 1], j);
    } else {
      assert t[..|t| - 1] == s[..|s| - 1];
    }
  }

  /** A sum of counts is zero only when every count is. */
  lemma {:induction false} SumZero(s: seq<nat>)
    requires Sum(s) == 0
    ensures forall i :: 0 <= i < |s| ==> s[i] == 0
  {
    if |s| > 0 {
      SumZero(s[..|s| - 1]);
      assert forall i :: 0 <= i < |s| - 1 ==> s[i] == s[..|s| - 1][i];
    }
  }

  /** How one attempt at running a generated statement ends. */
  datatype Attempt =
    | Executed(success: bool)   // `manager.execute(query)` returned
    | Ignored                   // an `IgnoreMeException` left the retry loop
    | Aborted                   // any other exception (a `SQLException` from `getQuery`,
                                // an `AssertionError`) left `generateAndTestDatabase`

  /** Upper bound on attempts per scheduled action: the first try plus 1000 retries. */
  const MaxTries: nat := 1001

  /** A number of tries one round can make. */
  type Tries = n: nat | 1 <= n <= MaxTries witness 1

  /** The retry loop `do { … } while (!success && nrTries++ < 1000)` of round
      `round`; `attempt(round, n)` is how its `n`-th try ends. Returns the
      number of tries. */
  method Retry(attempt: (nat, nat) -> Attempt, round: nat) returns (tries: Tries, success: bool)
    ensures 1 <= tries <= MaxTries
    ensures forall n :: 0 <= n < tries - 1 ==> attempt(round, n) == Executed(false)
    ensures success <==> attempt(round, tries - 1) == Executed(true)
    ensures attempt(round, tries - 1) == Executed(false) ==> tries == MaxTries
  {
    var nrTries := 0;
    var last := attempt(round, 0);
    var made := 1;
    while last == Executed(false) && nrTries < 1000
      invariant nrTries == made - 1
      invariant 1 <= made <= MaxTries
      invariant last == attempt(round, made - 1)
      invariant forall n :: 0 <= n < made - 1 ==> attempt(round, n) == Executed(false)
      decreases 1000 - nrTries
    {
      nrTries := nrTries + 1;
      last := attempt(round, made);
      made := made + 1;
    }
    tries := made;
    success := last == Executed(true);
  }

  /** Round `round` made `tries` tries, as `Retry` describes: every try but the
      last returned `false`, and a last try that returned `false` used up every
      retry. */
  predicate Tried(attempt: (nat, nat) -> Attempt, round: nat, tries: Tries) {
    && (forall n :: 0 <= n < tries - 1 ==> attempt(round, n) == Executed(false))
    && (attempt(round, tries - 1) == Executed(false) ==> tries == MaxTries)
  }

  /** How the last of the `tries` tries of round `round` ended. */
  function LastTry(attempt: (nat, nat) -> Attempt, round: nat, tries: Tries): Attempt {
    attempt(round, tries - 1)
  }

  /** The tries of a run of rounds: every round `k` made `rounds[k]` tries as
      `Retry` describes, no round but the last ended `Aborted`, and `aborted`
      tells whether the last one did. */
  predicate Attempted(attempt: (nat, nat) -> Attempt, rounds: seq<Tries>, aborted: bool) {
    && (forall k :: 0 <= k < |rounds| ==> Tried(attempt, k, rounds[k]))
    && (forall k :: 0 <= k < |rounds| - 1 ==> LastTry(attempt, k, rounds[k]) != Aborted)
    && (aborted <==> |rounds| > 0 && LastTry(attempt, |rounds| - 1, rounds[|rounds| - 1]) == Aborted)
  }

  /** A further round after a run that was not aborted extends the run. */
  lemma AttemptedStep(attempt: (nat, nat) -> Attempt, rounds: seq<Tries>, n: Tries)
    requires Attempted(attempt, rounds, false)
    requires Tried(attempt, |rounds|, n)
    ensures Attempted(attempt, rounds + [n], LastTry(attempt, |rounds|, n) == Aborted)
  {
  }

  /** No action has been chosen more often than its budget allows. */
  predicate Fits(budgets: seq<nat>, chosen: seq<Action>)
    requires |budgets| == |Actions|
  {
    forall i :: 0 <= i < |Actions| ==> multiset(chosen)[Actions[i]] <= budgets[i]
  }

  /** `nrRemaining` once the actions of `chosen` have been scheduled. */
  function Remaining(budgets: seq<nat>, chosen: seq<Action>): (s: seq<nat>)
    requires |budgets| == |Actions| && Fits(budgets, chosen)
    ensures |s| == |Actions|
  {
    seq(|Actions|, i requires 0 <= i < |Actions| => budgets[i] - multiset(chosen)[Actions[i]])
  }

  /** Counts that add up to the budgets with the choices made so far are `Remaining`. */
  lemma RemainingAfter(budgets: seq<nat>, nrRemaining: seq<nat>, chosen: seq<Action>)
    requires |budgets| == |Actions| == |nrRemaining|
    requires forall i :: 0 <= i < |Actions| ==> nrRemaining[i] + multiset(chosen)[Actions[i]] == budgets[i]
    ensures Fits(budgets, chosen) && nrRemaining == Remaining(budgets, chosen)
  {
  }

  /** Moving one unit of entry `j` from the remaining counts to the choices
      keeps every action's remaining count plus its choices at its budget. */
  lemma CountsAfterPick(budgets: seq<nat>, nrRemaining: seq<nat>, chosen: seq<Action>, j: nat)
    requires |budgets| == |Actions| == |nrRemaining| && j < |Actions| && nrRemaining[j] > 0
    requires forall i :: 0 <= i < |Actions| ==> nrRemaining[i] + multiset(chosen)[Actions[i]] == budgets[i]
    ensures forall i :: 0 <= i < |Actions| ==>
              nrRemaining[j := nrRemaining[j] - 1][i] + multiset(chosen + [Actions[j]])[Actions[i]] == budgets[i]
  {
    forall i | 0 <= i < |Actions|
      ensures nrRemaining[j := nrRemaining[j] - 1][i] + multiset(chosen + [Actions[j]])[Actions[i]] == budgets[i]
    {
      OrdinalOfValue(i);
      OrdinalOfValue(j);
    }
  }

  /** Every round `k` of `chosen` picked the action whose window, over the
      counts left by the rounds before it, holds `selections[k]`. */
  predicate DrawnBy(budgets: seq<nat>, selections: seq<int>, chosen: seq<Action>)
    requires |budgets| == |Actions|
  {
    && |chosen| <= |selections|
    && forall k :: 0 <= k < |chosen| ==>
         Fits(budgets, chosen[..k])
         && InWindow(Remaining(budgets, chosen[..k]), Ordinal(chosen[k]), selections[k])
  }

  /** One more round drawn by its selection extends a drawn schedule. */
  lemma DrawnStep(budgets: seq<nat>, selections: seq<int>, chosen: seq<Action>, x: Action)
    requires |budgets| == |Actions|
    requires DrawnBy(budgets, selections, chosen) && |chosen| < |selections|
    requires Fits(budgets, chosen)
    requires InWindow(Remaining(budgets, chosen), Ordinal(x), selections[|chosen|])
    ensures DrawnBy(budgets, selections, chosen + [x])
  {
    var c := chosen + [x];
    assert c[..|chosen|] == chosen;
    forall k | 0 <= k < |chosen|
      ensures c[..k] == chosen[..k]
    {
    }
  }

  /** The state of the scheduling loop after the rounds of `chosen`: every
      action's remaining count plus its choices is its budget, and every round
      was drawn by its selection. */
  predicate Progress(budgets: seq<nat>, selections: seq<int>, nrRemaining: seq<nat>, chosen: seq<Action>)
    requires |budgets| == |Actions|
  {
    && |nrRemaining| == |Actions|
    && (forall i :: 0 <= i < |Actions| ==> nrRemaining[i] + multiset(chosen)[Actions[i]] == budgets[i])
    && DrawnBy(budgets, selections, chosen)
  }

  /** Taking one from a count whose window holds the round's selection moves
      the loop state on by one round. */
  lemma ProgressStep(budgets: seq<nat>, selections: seq<int>, nrRemaining: seq<nat>,
                     chosen: seq<Action>, j: nat)
    requires |budgets| == |Actions| && Progress(budgets, selections, nrRemaining, chosen)
    requires |chosen| < |selections| && j < |Actions| && nrRemaining[j] > 0
    requires InWindow(nrRemaining, j, selections[|chosen|])
    ensures Progress(budgets, selections, nrRemaining[j := nrRemaining[j] - 1], chosen + [Actions[j]])
  {
    RemainingAfter(budgets, nrRemaining, chosen);
    OrdinalOfValue(j);
    DrawnStep(budgets, selections, chosen, Actions[j]);
    CountsAfterPick(budgets, nrRemaining, chosen, j);
  }

  /** The state of the scheduling loop: the counts and choices are in step
      (`Progress`), `total` is what is left to schedule, and `rounds` holds
      the tries of every round so far, `aborted` whether the last one aborted. */
  predicate Scheduling(budgets: seq<nat>, selections: seq<int>, attempt: (nat, nat) -> Attempt,
                       nrRemaining: seq<nat>, total: nat, chosen: seq<Action>,
                       rounds: seq<Tries>, aborted: bool)
    requires |budgets| == |Actions|
  {
    && Progress(budgets, selections, nrRemaining, chosen)
    && total == Sum(nrRemaining)
    && |chosen| + total == Sum(budgets)
    && |rounds| == |chosen|
    && Attempted(attempt, rounds, aborted)
  }

  /** One round of the scheduling loop: pick the action whose window holds
      the round's selection, take one from its count and from `total`, and
      try its statement as `Retry` describes. */
  method Round(budgets: seq<nat>, selections: seq<int>, attempt: (nat, nat) -> Attempt,
               nrRemaining: seq<nat>, total: nat, chosen: seq<Action>, rounds: seq<Tries>)
    returns (nrRemaining': seq<nat>, total': nat, chosen': seq<Action>, rounds': seq<Tries>, aborted: bool)
    requires |budgets| == |Actions| && |selections| == Sum(budgets)
    requires forall k :: 0 <= k < |selections| ==> 0 <= selections[k] < Sum(budgets) - k
    requires Scheduling(budgets, selections, attempt, nrRemaining, total, chosen, rounds, false)
    requires total != 0
    ensures Scheduling(budgets, selections, attempt, nrRemaining', total', chosen', rounds', aborted)
    ensures total' + 1 == total
    ensures |chosen'| == |chosen| + 1 && chosen'[..|chosen|] == chosen
    ensures InWindow(nrRemaining, Ordinal(chosen'[|chosen|]), selections[|chosen|])
  {
    var found := Pick(nrRemaining, selections[|chosen|]);
    var j := found.value;
    OrdinalOfValue(j);
    ProgressStep(budgets, selections, nrRemaining, chosen, j);
    SumDecrement(nrRemaining, j);
    nrRemaining' := nrRemaining[j := nrRemaining[j] - 1];
    total' := total - 1;
    chosen' := chosen + [Actions[j]];
    var tries, success := Retry(attempt, |chosen|);
    AttemptedStep(attempt, rounds, tries);
    rounds' := rounds + [tries];
    aborted := LastTry(attempt, |chosen|, tries) == Aborted;
  }

  /** When the loop stops, no action was chosen past its budget, and unless a
      try aborted every budget was used up exactly. */
  lemma ScheduleEnd(budgets: seq<nat>, selections: seq<int>, attempt: (nat, nat) -> Attempt,
                    nrRemaining: seq<nat>, total: nat, chosen: seq<Action>,
                    rounds: seq<Tries>, aborted: bool)
    requires |budgets| == |Actions|
    requires Scheduling(budgets, selections, attempt, nrRemaining, total, chosen, rounds, aborted)
    requires total == 0 || aborted
    ensures Fits(budgets, chosen)
    ensures !aborted ==> |chosen| == Sum(budgets)
    ensures !aborted ==> forall i :: 0 <= i < |Actions| ==> multiset(chosen)[Actions[i]] == budgets[i]
  {
    RemainingAfter(budgets, nrRemaining, chosen);
    if !aborted {
      SumZero(nrRemaining);
    }
  }

  /** The scheduling loop `while (total != 0)`: in round `k` the action whose
      window holds `selections[k]` is chosen, its remaining count and `total`
      drop by one, and its statement is tried as `Retry` describes; `rounds[k]`
      is the number of tries of round `k`. An `Aborted` try ends the loop. */
  method Schedule(budgets: seq<nat>, selections: seq<int>, attempt: (nat, nat) -> Attempt)
    returns (chosen: seq<Action>, rounds: seq<Tries>, aborted: bool)
    requires |budgets| == |Actions|
    requires |selections| == Sum(budgets)
    requires forall k :: 0 <= k < |selections| ==> 0 <= selections[k] < Sum(budgets) - k
    ensures |rounds| == |chosen| <= Sum(budgets)
    ensures Attempted(attempt, rounds, aborted)
    ensures !aborted ==> |chosen| == Sum(budgets)
    ensures forall k :: 0 <= k < |chosen| ==>
              Fits(budgets, chosen[..k])
              && InWindow(Remaining(budgets, chosen[..k]), Ordinal(chosen[k]), selections[k])
    ensures Fits(budgets, chosen)
    ensures !aborted ==> forall i :: 0 <= i < |Actions| ==> multiset(chosen)[Actions[i]] == budgets[i]
  {
    var nrRemaining := budgets;
    var total := Sum(budgets);
    chosen := [];
    rounds := [];
    aborted := false;
    while total != 0 && !aborted
      invariant Scheduling(budgets, selections, attempt, nrRemaining, total, chosen, rounds, aborted)
      decreases total
    {
      nrRemaining, total, chosen, rounds, aborted :=
        Round(budgets, selections, attempt, nrRemaining, total, chosen, rounds);
    }
    ScheduleEnd(budgets, selections, attempt, nrRemaining, total, chosen, rounds, aborted);
  }

  /** Budgeting followed by scheduling, as `generateAndTestDatabase` runs them:
      no action is chosen more often than its budget, exactly as often when the
      schedule is not aborted, so COMMENT ON, SCRUB and TRANSACTION never are. */
  method Run(draws: seq<nat>, selections: seq<int>, attempt: (nat, nat) -> Attempt)
    returns (chosen: seq<Action>, rounds: seq<Tries>, aborted: bool)
    requires |draws| == |Actions|
    requires |selections| == Sum(BudgetsOf(draws))
    requires forall k :: 0 <= k < |selections| ==> 0 <= selections[k] < |selections| - k
    ensures |rounds| == |chosen|
    ensures Attempted(attempt, rounds, aborted)
    ensures forall k :: 0 <= k < |rounds| ==> Tried(attempt, k, rounds[k])
    ensures forall a :: multiset(chosen)[a] <= Budget(a, draws[Ordinal(a)])
    ensures !aborted ==> forall a :: multiset(chosen)[a] == Budget(a, draws[Ordinal(a)])
    ensures forall a :: NeverScheduled(a) ==> a !in chosen
  {
    var nrRemaining, actions, total := AssignBudgets(draws);
    assert nrRemaining == BudgetsOf(draws);
    chosen, rounds, aborted := Schedule(nrRemaining, selections, attempt);
    forall a
      ensures multiset(chosen)[a] <= Budget(a, draws[Ordinal(a)])
      ensures !aborted ==> multiset(chosen)[a] == Budget(a, draws[Ordinal(a)])
    {
      assert Actions[Ordinal(a)] == a;
    }
  }

  /** The budgets the budget loop assigns, by ordinal. */
  function BudgetsOf(draws: seq<nat>): (b: seq<nat>)
    requires |draws| == |Actions|
    ensures |b| == |Actions|
    ensures forall i :: 0 <= i < |Actions| ==> b[i] == Budget(Actions[i], draws[i])
  {
    seq(|Actions|, i requires 0 <= i < |Actions| => Budget(Actions[i], draws[i]))
  }
}
