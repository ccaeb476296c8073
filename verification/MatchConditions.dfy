/** Match conditions, implemented twice: for webhooks, with the failure policy
    applied, and for admission policies. */
module MatchConditions {
  import opened Prelude
  import opened Text
  import opened Ledger
  import opened CelBudget
  import MutatingDispatch

  type FailurePolicy = MutatingDispatch.FailurePolicy

  const MATCH_CONDITIONS_BUDGET := 2_500_000

  datatype MatchCondition = MatchCondition(name: string, expression: string)

  datatype MatchOutcome = Matched | NotMatched | MatchError(message: string)

  datatype WebhookMatch = Matches | Excluded | Forbidden(message: string)

  predicate Blank(c: MatchCondition) {
    Trim(c.expression) == ""
  }

  function CostOf(eval: Evaluator, c: MatchCondition): nat {
    if Blank(c) then 0 else eval(c.expression).cost
  }

  /** What a condition says: a bool, or the error text it counts for. */
  function Answer(eval: Evaluator, c: MatchCondition): Result<bool, string> {
    var failed := "matchCondition '" + c.name + "' (expression: " + c.expression + ") failed: ";
    match eval(c.expression).value
    case Ok(BoolValue(b)) => Ok(b)
    case Ok(NullValue) => Err(failed + "expression resulted in non-bool value: null")
    case Ok(StringValue(s)) => Err(failed + "expression resulted in non-bool value: " + s)
    case Ok(OtherValue(d)) => Err(failed + "expression resulted in non-bool value: " + d)
    case Err(e) => Err(failed + e)
  }

  predicate SaysFalse(eval: Evaluator, c: MatchCondition) {
    !Blank(c) && Answer(eval, c) == Ok(false)
  }

  predicate Fails(eval: Evaluator, c: MatchCondition) {
    !Blank(c) && Answer(eval, c).Err?
  }

  // ------------------------------------------------------ the verdict class

  datatype Class = Exhausted | SomeFalse | SomeError | AllTrue

  ghost predicate Affordable(eval: Evaluator, conds: seq<MatchCondition>) {
    Total((c: MatchCondition) => CostOf(eval, c), conds) <= MATCH_CONDITIONS_BUDGET
  }

  /** The verdict in terms of the conditions as a whole. */
  ghost function ClassOf(eval: Evaluator, conds: seq<MatchCondition>): Class {
    if !Affordable(eval, conds) then Exhausted
    else if exists c :: c in conds && SaysFalse(eval, c) then SomeFalse
    else if exists c :: c in conds && Fails(eval, c) then SomeError
    else AllTrue
  }

  /** The verdict class in terms of the values: some condition is false, or none
      is and some is an error or no bool, or all are true. */
  lemma ClassMeans(eval: Evaluator, conds: seq<MatchCondition>)
    requires Affordable(eval, conds)
    ensures ClassOf(eval, conds).SomeFalse? <==>
            exists c :: c in conds && Trim(c.expression) != "" && eval(c.expression).value == Ok(BoolValue(false))
    ensures ClassOf(eval, conds).AllTrue? <==>
            forall c | c in conds && Trim(c.expression) != "" :: eval(c.expression).value == Ok(BoolValue(true))
    ensures !ClassOf(eval, conds).Exhausted?
  {
    forall c ensures SaysFalse(eval, c) <==> Trim(c.expression) != "" && eval(c.expression).value == Ok(BoolValue(false)) {
    }
    forall c ensures SaysFalse(eval, c) || Fails(eval, c) <==> Trim(c.expression) != "" && eval(c.expression).value != Ok(BoolValue(true)) {
    }
  }

  /** The order of the conditions does not matter, budget exhaustion included. */
  lemma ClassOrderFree(eval: Evaluator, a: seq<MatchCondition>, b: seq<MatchCondition>)
    requires multiset(a) == multiset(b)
    ensures ClassOf(eval, a) == ClassOf(eval, b)
  {
    TotalOrderFree((c: MatchCondition) => CostOf(eval, c), a, b);
    assert forall c :: c in a <==> c in multiset(a);
    assert forall c :: c in b <==> c in multiset(b);
  }

  /** The error texts of the failing conditions, in order. */
  function ErrorsOf(eval: Evaluator, conds: seq<MatchCondition>): seq<string> {
    if conds == [] then []
    else
      var c := conds[|conds| - 1];
      ErrorsOf(eval, conds[..|conds| - 1]) + if Fails(eval, c) then [Answer(eval, c).error] else []
  }

  lemma {:induction false} ErrorsExist(eval: Evaluator, conds: seq<MatchCondition>)
    ensures ErrorsOf(eval, conds) == [] <==> forall c | c in conds :: !Fails(eval, c)
  {
    if conds != [] {
      assert conds == conds[..|conds| - 1] + [conds[|conds| - 1]];
      ErrorsExist(eval, conds[..|conds| - 1]);
    }
  }

  // --------------------------------------------------------- error texts

  function Join(errors: seq<string>): string {
    if errors == [] then ""
    else if |errors| == 1 then errors[0]
    else Join(errors[..|errors| - 1]) + ", " + errors[|errors| - 1]
  }

  /** First occurrences, in order. */
  function Dedup(errors: seq<string>): seq<string> {
    if errors == [] then []
    else
      var seen := Dedup(errors[..|errors| - 1]);
      if errors[|errors| - 1] in seen then seen else seen + [errors[|errors| - 1]]
  }

  /** How the policy evaluator reports several errors. */
  function Listed(errors: seq<string>): string {
    if |errors| == 1 then errors[0] else "[" + Join(errors) + "]"
  }

  /** How the webhook matcher does: distinct errors only. */
  function Aggregated(errors: seq<string>): string {
    if |errors| == 1 then errors[0]
    else if |Dedup(errors)| == 1 then Dedup(errors)[0]
    else "[" + Join(Dedup(errors)) + "]"
  }

  lemma {:induction false} DedupShortens(errors: seq<string>)
    ensures Distinct(errors) ==> Dedup(errors) == errors
    ensures !Distinct(errors) ==> |Dedup(errors)| < |errors| && |Join(Dedup(errors))| + 2 <= |Join(errors)|
    ensures |Dedup(errors)| <= |errors| && |Join(Dedup(errors))| <= |Join(errors)|
    ensures (errors == [] <==> Dedup(errors) == []) && forall e :: e in Dedup(errors) <==> e in errors
  {
    if errors != [] {
      var init, last := errors[..|errors| - 1], errors[|errors| - 1];
      assert errors == init + [last];
      DedupShortens(init);
      var seen := Dedup(init);
      assert (seen + [last])[..|seen|] == seen;
      if last !in init && Distinct(init) {
        assert Distinct(errors);
      }
    }
  }

  /** The two texts are the same exactly when no error text repeats. */
  lemma TextsAgree(errors: seq<string>)
    requires errors != []
    ensures Aggregated(errors) == Listed(errors) <==> Distinct(errors)
  {
    DedupShortens(errors);
    if !Distinct(errors) && |Dedup(errors)| == 1 {
      assert Join(Dedup(errors)) == Dedup(errors)[0];
    }
  }

  // ------------------------------------------------- the policy evaluator

  /** What the policy evaluator answers. */
  ghost function OutcomeOf(eval: Evaluator, conds: seq<MatchCondition>): MatchOutcome {
    match ClassOf(eval, conds)
    case Exhausted => MatchError(OUT_OF_BUDGET)
    case SomeFalse => NotMatched
    case SomeError => MatchError(Listed(ErrorsOf(eval, conds)))
    case AllTrue => Matched
  }

  /** The first loop of `evaluate_with_context`: charge and evaluate every
      condition. */
  method EvaluateConditions(conds: seq<MatchCondition>, eval: Evaluator)
    returns (r: Option<seq<Result<bool, string>>>)
    ensures r.None? <==> !Affordable(eval, conds)
    ensures r.Some? ==> r.value == AnswersOf(eval, conds)
  {
    ghost var cost := (c: MatchCondition) => CostOf(eval, c);
    var remaining: nat := MATCH_CONDITIONS_BUDGET;
    var results := [];
    var i := 0;
    while i < |conds|
      invariant 0 <= i <= |conds|
      invariant remaining + Total(cost, conds[..i]) == MATCH_CONDITIONS_BUDGET
      invariant results == AnswersOf(eval, conds[..i])
    {
      TotalSnoc(cost, conds, i);
      assert conds[..i + 1][..i] == conds[..i];
      if !Blank(conds[i]) {
        match ChargeBudget(None, eval(conds[i].expression).cost, remaining) {
          case Err(_) =>
            TotalPrefix(cost, conds, i + 1);
            return None;
          case Ok(left) =>
            remaining := left;
        }
        results := results + [Answer(eval, conds[i])];
      }
      i := i + 1;
    }
    assert conds[..i] == conds;
    return Some(results);
  }

  /** The answers of the non-blank conditions, in order. */
  function AnswersOf(eval: Evaluator, conds: seq<MatchCondition>): seq<Result<bool, string>> {
    if conds == [] then []
    else
      var c := conds[|conds| - 1];
      AnswersOf(eval, conds[..|conds| - 1]) + if Blank(c) then [] else [Answer(eval, c)]
  }

  function Failures(answers: seq<Result<bool, string>>): seq<string> {
    if answers == [] then []
    else
      var a := answers[|answers| - 1];
      Failures(answers[..|answers| - 1]) + if a.Err? then [a.error] else []
  }

  lemma {:induction false} AnswersFail(eval: Evaluator, conds: seq<MatchCondition>)
    ensures Failures(AnswersOf(eval, conds)) == ErrorsOf(eval, conds)
  {
    if conds != [] {
      var init, c := conds[..|conds| - 1], conds[|conds| - 1];
      AnswersFail(eval, init);
      var before := AnswersOf(eval, init);
      if Blank(c) {
        assert AnswersOf(eval, conds) == before;
      } else {
        assert AnswersOf(eval, conds) == before + [Answer(eval, c)];
        assert (before + [Answer(eval, c)])[..|before|] == before;
      }
    }
  }

  lemma {:induction false} AnswersFalse(eval: Evaluator, conds: seq<MatchCondition>)
    ensures Ok(false) in AnswersOf(eval, conds) <==> exists c :: c in conds && SaysFalse(eval, c)
  {
    if conds != [] {
      var init, c := conds[..|conds| - 1], conds[|conds| - 1];
      assert conds == init + [c];
      AnswersFalse(eval, init);
      assert Ok(false) in AnswersOf(eval, conds) <==> Ok(false) in AnswersOf(eval, init) || SaysFalse(eval, c);
    }
  }

  /** The verdict class as the second loop sees it. */
  lemma {:induction false} ClassFromAnswers(eval: Evaluator, conds: seq<MatchCondition>)
    requires Affordable(eval, conds)
    ensures var answers := AnswersOf(eval, conds);
            && Failures(answers) == ErrorsOf(eval, conds)
            && ClassOf(eval, conds) ==
               if Ok(false) in answers then SomeFalse else if Failures(answers) != [] then SomeError else AllTrue
  {
    AnswersFail(eval, conds);
    AnswersFalse(eval, conds);
    ErrorsExist(eval, conds);
  }

  /** Its second loop: a false ends it, errors are collected. */
  method ReadAnswers(answers: seq<Result<bool, string>>) returns (sawFalse: bool, errors: seq<string>)
    ensures sawFalse <==> Ok(false) in answers
    ensures !sawFalse ==> errors == Failures(answers)
  {
    errors := [];
    var i := 0;
    while i < |answers|
      invariant 0 <= i <= |answers|
      invariant Ok(false) !in answers[..i] && errors == Failures(answers[..i])
    {
      assert answers[..i + 1] == answers[..i] + [answers[i]];
      match answers[i] {
        case Err(e) => errors := errors + [e];
        case Ok(b) =>
          if !b {
            return true, errors;
          }
      }
      i := i + 1;
    }
    assert answers[..i] == answers;
    return false, errors;
  }

  /** `MatchConditionEvaluator::evaluate_with_context` */
  method EvaluateWithContext(conds: seq<MatchCondition>, eval: Evaluator) returns (r: MatchOutcome)
    ensures r == OutcomeOf(eval, conds)
    ensures !Affordable(eval, conds) ==> r == MatchError(OUT_OF_BUDGET)
    ensures Affordable(eval, conds) ==>
      && (r == NotMatched <==> exists c :: c in conds && Trim(c.expression) != "" && eval(c.expression).value == Ok(BoolValue(false)))
      && (r == Matched <==> forall c | c in conds && Trim(c.expression) != "" :: eval(c.expression).value == Ok(BoolValue(true)))
  {
    if Affordable(eval, conds) {
      ClassMeans(eval, conds);
    }
    var results := EvaluateConditions(conds, eval);
    if results.None? {
      return MatchError(OUT_OF_BUDGET);
    }
    ClassFromAnswers(eval, conds);
    var sawFalse, errors := ReadAnswers(results.value);
    if sawFalse {
      return NotMatched;
    }
    return if errors == [] then Matched else MatchError(Listed(errors));
  }

  /** `MatchConditionEvaluator::evaluate`; building the activation may fail. */
  method Evaluate(conds: seq<MatchCondition>, context: Result<Evaluator, string>) returns (r: MatchOutcome)
    ensures r == EvaluateOf(conds, context)
  {
    if conds == [] {
      return Matched;
    }
    match context {
      case Err(e) => r := MatchError("failed to build CEL context: " + e);
      case Ok(eval) => r := EvaluateWithContext(conds, eval);
    }
  }

  ghost function EvaluateOf(conds: seq<MatchCondition>, context: Result<Evaluator, string>): MatchOutcome {
    if conds == [] then Matched
    else if context.Err? then MatchError("failed to build CEL context: " + context.error)
    else OutcomeOf(context.value, conds)
  }

  // ------------------------------------------------- the webhook matcher

  /** What a failure of the filter, or of a condition, means under a policy. */
  function ByPolicy(policy: FailurePolicy, message: string): WebhookMatch {
    match policy
    case Fail => Forbidden(message)
    case Ignore => Excluded
    case Unknown(_) => Matches
  }

  /** What the matcher observes: a condition's evaluation error, the time the
      conditions took, the exclusion of a webhook. */
  datatype Note = EvalError | EvaluationTime | Exclusion

  datatype Inner = InnerMatches | InnerExcluded | InnerError(message: string)

  /** The first false answer; the length if there is none. */
  function FirstFalse(answers: seq<Result<bool, string>>): (n: nat)
    ensures n <= |answers| && (n < |answers| ==> answers[n] == Ok(false)) && Ok(false) !in answers[..n]
  {
    if answers == [] || answers[0] == Ok(false) then 0
    else
      var n := FirstFalse(answers[1..]);
      assert answers[..n + 1] == [answers[0]] + answers[1..][..n];
      n + 1
  }

  function ErrorNotes(n: nat): seq<Note> {
    seq(n, i => EvalError)
  }

  /** The notes of `match_inner`: an error for each failing answer before the
      first false, then the time, which only an all-true outcome leaves out. */
  ghost function InnerNotes(conds: seq<MatchCondition>, context: Result<Evaluator, string>): seq<Note> {
    if context.Err? || !Affordable(context.value, conds) then [EvaluationTime]
    else
      var answers := AnswersOf(context.value, conds);
      ErrorNotes(|Failures(answers[..FirstFalse(answers)])|)
      + if ClassOf(context.value, conds).AllTrue? then [] else [EvaluationTime]
  }

  function AsInner(m: WebhookMatch): Inner {
    match m
    case Matches => InnerMatches
    case Excluded => InnerExcluded
    case Forbidden(message) => InnerError(message)
  }

  lemma {:induction false} OneFalse(answers: seq<Result<bool, string>>, i: nat)
    requires i < |answers| && answers[i] == Ok(false) && Ok(false) !in answers[..i]
    ensures FirstFalse(answers) == i
  {
    var n := FirstFalse(answers);
    assert forall j | 0 <= j < i :: answers[..i][j] == answers[j];
    assert forall j | 0 <= j < n :: answers[..n][j] == answers[j];
  }

  lemma {:induction false} NoFalse(answers: seq<Result<bool, string>>)
    requires Ok(false) !in answers
    ensures FirstFalse(answers) == |answers| && answers[..|answers|] == answers
  {
  }

  /** The part of `match_inner` that charges and evaluates the conditions. */
  method EvaluateInner(conds: seq<MatchCondition>, policy: FailurePolicy, eval: Evaluator)
    returns (stop: Option<Inner>, results: seq<Result<bool, string>>, notes: seq<Note>)
    ensures stop.Some? <==> !Affordable(eval, conds)
    ensures stop.Some? ==> stop.value == AsInner(ByPolicy(policy, OUT_OF_BUDGET)) && notes == [EvaluationTime]
    ensures stop.None? ==> results == AnswersOf(eval, conds) && notes == []
  {
    ghost var cost := (c: MatchCondition) => CostOf(eval, c);
    var remaining: nat := MATCH_CONDITIONS_BUDGET;
    results, notes := [], [];
    var i := 0;
    while i < |conds|
      invariant 0 <= i <= |conds| && notes == []
      invariant remaining + Total(cost, conds[..i]) == MATCH_CONDITIONS_BUDGET
      invariant results == AnswersOf(eval, conds[..i])
    {
      TotalSnoc(cost, conds, i);
      assert conds[..i + 1][..i] == conds[..i];
      if !Blank(conds[i]) {
        match ChargeBudget(None, eval(conds[i].expression).cost, remaining) {
          case Err(detail) =>
            TotalPrefix(cost, conds, i + 1);
            notes := notes + [EvaluationTime];
            match policy {
              case Fail => return Some(InnerError(detail)), results, notes;
              case Ignore => return Some(InnerExcluded), results, notes;
              case Unknown(_) => return Some(InnerMatches), results, notes;
            }
          case Ok(left) =>
            remaining := left;
        }
        results := results + [Answer(eval, conds[i])];
      }
      i := i + 1;
    }
    assert conds[..i] == conds;
    stop := None;
  }

  /** The part of `match_inner` that reads the results. */
  method ReadInner(answers: seq<Result<bool, string>>, policy: FailurePolicy) returns (r: Inner, notes: seq<Note>)
    ensures Ok(false) in answers ==> r == InnerExcluded
    ensures Ok(false) !in answers ==>
              r == if Failures(answers) == [] then InnerMatches else AsInner(ByPolicy(policy, Aggregated(Failures(answers))))
    ensures notes == ErrorNotes(|Failures(answers[..FirstFalse(answers)])|)
                     + if Ok(false) in answers || Failures(answers) != [] then [EvaluationTime] else []
  {
    var errors := [];
    notes := [];
    var i := 0;
    while i < |answers|
      invariant 0 <= i <= |answers|
      invariant Ok(false) !in answers[..i] && errors == Failures(answers[..i])
      invariant notes == ErrorNotes(|errors|)
    {
      assert answers[..i + 1] == answers[..i] + [answers[i]];
      match answers[i] {
        case Err(e) =>
          errors := errors + [e];
          notes := notes + [EvalError];
        case Ok(b) =>
          if !b {
            OneFalse(answers, i);
            return InnerExcluded, notes + [EvaluationTime];
          }
      }
      i := i + 1;
    }
    assert answers[..i] == answers;
    NoFalse(answers);
    if errors != [] {
      notes := notes + [EvaluationTime];
      match policy {
        case Fail => return InnerError(Aggregated(errors)), notes;
        case Ignore => return InnerExcluded, notes;
        case Unknown(_) => return InnerMatches, notes;
      }
    }
    return InnerMatches, notes;
  }

  /** `match_inner`, with its own loops, policy branches and observations. */
  method MatchInner(conds: seq<MatchCondition>, policy: FailurePolicy, context: Result<Evaluator, string>)
    returns (r: Inner, notes: seq<Note>)
    ensures r == AsInner(InnerOf(conds, policy, context))
    ensures notes == InnerNotes(conds, context)
  {
    if context.Err? {
      notes := [EvaluationTime];
      match policy {
        case Fail => return InnerError(context.error), notes;
        case Ignore => return InnerExcluded, notes;
        case Unknown(_) => return InnerMatches, notes;
      }
    }
    var stop, results, before := EvaluateInner(conds, policy, context.value);
    if stop.Some? {
      return stop.value, before;
    }
    ClassFromAnswers(context.value, conds);
    r, notes := ReadInner(results, policy);
  }

  /** How a failure ends under each policy: Fail, or none, refuses the request,
      Ignore skips the webhook, any other calls it. */
  predicate FailsBy(failurePolicy: Option<FailurePolicy>, r: WebhookMatch) {
    if failurePolicy.None? || failurePolicy.value.Fail? then r.Forbidden?
    else if failurePolicy.value.Ignore? then r == Excluded
    else r == Matches
  }

  /** `match_webhook_conditions`; an absent policy is Fail. */
  method MatchWebhookConditions(conds: seq<MatchCondition>, failurePolicy: Option<FailurePolicy>, context: Result<Evaluator, string>)
    returns (r: WebhookMatch, notes: seq<Note>)
    ensures r == MatchOf(conds, failurePolicy, context)
    ensures notes == NotesOf(conds, failurePolicy, context)
    ensures conds == [] ==> r == Matches
    ensures conds != [] && context.Err? ==> FailsBy(failurePolicy, r)
    ensures conds != [] && context.Ok? && !Affordable(context.value, conds) ==> FailsBy(failurePolicy, r)
    ensures conds != [] && context.Ok? && Affordable(context.value, conds) ==>
      && ((exists c :: c in conds && Trim(c.expression) != "" && context.value(c.expression).value == Ok(BoolValue(false))) ==> r == Excluded)
      && ((forall c | c in conds && Trim(c.expression) != "" :: context.value(c.expression).value == Ok(BoolValue(true))) ==> r == Matches)
      && ((forall c | c in conds && Trim(c.expression) != "" :: context.value(c.expression).value != Ok(BoolValue(false)))
          && (exists c :: c in conds && Trim(c.expression) != "" && context.value(c.expression).value != Ok(BoolValue(true)))
          ==> FailsBy(failurePolicy, r))
  {
    if context.Ok? && Affordable(context.value, conds) {
      ClassMeans(context.value, conds);
    }
    if conds == [] {
      return Matches, [];
    }
    var policy := if failurePolicy.Some? then failurePolicy.value else MutatingDispatch.Fail;
    var inner;
    inner, notes := MatchInner(conds, policy, context);
    match inner {
      case InnerMatches => r := Matches;
      case InnerExcluded =>
        notes := notes + [Exclusion];
        r := Excluded;
      case InnerError(message) => r := Forbidden(message);
    }
  }

  ghost function NotesOf(conds: seq<MatchCondition>, failurePolicy: Option<FailurePolicy>, context: Result<Evaluator, string>): seq<Note> {
    if conds == [] then []
    else InnerNotes(conds, context) + if MatchOf(conds, failurePolicy, context).Excluded? then [Exclusion] else []
  }

  function PolicyOf(failurePolicy: Option<FailurePolicy>): FailurePolicy {
    if failurePolicy.Some? then failurePolicy.value else MutatingDispatch.Fail
  }

  ghost function InnerOf(conds: seq<MatchCondition>, policy: FailurePolicy, context: Result<Evaluator, string>): WebhookMatch {
    if context.Err? then ByPolicy(policy, context.error)
    else
      match ClassOf(context.value, conds)
      case Exhausted => ByPolicy(policy, OUT_OF_BUDGET)
      case SomeFalse => Excluded
      case SomeError => ByPolicy(policy, Aggregated(ErrorsOf(context.value, conds)))
      case AllTrue => Matches
  }

  ghost function MatchOf(conds: seq<MatchCondition>, failurePolicy: Option<FailurePolicy>, context: Result<Evaluator, string>): WebhookMatch {
    if conds == [] then Matches else InnerOf(conds, PolicyOf(failurePolicy), context)
  }

  /** The failure-policy mapping of the policy evaluator's answer. */
  function Mapped(policy: FailurePolicy, outcome: MatchOutcome): WebhookMatch {
    match outcome
    case Matched => Matches
    case NotMatched => Excluded
    case MatchError(message) => ByPolicy(policy, message)
  }

  /** Equal up to the text of a refusal. */
  predicate SameVerdict(a: WebhookMatch, b: WebhookMatch) {
    a == b || (a.Forbidden? && b.Forbidden?)
  }

  /** The webhook matcher is the failure-policy mapping of the policy evaluator,
      and says the same words unless the activation could not be built or two
      conditions failed with the same text. */
  lemma {:induction false} ImplementationsAgree(conds: seq<MatchCondition>, failurePolicy: Option<FailurePolicy>, context: Result<Evaluator, string>)
    ensures SameVerdict(MatchOf(conds, failurePolicy, context), Mapped(PolicyOf(failurePolicy), EvaluateOf(conds, context)))
    ensures context.Ok? && Distinct(ErrorsOf(context.value, conds)) ==>
              MatchOf(conds, failurePolicy, context) == Mapped(PolicyOf(failurePolicy), EvaluateOf(conds, context))
  {
    if conds != [] && context.Ok? && ClassOf(context.value, conds).SomeError? {
      ErrorsExist(context.value, conds);
      TextsAgree(ErrorsOf(context.value, conds));
    }
  }

  /** Reordering the conditions changes at most the text of a refusal. */
  lemma MatchOrderFree(a: seq<MatchCondition>, b: seq<MatchCondition>, failurePolicy: Option<FailurePolicy>, context: Result<Evaluator, string>)
    requires multiset(a) == multiset(b)
    ensures SameVerdict(MatchOf(a, failurePolicy, context), MatchOf(b, failurePolicy, context))
  {
    assert |a| == |multiset(a)| == |b|;
    if context.Ok? {
      ClassOrderFree(context.value, a, b);
    }
  }

  /** The observations tell the outcome: an exclusion is noted, once and last,
      exactly for an excluded webhook; nothing is noted exactly when every
      condition says true; and without a false every error is noted once. */
  lemma {:induction false} NotesTell(conds: seq<MatchCondition>, failurePolicy: Option<FailurePolicy>, context: Result<Evaluator, string>)
    requires conds != []
    ensures var notes, m := NotesOf(conds, failurePolicy, context), MatchOf(conds, failurePolicy, context);
            && (m.Excluded? <==> Exclusion in notes)
            && (m.Excluded? ==> notes[|notes| - 1] == Exclusion && Exclusion !in notes[..|notes| - 1])
            && (notes == [] <==> context.Ok? && ClassOf(context.value, conds).AllTrue?)
            && (context.Ok? && ClassOf(context.value, conds).SomeError? ==>
                  multiset(notes)[EvalError] == |ErrorsOf(context.value, conds)|)
  {
    var inner := InnerNotes(conds, context);
    InnerNotesTell(conds, context);
    assert MatchOf(conds, failurePolicy, context).Excluded? ==> (inner + [Exclusion])[..|inner|] == inner;
  }

  lemma {:induction false} InnerNotesTell(conds: seq<MatchCondition>, context: Result<Evaluator, string>)
    ensures var notes := InnerNotes(conds, context);
            && Exclusion !in notes
            && (notes == [] <==> context.Ok? && ClassOf(context.value, conds).AllTrue?)
            && (context.Ok? && ClassOf(context.value, conds).SomeError? ==>
                  multiset(notes)[EvalError] == |ErrorsOf(context.value, conds)|)
  {
    if context.Ok? && Affordable(context.value, conds) {
      ClassFromAnswers(context.value, conds);
      var answers := AnswersOf(context.value, conds);
      var verdict := ClassOf(context.value, conds);
      var n := |Failures(answers[..FirstFalse(answers)])|;
      if !verdict.SomeFalse? {
        NoFalse(answers);
      }
      assert verdict.AllTrue? ==> n == 0;
      NotesShape(n, if verdict.AllTrue? then [] else [EvaluationTime]);
    }
  }

  lemma NotesShape(n: nat, tail: seq<Note>)
    requires tail == [] || tail == [EvaluationTime]
    ensures var notes := ErrorNotes(n) + tail;
            Exclusion !in notes && (notes == [] <==> n == 0 && tail == []) && multiset(notes)[EvalError] == n
  {
    CountErrorNotes(n);
  }

  lemma {:induction false} CountErrorNotes(n: nat)
    ensures multiset(ErrorNotes(n))[EvalError] == n
  {
    if n > 0 {
      assert ErrorNotes(n) == ErrorNotes(n - 1) + [EvalError];
      CountErrorNotes(n - 1);
    }
  }
}
