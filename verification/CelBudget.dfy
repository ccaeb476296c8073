/** The shared cost budgets of policy validations, message expressions and audit
    annotations. */
module CelBudget {
  import opened Prelude
  import opened Text
  import opened VariableCosts
  import opened Ledger

  const RUNTIME_CEL_COST_BUDGET := 10_000_000
  const MAX_MESSAGE_SIZE := 5 * 1024
  const OUT_OF_BUDGET := "validation failed due to running out of cost budget, no further validation rules will be run"

  datatype CelValue = NullValue | BoolValue(b: bool) | StringValue(s: string) | OtherValue(debug: string)

  /** Evaluating an expression in a fixed activation. */
  datatype Evaluation = Evaluation(value: Result<CelValue, string>, cost: nat)
  type Evaluator = string -> Evaluation

  /** `charge_budget`: both charges together against what is left. */
  function ChargeBudget(composition: Option<nat>, cost: nat, remaining: nat): (r: Result<nat, string>)
    requires remaining <= I64_MAX
    ensures var charge := cost + if composition.Some? then composition.value else 0;
            if charge <= remaining then r == Ok(remaining - charge) else r == Err(OUT_OF_BUDGET)
  {
    if composition.Some? && composition.value > remaining then Err(OUT_OF_BUDGET)
    else
      var left := if composition.Some? then remaining - composition.value else remaining;
      if cost > I64_MAX || cost > left then Err(OUT_OF_BUDGET) else Ok(left - cost)
  }

  /** Below the top of `i64` a saturated composition cost is refused exactly
      when the true one is. */
  lemma SaturationHarmless(composition: nat, cost: nat, remaining: nat)
    requires remaining < I64_MAX
    ensures ChargeBudget(Some(Saturate(composition)), cost, remaining) ==
            if composition + cost <= remaining then Ok(remaining - (composition + cost)) else Err(OUT_OF_BUDGET)
  {
  }

  // ------------------------------------------------- the meter of a surface

  /** The charged set an expression leaves. */
  ghost function Leaves(entries: Entries, charged: set<string>, e: string): set<string> {
    charged + Fresh(entries, charged, Referenced(e))
  }

  /** What an expression costs: the fresh variables it reaches and its own
      evaluation. */
  ghost function Charge(eval: Evaluator, entries: Entries, charged: set<string>, e: string): nat {
    SumCost(entries, Fresh(entries, charged, Referenced(e))) + eval(e).cost
  }

  ghost function Charging(eval: Evaluator, entries: Entries): Meter<set<string>, string> {
    Meter((charged, e) => Leaves(entries, charged, e), (charged, e) => Charge(eval, entries, charged, e))
  }

  function Value(eval: Evaluator, expr: string): Result<CelValue, string> {
    match eval(expr).value
    case Ok(v) => Ok(v)
    case Err(e) => Err("expression '" + expr + "' resulted in error: " + e)
  }

  /** `results` are the values of the first `i` expressions. */
  ghost predicate Holds(eval: Evaluator, exprs: seq<string>, results: seq<Result<CelValue, string>>, i: nat) {
    |results| == i <= |exprs| && forall k | 0 <= k < i :: results[k] == Value(eval, exprs[k])
  }

  lemma HoldsNext(eval: Evaluator, exprs: seq<string>, results: seq<Result<CelValue, string>>, i: nat)
    requires i < |exprs| && Holds(eval, exprs, results, i)
    ensures Holds(eval, exprs, results + [Value(eval, exprs[i])], i + 1)
  {
  }

  /** `evaluate_charged` */
  method EvaluateCharged(eval: Evaluator, expr: string, variables: VariableCosts, remaining: nat)
    returns (r: Result<(Result<CelValue, string>, nat), string>)
    requires remaining < I64_MAX
    modifies variables`charged
    ensures var m, before := Charging(eval, variables.entries), old(variables.charged);
            && variables.charged == m.next(before, expr)
            && r == if m.charge(before, expr) <= remaining then Ok((Value(eval, expr), remaining - m.charge(before, expr)))
                    else Err(OUT_OF_BUDGET)
  {
    ghost var found := Fresh(variables.entries, variables.charged, Referenced(expr));
    SaturationHarmless(SumCost(variables.entries, found), eval(expr).cost, remaining);
    var composition := variables.CompositionCost(expr);
    match ChargeBudget(Some(composition), eval(expr).cost, remaining) {
      case Err(e) => r := Err(e);
      case Ok(left) => r := Ok((Value(eval, expr), left));
    }
  }

  /** The first `i` expressions have been evaluated and paid for. */
  ghost predicate Evaluated<S>(eval: Evaluator, m: Meter<S, string>, before: S, exprs: seq<string>, budget: nat, i: nat,
                               results: seq<Result<CelValue, string>>, now: S, remaining: nat)
  {
    && i <= |exprs| && remaining <= budget
    && Holds(eval, exprs, results, i) && Paid(m, before, exprs[..i], budget, now, remaining)
  }

  lemma EvaluateNext<S>(eval: Evaluator, m: Meter<S, string>, before: S, exprs: seq<string>, budget: nat, i: nat,
                        results: seq<Result<CelValue, string>>, now: S, remaining: nat)
    requires i < |exprs| && Evaluated(eval, m, before, exprs, budget, i, results, now, remaining)
    ensures var charge, next := m.charge(now, exprs[i]), m.next(now, exprs[i]);
            if charge <= remaining then
              Evaluated(eval, m, before, exprs, budget, i + 1, results + [Value(eval, exprs[i])], next, remaining - charge)
            else Metered(m, before, exprs, budget, next, None)
  {
    PayNext(m, before, exprs, i, budget, now, remaining);
    HoldsNext(eval, exprs, results, i);
  }

  lemma EvaluatedAll<S>(eval: Evaluator, m: Meter<S, string>, before: S, exprs: seq<string>, budget: nat,
                        results: seq<Result<CelValue, string>>, now: S, remaining: nat)
    requires Evaluated(eval, m, before, exprs, budget, |exprs|, results, now, remaining)
    ensures Holds(eval, exprs, results, |exprs|) && Metered(m, before, exprs, budget, now, Some(remaining))
  {
    assert exprs[..|exprs|] == exprs;
    PaidAll(m, before, exprs, budget, now, remaining);
  }

  /** The loop shared by the surfaces: evaluate the expressions in turn on one
      budget, giving up at the first overrun. */
  method EvaluateAll(exprs: seq<string>, eval: Evaluator, variables: VariableCosts, budget: nat)
    returns (r: Result<(seq<Result<CelValue, string>>, nat), string>)
    requires budget <= RUNTIME_CEL_COST_BUDGET
    modifies variables`charged
    ensures if r.Ok? then Holds(eval, exprs, r.value.0, |exprs|) else r.error == OUT_OF_BUDGET
    ensures Metered(Charging(eval, variables.entries), old(variables.charged), exprs, budget, variables.charged,
                    if r.Ok? then Some(r.value.1) else None)
  {
    ghost var m, before := Charging(eval, variables.entries), variables.charged;
    var remaining: nat := budget;
    var results := [];
    var i := 0;
    while i < |exprs|
      invariant 0 <= i <= |exprs| && Evaluated(eval, m, before, exprs, budget, i, results, variables.charged, remaining)
    {
      EvaluateNext(eval, m, before, exprs, budget, i, results, variables.charged, remaining);
      var step := EvaluateCharged(eval, exprs[i], variables, remaining);
      if step.Err? {
        return Err(step.error);
      }
      remaining := step.value.1;
      results := results + [step.value.0];
      i := i + 1;
    }
    EvaluatedAll(eval, m, before, exprs, budget, results, variables.charged, remaining);
    return Ok((results, remaining));
  }

  // --------------------------------------------------------- validations

  datatype ValidationItem = ValidationItem(expression: string, messageExpression: Option<string>, message: Option<string>)

  datatype ValidationOutcome = Pass | Fail(message: string) | Error(message: string)

  function Expressions(items: seq<ValidationItem>): (r: seq<string>)
    ensures |r| == |items|
  {
    seq(|items|, i requires 0 <= i < |items| => Trim(items[i].expression))
  }

  function MessageExpression(item: ValidationItem): string {
    Trim(if item.messageExpression.Some? then item.messageExpression.value else "")
  }

  /** The message expressions' meter, item by item: a blank one costs nothing. */
  ghost function MessageCharging(eval: Evaluator, entries: Entries): Meter<set<string>, ValidationItem> {
    Meter((charged, item: ValidationItem) =>
            if MessageExpression(item) == "" then charged else Leaves(entries, charged, MessageExpression(item)),
          (charged, item: ValidationItem) =>
            if MessageExpression(item) == "" then 0 else Charge(eval, entries, charged, MessageExpression(item)))
  }

  function MessageValue(eval: Evaluator, item: ValidationItem): Option<Result<CelValue, string>> {
    if MessageExpression(item) == "" then None else Some(Value(eval, MessageExpression(item)))
  }

  /** `messages` are the message values of the first `i` items. */
  ghost predicate HoldsMessages(eval: Evaluator, items: seq<ValidationItem>, messages: seq<Option<Result<CelValue, string>>>, i: nat) {
    |messages| == i <= |items| && forall k | 0 <= k < i :: messages[k] == MessageValue(eval, items[k])
  }

  lemma HoldsNextMessage(eval: Evaluator, items: seq<ValidationItem>, messages: seq<Option<Result<CelValue, string>>>, i: nat)
    requires i < |items| && HoldsMessages(eval, items, messages, i)
    ensures HoldsMessages(eval, items, messages + [MessageValue(eval, items[i])], i + 1)
  {
  }

  /** The usable text of an evaluated message: neither too long nor multi-line. */
  function EvaluatedMessage(value: Option<Result<CelValue, string>>): (m: string)
    ensures |m| <= MAX_MESSAGE_SIZE && '\n' !in m
  {
    if value.Some? && value.value.Ok? && value.value.value.StringValue? then
      var text := Trim(value.value.value.s);
      if |text| > MAX_MESSAGE_SIZE || '\n' in text then "" else text
    else ""
  }

  function StaticMessage(item: ValidationItem): string {
    Trim(if item.message.Some? then item.message.value else "")
  }

  /** The message of a failed validation: the evaluated one, else the static
      one, else the expression. */
  function ResolveMessage(item: ValidationItem, value: Option<Result<CelValue, string>>): (m: string)
    ensures m != ""
    ensures m == EvaluatedMessage(value) || m == StaticMessage(item) || m == "failed expression: " + Trim(item.expression)
  {
    if EvaluatedMessage(value) != "" then EvaluatedMessage(value)
    else if StaticMessage(item) != "" then StaticMessage(item)
    else "failed expression: " + Trim(item.expression)
  }

  /** A message expression's value gives a usable text: a string that, trimmed,
      is neither empty nor too long nor multi-line. */
  predicate Usable(value: Result<CelValue, string>, text: string) {
    && value.Ok? && value.value.StringValue? && text == Trim(value.value.s)
    && text != "" && |text| <= 5 * 1024 && '\n' !in text
  }

  function OutcomeOf(item: ValidationItem, result: Result<CelValue, string>, overrun: Option<string>,
                     message: Option<Result<CelValue, string>>): ValidationOutcome
  {
    match result
    case Err(e) => Error(e)
    case Ok(v) =>
      if overrun.Some? then Error("failed messageExpression: " + overrun.value)
      else
        match v
        case BoolValue(true) => Pass
        case BoolValue(false) => Fail(ResolveMessage(item, message))
        case NullValue => Error("CEL expression did not return a boolean: null")
        case StringValue(s) => Error("CEL expression did not return a boolean: " + s)
        case OtherValue(d) => Error("CEL expression did not return a boolean: " + d)
  }

  /** The decision on one item, given whether the messages overran the budget. */
  function DecisionOn(item: ValidationItem, eval: Evaluator, messageEval: Evaluator, overrun: bool): ValidationOutcome {
    OutcomeOf(item, Value(eval, Trim(item.expression)),
              if overrun then Some(OUT_OF_BUDGET) else None,
              if overrun then None else MessageValue(messageEval, item))
  }

  function Decisions(items: seq<ValidationItem>, eval: Evaluator, messageEval: Evaluator, overrun: bool): (r: seq<ValidationOutcome>)
    ensures |r| == |items|
  {
    seq(|items|, i requires 0 <= i < |items| => DecisionOn(items[i], eval, messageEval, overrun))
  }

  /** An overrun of the messages turns every decision into an error; otherwise a
      validation passes exactly when it evaluated to true and fails, with a
      non-empty message, exactly when it evaluated to false. */
  lemma DecisionMeans(item: ValidationItem, eval: Evaluator, messageEval: Evaluator, overrun: bool)
    ensures var r, value := DecisionOn(item, eval, messageEval, overrun), eval(Trim(item.expression)).value;
            && (overrun ==> r.Error?)
            && (!overrun ==> (r.Pass? <==> value == Ok(BoolValue(true))) && (r.Fail? <==> value == Ok(BoolValue(false))))
            && (r.Fail? ==> r.message != "")
  {
  }

  /** What a failed validation says: the usable text of its message expression,
      else its static message, else its expression. */
  lemma FailureMeans(item: ValidationItem, eval: Evaluator, messageEval: Evaluator)
    requires eval(Trim(item.expression)).value == Ok(BoolValue(false))
    ensures var r, fallback := DecisionOn(item, eval, messageEval, false), item.message.Some? && Trim(item.message.value) != "";
            && r.Fail?
            && (forall text :: Expressed(item, messageEval, text) ==> r.message == text)
            && ((forall text :: !Expressed(item, messageEval, text)) && fallback ==> r.message == Trim(item.message.value))
            && ((forall text :: !Expressed(item, messageEval, text)) && !fallback ==>
                  r.message == "failed expression: " + Trim(item.expression))
  {
    var expr := MessageExpression(item);
    if expr != "" && messageEval(expr).value.Ok? && messageEval(expr).value.value.StringValue? {
      var text := Trim(messageEval(expr).value.value.s);
      assert Usable(messageEval(expr).value, text) ==> Expressed(item, messageEval, text);
    }
  }

  /** The item has a message expression, and it evaluates to the usable `text`. */
  predicate Expressed(item: ValidationItem, messageEval: Evaluator, text: string) {
    && item.messageExpression.Some? && Trim(item.messageExpression.value) != ""
    && Usable(messageEval(Trim(item.messageExpression.value)).value, text)
  }

  /** One item's message expression, if it has one. */
  method EvaluateMessage(item: ValidationItem, eval: Evaluator, variables: VariableCosts, remaining: nat)
    returns (r: Result<(Option<Result<CelValue, string>>, nat), string>)
    requires remaining < I64_MAX
    modifies variables`charged
    ensures var m, before := MessageCharging(eval, variables.entries), old(variables.charged);
            && variables.charged == m.next(before, item)
            && r == if m.charge(before, item) <= remaining then Ok((MessageValue(eval, item), remaining - m.charge(before, item)))
                    else Err(OUT_OF_BUDGET)
  {
    var expr := MessageExpression(item);
    if expr == "" {
      return Ok((None, remaining));
    }
    var step := EvaluateCharged(eval, expr, variables, remaining);
    if step.Err? {
      return Err(step.error);
    }
    return Ok((Some(step.value.0), step.value.1));
  }

  /** The message expressions, on what the validations left. */
  method EvaluateMessages(items: seq<ValidationItem>, eval: Evaluator, variables: VariableCosts, budget: nat)
    returns (r: Result<seq<Option<Result<CelValue, string>>>, string>, remaining: nat)
    requires budget <= RUNTIME_CEL_COST_BUDGET
    modifies variables`charged
    ensures if r.Ok? then HoldsMessages(eval, items, r.value, |items|) else r.error == OUT_OF_BUDGET
    ensures Metered(MessageCharging(eval, variables.entries), old(variables.charged), items, budget, variables.charged,
                    if r.Ok? then Some(remaining) else None)
  {
    ghost var m, before := MessageCharging(eval, variables.entries), variables.charged;
    remaining := budget;
    var messages := [];
    var i := 0;
    while i < |items|
      invariant 0 <= i <= |items| && remaining <= budget && HoldsMessages(eval, items, messages, i)
      invariant Paid(m, before, items[..i], budget, variables.charged, remaining)
    {
      PayNext(m, before, items, i, budget, variables.charged, remaining);
      HoldsNextMessage(eval, items, messages, i);
      var step := EvaluateMessage(items[i], eval, variables, remaining);
      if step.Err? {
        return Err(step.error), remaining;
      }
      remaining := step.value.1;
      messages := messages + [step.value.0];
      i := i + 1;
    }
    assert items[..i] == items;
    PaidAll(m, before, items, budget, variables.charged, remaining);
    return Ok(messages), remaining;
  }

  lemma DecidedOne(items: seq<ValidationItem>, eval: Evaluator, messageEval: Evaluator,
                   results: seq<Result<CelValue, string>>, messages: Result<seq<Option<Result<CelValue, string>>>, string>, i: nat)
    requires i < |items| && Holds(eval, Expressions(items), results, |items|)
    requires if messages.Ok? then HoldsMessages(messageEval, items, messages.value, |items|) else messages.error == OUT_OF_BUDGET
    ensures DecisionOn(items[i], eval, messageEval, messages.Err?) ==
            if messages.Ok? then OutcomeOf(items[i], results[i], None, messages.value[i])
            else OutcomeOf(items[i], results[i], Some(messages.error), None)
  {
    assert results[i] == Value(eval, Expressions(items)[i]);
    if messages.Ok? {
      assert messages.value[i] == MessageValue(messageEval, items[i]);
    }
  }

  /** The final mapping of results to decisions. */
  method Decide(items: seq<ValidationItem>, ghost eval: Evaluator, ghost messageEval: Evaluator,
                results: seq<Result<CelValue, string>>, messages: Result<seq<Option<Result<CelValue, string>>>, string>)
    returns (outcomes: seq<ValidationOutcome>)
    requires Holds(eval, Expressions(items), results, |items|)
    requires if messages.Ok? then HoldsMessages(messageEval, items, messages.value, |items|) else messages.error == OUT_OF_BUDGET
    ensures outcomes == Decisions(items, eval, messageEval, messages.Err?)
  {
    outcomes := [];
    var i := 0;
    while i < |items|
      invariant 0 <= i <= |items| && |outcomes| == i
      invariant forall k | 0 <= k < i :: outcomes[k] == DecisionOn(items[k], eval, messageEval, messages.Err?)
    {
      DecidedOne(items, eval, messageEval, results, messages, i);
      var outcome := if messages.Ok? then OutcomeOf(items[i], results[i], None, messages.value[i])
                     else OutcomeOf(items[i], results[i], Some(messages.error), None);
      outcomes := outcomes + [outcome];
      i := i + 1;
    }
  }

  /** What `validate_budgeted` makes of its items, with meter `v` for the
      validations and `m` for the messages: it errs exactly when the validations
      alone overrun the budget; the messages overrun it exactly when validations
      and messages together do; and the charged set grows from `before` to
      `after` by every expression that was evaluated. */
  ghost predicate Validated<S>(items: seq<ValidationItem>, eval: Evaluator, messageEval: Evaluator,
                               v: Meter<S, string>, m: Meter<S, ValidationItem>, before: S, after: S,
                               r: Result<seq<ValidationOutcome>, string>)
  {
    var exprs := Expressions(items);
    var first := Spent(v, before, exprs);
    if first > RUNTIME_CEL_COST_BUDGET then
      r == Err(OUT_OF_BUDGET) && Settled(v, before, exprs, RUNTIME_CEL_COST_BUDGET, after)
    else
      var between := After(v, before, exprs);
      && r == Ok(Decisions(items, eval, messageEval, first + Spent(m, between, items) > RUNTIME_CEL_COST_BUDGET))
      && Settled(m, between, items, RUNTIME_CEL_COST_BUDGET - first, after)
  }

  lemma ValidatedWithin<S>(items: seq<ValidationItem>, eval: Evaluator, messageEval: Evaluator,
                           v: Meter<S, string>, m: Meter<S, ValidationItem>, before: S, between: S, after: S, left: nat, end: Option<nat>)
    requires Metered(v, before, Expressions(items), RUNTIME_CEL_COST_BUDGET, between, Some(left))
    requires Metered(m, between, items, left, after, end)
    ensures Validated(items, eval, messageEval, v, m, before, after, Ok(Decisions(items, eval, messageEval, end.None?)))
  {
    SettledWithin(v, before, Expressions(items), RUNTIME_CEL_COST_BUDGET, between);
  }

  /** `validate_budgeted`: `eval` is the activation of the validations,
      `messageEval` that of the message expressions. */
  method ValidateBudgeted(items: seq<ValidationItem>, eval: Evaluator, messageEval: Evaluator, variables: VariableCosts)
    returns (r: Result<seq<ValidationOutcome>, string>)
    modifies variables`charged
    ensures Validated(items, eval, messageEval, Charging(eval, variables.entries), MessageCharging(messageEval, variables.entries),
                      old(variables.charged), variables.charged, r)
  {
    ghost var v, m := Charging(eval, variables.entries), MessageCharging(messageEval, variables.entries);
    ghost var before := variables.charged;
    var evaluated := EvaluateAll(Expressions(items), eval, variables, RUNTIME_CEL_COST_BUDGET);
    if evaluated.Err? {
      return Err(evaluated.error);
    }
    ghost var between := variables.charged;
    var messages, left := EvaluateMessages(items, messageEval, variables, evaluated.value.1);
    var outcomes := Decide(items, eval, messageEval, evaluated.value.0, messages);
    ValidatedWithin(items, eval, messageEval, v, m, before, between, variables.charged, evaluated.value.1,
                    if messages.Ok? then Some(left) else None);
    return Ok(outcomes);
  }

  // ---------------------------------------------------- audit annotations

  datatype AuditAnnotation = AuditAnnotation(key: string, valueExpression: string)

  datatype AuditAnnotationOutcome = Emit(key: string, value: string) | Skip | AuditError(message: string)

  function AuditExpressions(items: seq<AuditAnnotation>): (r: seq<string>)
    ensures |r| == |items|
  {
    seq(|items|, i requires 0 <= i < |items| => Trim(items[i].valueExpression))
  }

  function AuditOutcome(item: AuditAnnotation, value: Result<CelValue, string>): AuditAnnotationOutcome {
    match value
    case Ok(NullValue) => Skip
    case Ok(StringValue(s)) => if Trim(s) == "" then Skip else Emit(item.key, Trim(s))
    case Ok(BoolValue(b)) => Emit(item.key, if b then "Bool(true)" else "Bool(false)")
    case Ok(OtherValue(d)) => Emit(item.key, d)
    case Err(e) => AuditError("auditAnnotation '" + item.key + "' valueExpression '" + Trim(item.valueExpression) + "' failed: " + e)
  }

  /** What becomes of an annotation: an error exactly for a failed evaluation,
      nothing exactly for null or a blank string, else its key with the value,
      a string trimmed. */
  lemma AuditMeans(item: AuditAnnotation, value: Result<CelValue, string>)
    ensures var r := AuditOutcome(item, value);
            && (r.AuditError? <==> value.Err?)
            && (r.Skip? <==> value.Ok? && (value.value.NullValue? || (value.value.StringValue? && Trim(value.value.s) == "")))
            && (r.Emit? ==> r.key == item.key)
            && (r.Emit? && value.value.StringValue? ==> r.value == Trim(value.value.s))
            && (r.Emit? && value.value.OtherValue? ==> r.value == value.value.debug)
  {
  }

  method AuditDecide(items: seq<AuditAnnotation>, ghost eval: Evaluator, results: seq<Result<CelValue, string>>)
    returns (out: seq<AuditAnnotationOutcome>)
    requires Holds(eval, AuditExpressions(items), results, |items|)
    ensures |out| == |items|
    ensures forall i | 0 <= i < |items| :: out[i] == AuditOutcome(items[i], Value(eval, Trim(items[i].valueExpression)))
  {
    out := [];
    var i := 0;
    while i < |items|
      invariant 0 <= i == |out| <= |items|
      invariant forall k | 0 <= k < i :: out[k] == AuditOutcome(items[k], Value(eval, Trim(items[k].valueExpression)))
    {
      out := out + [AuditOutcome(items[i], results[i])];
      i := i + 1;
    }
  }

  /** `audit_annotations_budgeted`: a fresh budget, but variables already charged
      stay charged. */
  method AuditAnnotationsBudgeted(items: seq<AuditAnnotation>, eval: Evaluator, variables: VariableCosts)
    returns (r: Result<seq<AuditAnnotationOutcome>, string>, left: nat)
    modifies variables`charged
    ensures r.Err? ==> r.error == OUT_OF_BUDGET
    ensures r.Ok? ==> |r.value| == |items|
    ensures r.Ok? ==> forall i | 0 <= i < |items| :: r.value[i] == AuditOutcome(items[i], Value(eval, Trim(items[i].valueExpression)))
    ensures Metered(Charging(eval, variables.entries), old(variables.charged), AuditExpressions(items), RUNTIME_CEL_COST_BUDGET,
                    variables.charged, if r.Ok? then Some(left) else None)
  {
    var evaluated := EvaluateAll(AuditExpressions(items), eval, variables, RUNTIME_CEL_COST_BUDGET);
    if evaluated.Err? {
      return Err(evaluated.error), 0;
    }
    var out := AuditDecide(items, eval, evaluated.value.0);
    return Ok(out), evaluated.value.1;
  }

  // ------------------------------------------------------ what it all costs

  /** The evaluation costs of the expressions, variables left aside. */
  function Costs(eval: Evaluator, exprs: seq<string>): nat {
    Total((e: string) => eval(e).cost, exprs)
  }

  /** The meter adds up compositions and evaluations. */
  lemma {:induction false} SpentSplits(eval: Evaluator, entries: Entries, charged: set<string>, exprs: seq<string>)
    ensures After(Charging(eval, entries), charged, exprs) == ChargedAfter(entries, charged, exprs)
    ensures Spent(Charging(eval, entries), charged, exprs) == Composition(entries, charged, exprs) + Costs(eval, exprs)
    decreases |exprs|
  {
    if exprs != [] {
      SpentSplits(eval, entries, charged, exprs[..|exprs| - 1]);
    }
  }

  /** What a list of expressions costs: each evaluation, plus each reachable
      uncharged variable once. */
  lemma {:induction false} SpentIsUnion(eval: Evaluator, entries: Entries, charged: set<string>, exprs: seq<string>)
    requires ChargedClosed(entries, charged)
    ensures Spent(Charging(eval, entries), charged, exprs) ==
            Costs(eval, exprs) + SumCost(entries, Reach(entries, RootsOf(exprs)) - charged)
  {
    SpentSplits(eval, entries, charged, exprs);
    CompositionIsUnion(entries, charged, exprs);
  }

  /** So whether the budget is overrun does not depend on the order of the
      expressions, and neither does the charged set they leave. */
  lemma {:induction false} SpentOrderFree(eval: Evaluator, entries: Entries, charged: set<string>, exprs: seq<string>, exprs': seq<string>)
    requires ChargedClosed(entries, charged) && multiset(exprs) == multiset(exprs')
    ensures Spent(Charging(eval, entries), charged, exprs) == Spent(Charging(eval, entries), charged, exprs')
    ensures After(Charging(eval, entries), charged, exprs) == After(Charging(eval, entries), charged, exprs')
  {
    SpentSplits(eval, entries, charged, exprs);
    SpentSplits(eval, entries, charged, exprs');
    CompositionOrderFree(entries, charged, exprs, exprs');
    TotalOrderFree((e: string) => eval(e).cost, exprs, exprs');
  }

  /** The message expressions that are evaluated, in order. */
  function MessageExpressions(items: seq<ValidationItem>): seq<string> {
    if items == [] then []
    else
      var e := MessageExpression(items[|items| - 1]);
      MessageExpressions(items[..|items| - 1]) + if e == "" then [] else [e]
  }

  lemma {:induction false} MessagesSpend(eval: Evaluator, entries: Entries, charged: set<string>, items: seq<ValidationItem>)
    ensures After(MessageCharging(eval, entries), charged, items) == After(Charging(eval, entries), charged, MessageExpressions(items))
    ensures Spent(MessageCharging(eval, entries), charged, items) == Spent(Charging(eval, entries), charged, MessageExpressions(items))
    decreases |items|
  {
    if items != [] {
      var init, e := items[..|items| - 1], MessageExpression(items[|items| - 1]);
      MessagesSpend(eval, entries, charged, init);
      if e == "" {
        assert MessageExpressions(items) == MessageExpressions(init);
      } else {
        assert MessageExpressions(items) == MessageExpressions(init) + [e];
        Snoc(Charging(eval, entries), charged, MessageExpressions(init), e);
      }
    }
  }

  /** Validations and messages share one budget and one set of variables: a
      variable used by both is paid for once. */
  lemma {:induction false} SharedVariablesPaidOnce(eval: Evaluator, messageEval: Evaluator, entries: Entries, charged: set<string>,
                                items: seq<ValidationItem>)
    requires ChargedClosed(entries, charged)
    ensures var exprs, messages := Expressions(items), MessageExpressions(items);
            var between := After(Charging(eval, entries), charged, exprs);
            Spent(Charging(eval, entries), charged, exprs) + Spent(MessageCharging(messageEval, entries), between, items) ==
            Costs(eval, exprs) + Costs(messageEval, messages)
            + SumCost(entries, Reach(entries, RootsOf(exprs) + RootsOf(messages)) - charged)
  {
    var exprs, messages := Expressions(items), MessageExpressions(items);
    SpentSplits(eval, entries, charged, exprs);
    var between := ChargedAfter(entries, charged, exprs);
    MessagesSpend(messageEval, entries, between, items);
    SpentSplits(messageEval, entries, between, messages);
    CompositionJoins(entries, charged, exprs, messages);
  }

  lemma {:induction false} CompositionJoins(entries: Entries, charged: set<string>, exprs: seq<string>, messages: seq<string>)
    requires ChargedClosed(entries, charged)
    ensures Composition(entries, charged, exprs) + Composition(entries, ChargedAfter(entries, charged, exprs), messages) ==
            SumCost(entries, Reach(entries, RootsOf(exprs) + RootsOf(messages)) - charged)
  {
    CompositionIsUnion(entries, charged, exprs);
    var between := ChargedAfter(entries, charged, exprs);
    CompositionIsUnion(entries, between, messages);
    var a, b := Reach(entries, RootsOf(exprs)) - charged, Reach(entries, RootsOf(messages)) - between;
    ReachUnion(entries, RootsOf(exprs), RootsOf(messages));
    assert Reach(entries, RootsOf(exprs) + RootsOf(messages)) - charged == a + b;
    SumCostUnion(entries, a, b);
  }

  /** The verdict on a policy in terms of its parts: the validations err exactly
      when their evaluations and the union of the variables they reach overrun
      the budget, and every decision is an error once the messages do too. */
  lemma {:induction false} ValidationVerdict(items: seq<ValidationItem>, eval: Evaluator, messageEval: Evaluator, entries: Entries,
                          before: set<string>, after: set<string>, r: Result<seq<ValidationOutcome>, string>)
    requires ChargedClosed(entries, before)
    requires Validated(items, eval, messageEval, Charging(eval, entries), MessageCharging(messageEval, entries), before, after, r)
    ensures var exprs, messages := Expressions(items), MessageExpressions(items);
            var validations := Costs(eval, exprs) + SumCost(entries, Reach(entries, RootsOf(exprs)) - before);
            var everything := Costs(eval, exprs) + Costs(messageEval, messages)
                              + SumCost(entries, Reach(entries, RootsOf(exprs) + RootsOf(messages)) - before);
            && (r.Err? <==> validations > RUNTIME_CEL_COST_BUDGET)
            && (r.Ok? ==> r.value == Decisions(items, eval, messageEval, everything > RUNTIME_CEL_COST_BUDGET))
  {
    SpentIsUnion(eval, entries, before, Expressions(items));
    SharedVariablesPaidOnce(eval, messageEval, entries, before, items);
  }
}
