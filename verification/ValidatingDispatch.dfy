/** The validating webhook dispatcher once its calls are queued: one spawned
    task per call, finishing in any order, joined and folded in configuration
    order. */
module ValidatingDispatch {
  import opened Prelude
  import opened MutatingDispatch

  datatype Status = Status(message: Option<string>, reason: Option<string>, code: Option<int>)

  /** How a task ends.  A `canceled` failure is the request's doing, not the
      webhook's. */
  datatype TaskResult =
    | Panicked(text: string)
    | CallFailed(error: string, code: int, canceled: bool)
    | Answered(allowed: bool, status: Option<Status>)

  datatype Invocation = Invocation(name: string, policy: FailurePolicy)

  datatype RejectionKind = CallingWebhookError | NoError

  /** A metric observed by task `task`. */
  datatype Metric =
    | Observed(task: nat, rejected: bool, code: int)
    | Rejection(task: nat, kind: RejectionKind, code: int)
    | FailOpen(task: nat)

  type Verdict = Result<AdmissionResponse, Error>

  // ------------------------------------------------- what one task reports

  function Max(a: int, b: int): int {
    if a >= b then a else b
  }

  /** `observe_webhook_call` */
  function Observe(task: nat, inv: Invocation, r: TaskResult): seq<Metric> {
    match r
    case Panicked(_) => []
    case CallFailed(_, code, canceled) =>
      var ignore := inv.policy.Ignore?;
      (if !ignore && !canceled then [Rejection(task, CallingWebhookError, code)] else [])
      + [Observed(task, !ignore, code)]
      + (if ignore && !canceled then [FailOpen(task)] else [])
    case Answered(allowed, status) =>
      if allowed then [Observed(task, false, 200)]
      else
        var code := Max(if status.Some? && status.value.code.Some? then status.value.code.value else 0, 400);
        [Rejection(task, NoError, code), Observed(task, true, code)]
  }

  /** What the metrics of a task say: the call is counted with its verdict and
      code; a rejection is counted for a denial and for a failure that is
      neither ignored nor the request's own; an ignored failure fails open. */
  lemma ObserveMeans(task: nat, inv: Invocation, r: TaskResult, m: Metric)
    ensures m in Observe(task, inv, r) <==>
            match r
            case Panicked(_) => false
            case CallFailed(_, code, canceled) =>
              || m == Observed(task, inv.policy != Ignore, code)
              || (!canceled && m == if inv.policy == Ignore then FailOpen(task) else Rejection(task, CallingWebhookError, code))
            case Answered(allowed, status) =>
              if allowed then m == Observed(task, false, 200)
              else
                var code := if status.Some? && status.value.code.Some? && status.value.code.value > 400 then status.value.code.value else 400;
                m == Observed(task, true, code) || m == Rejection(task, NoError, code)
  {
  }

  /** The results that stop a request. */
  predicate Offends(inv: Invocation, r: TaskResult) {
    match r
    case Panicked(_) => !inv.policy.Ignore?
    case CallFailed(_, _, _) => !inv.policy.Ignore?
    case Answered(allowed, _) => !allowed
  }

  function DenyReason(inv: Invocation, status: Option<Status>): string {
    if status.Some? && status.value.message.Some? && status.value.message.value != "" then status.value.message.value
    else if status.Some? && status.value.reason.Some? then status.value.reason.value
    else "Denied by webhook " + inv.name
  }

  /** What an offender makes of the request. */
  function Decision(inv: Invocation, r: TaskResult): Verdict {
    match r
    case Panicked(text) => Err(InternalError("ValidatingAdmissionWebhook/" + inv.name + " has panicked: " + text))
    case CallFailed(error, _, _) => Err(CallError(error))
    case Answered(_, status) => Ok(Deny(DenyReason(inv, status)))
  }

  // ------------------------------------------------------ tasks in flight

  /** The handles that have finished, and the metrics observed so far. */
  datatype State = State(done: map<nat, TaskResult>, metrics: seq<Metric>)

  /** The next step of `task`, which has made `steps` already: one observation,
      or after the last one the end of the task. */
  function Advance(invs: seq<Invocation>, results: seq<TaskResult>, task: nat, steps: nat, st: State): State
    requires task < |invs| == |results|
  {
    var mine := Observe(task, invs[task], results[task]);
    if steps < |mine| then st.(metrics := st.metrics + [mine[steps]]) else st.(done := st.done[task := results[task]])
  }

  /** How often `order` has `task` take a step. */
  function StepsOf(order: seq<nat>, task: nat): nat {
    multiset(order)[task]
  }

  /** An order in which the steps of all tasks may be taken: any interleaving of
      their observations that lets each task end. */
  ghost predicate Schedule(invs: seq<Invocation>, results: seq<TaskResult>, order: seq<nat>)
    requires |invs| == |results|
  {
    && (forall k | 0 <= k < |order| :: order[k] < |invs|)
    && (forall i: nat | i < |invs| :: StepsOf(order, i) == |Observe(i, invs[i], results[i])| + 1)
  }

  function Execute(invs: seq<Invocation>, results: seq<TaskResult>, order: seq<nat>): State
    requires |invs| == |results| && forall k | 0 <= k < |order| :: order[k] < |invs|
  {
    if order == [] then State(map[], [])
    else
      var last := |order| - 1;
      Advance(invs, results, order[last], StepsOf(order[..last], order[last]), Execute(invs, results, order[..last]))
  }

  lemma StepsSnoc(order: seq<nat>, task: nat)
    requires order != []
    ensures var last := |order| - 1;
            StepsOf(order, task) == StepsOf(order[..last], task) + if order[last] == task then 1 else 0
  {
    assert order == order[..|order| - 1] + [order[|order| - 1]];
  }

  /** The metrics one task observed. */
  function By(metrics: seq<Metric>, task: nat): seq<Metric> {
    if metrics == [] then []
    else
      var last := |metrics| - 1;
      By(metrics[..last], task) + if metrics[last].task == task then [metrics[last]] else []
  }

  lemma {:induction false} BySnoc(metrics: seq<Metric>, m: Metric, task: nat)
    ensures By(metrics + [m], task) == By(metrics, task) + if m.task == task then [m] else []
  {
    assert (metrics + [m])[..|metrics|] == metrics;
  }

  lemma OwnMetrics(task: nat, inv: Invocation, r: TaskResult)
    ensures forall k | 0 <= k < |Observe(task, inv, r)| :: Observe(task, inv, r)[k].task == task
  {
  }

  /** A task is done once it has taken all its steps. */
  lemma {:induction false} DoneIs(invs: seq<Invocation>, results: seq<TaskResult>, order: seq<nat>)
    requires |invs| == |results| && forall k | 0 <= k < |order| :: order[k] < |invs|
    ensures var done := Execute(invs, results, order).done;
            && (forall i: nat | i < |invs| && StepsOf(order, i) > |Observe(i, invs[i], results[i])| :: i in done)
            && (forall i: nat | i in done :: i < |invs| && done[i] == results[i])
    decreases |order|
  {
    if order != [] {
      var last := |order| - 1;
      DoneIs(invs, results, order[..last]);
      forall i: nat ensures StepsOf(order, i) == StepsOf(order[..last], i) + if order[last] == i then 1 else 0 {
        StepsSnoc(order, i);
      }
    }
  }

  /** What a task has observed of `mine` after `steps` steps. */
  function Seen(mine: seq<Metric>, steps: nat): seq<Metric> {
    if steps <= |mine| then mine[..steps] else mine
  }

  /** One step adds at most its own task's next metric. */
  lemma NextSeen(metrics: seq<Metric>, mine: seq<Metric>, t: nat, steps: nat, i: nat)
    requires forall k | 0 <= k < |mine| :: mine[k].task == t
    requires t == i ==> By(metrics, i) == Seen(mine, steps)
    ensures By(if steps < |mine| then metrics + [mine[steps]] else metrics, i) ==
            if t == i then Seen(mine, steps + 1) else By(metrics, i)
  {
    if steps < |mine| {
      BySnoc(metrics, mine[steps], i);
      assert mine[..steps + 1] == mine[..steps] + [mine[steps]];
    }
  }

  /** In every interleaving each task has reported, in order, what its own steps
      so far call for. */
  lemma {:induction false} Reported(invs: seq<Invocation>, results: seq<TaskResult>, order: seq<nat>, i: nat)
    requires |invs| == |results| && i < |invs| && forall k | 0 <= k < |order| :: order[k] < |invs|
    ensures By(Execute(invs, results, order).metrics, i) == Seen(Observe(i, invs[i], results[i]), StepsOf(order, i))
    decreases |order|
  {
    if order != [] {
      var last := |order| - 1;
      var t, init := order[last], order[..last];
      Reported(invs, results, init, i);
      StepsSnoc(order, i);
      OwnMetrics(t, invs[t], results[t]);
      NextSeen(Execute(invs, results, init).metrics, Observe(t, invs[t], results[t]), t, StepsOf(init, t), i);
    }
  }

  lemma {:induction false} AllReported(invs: seq<Invocation>, results: seq<TaskResult>, order: seq<nat>)
    requires |invs| == |results| && Schedule(invs, results, order)
    ensures forall i: nat | i < |invs| :: By(Execute(invs, results, order).metrics, i) == Observe(i, invs[i], results[i])
    ensures var done := Execute(invs, results, order).done; forall i: nat | i < |invs| :: i in done && done[i] == results[i]
  {
    DoneIs(invs, results, order);
    forall i: nat | i < |invs| ensures By(Execute(invs, results, order).metrics, i) == Observe(i, invs[i], results[i]) {
      Reported(invs, results, order, i);
    }
  }

  /** Phase 2: the spawned tasks, run to their ends. */
  method RunTasks(invs: seq<Invocation>, results: seq<TaskResult>, order: seq<nat>) returns (st: State)
    requires |invs| == |results| && forall k | 0 <= k < |order| :: order[k] < |invs|
    ensures st == Execute(invs, results, order)
  {
    st := State(map[], []);
    var k := 0;
    while k < |order|
      invariant 0 <= k <= |order|
      invariant st == Execute(invs, results, order[..k])
    {
      assert order[..k + 1][..k] == order[..k];
      st := Advance(invs, results, order[k], StepsOf(order[..k], order[k]), st);
      k := k + 1;
    }
    assert order[..k] == order;
  }

  // ------------------------------------------------------------ the fold

  /** `i` is the first task, in configuration order, whose result stops the request. */
  ghost predicate FirstOffender(invs: seq<Invocation>, results: seq<TaskResult>, i: nat)
    requires |invs| == |results|
  {
    i < |invs| && Offends(invs[i], results[i]) && forall j: nat | j < i :: !Offends(invs[j], results[j])
  }

  /** The fail-open metrics of the panicking tasks below `n`. */
  function LetThrough(results: seq<TaskResult>, n: nat): seq<Metric>
    requires n <= |results|
  {
    if n == 0 then []
    else LetThrough(results, n - 1) + if results[n - 1].Panicked? then [FailOpen(n - 1)] else []
  }

  /** The verdict on the first offender: a denial exactly for an answer, with the
      status message if there is one, else the status reason, else the webhook's
      name; the call's error exactly for a failed call; an internal error
      exactly for a panic. */
  ghost predicate Settles(inv: Invocation, r: TaskResult, verdict: Verdict) {
    && (r.Answered? <==> verdict.Ok?)
    && (r.Answered? ==> verdict.value.Deny? && Explains(inv, r.status, verdict.value.reason))
    && (r.CallFailed? <==> verdict.Err? && verdict.error.CallError?)
    && (r.CallFailed? ==> verdict.error.text == r.error)
    && (r.Panicked? <==> verdict.Err? && verdict.error.InternalError?)
    && (r.Panicked? ==> verdict.error.text == "ValidatingAdmissionWebhook/" + inv.name + " has panicked: " + r.text)
  }

  ghost predicate Explains(inv: Invocation, status: Option<Status>, reason: string) {
    var message := if status.Some? then status.value.message else None;
    && (message.Some? && message.value != "" ==> reason == message.value)
    && (message in {None, Some("")} && status.Some? && status.value.reason.Some? ==> reason == status.value.reason.value)
    && (message in {None, Some("")} && (status.None? || status.value.reason.None?) ==> reason == "Denied by webhook " + inv.name)
  }

  /** The results that let the request through, read off the results. */
  lemma OffendsMeans(inv: Invocation, r: TaskResult)
    ensures !Offends(inv, r) <==> (r.Answered? && r.allowed) || (!r.Answered? && inv.policy == Ignore)
  {
  }

  lemma DecisionSettles(inv: Invocation, r: TaskResult)
    requires Offends(inv, r)
    ensures Settles(inv, r, Decision(inv, r))
  {
  }

  /** The fail-open metrics are one for each panicking task, in order. */
  lemma {:induction false} LetThroughMeans(results: seq<TaskResult>, n: nat)
    requires n <= |results|
    ensures forall m :: m in LetThrough(results, n) <==> m.FailOpen? && m.task < n && results[m.task].Panicked?
    ensures forall k, l | 0 <= k < l < |LetThrough(results, n)| :: LetThrough(results, n)[k].task < LetThrough(results, n)[l].task
  {
    if n > 0 {
      LetThroughMeans(results, n - 1);
      var init := LetThrough(results, n - 1);
      assert forall k | 0 <= k < |init| :: init[k] in init;
    }
  }

  /** Phase 3: fold the joined results; `failedOpen` are the fail-open metrics of
      the panicking tasks met before the verdict. */
  method Collect(invs: seq<Invocation>, results: seq<TaskResult>) returns (verdict: Verdict, failedOpen: seq<Metric>)
    requires |invs| == |results|
    ensures verdict == Ok(Allow) <==> forall i: nat | i < |invs| :: !Offends(invs[i], results[i])
    ensures verdict == Ok(Allow) ==> failedOpen == LetThrough(results, |invs|)
    ensures forall i: nat | FirstOffender(invs, results, i) ::
              verdict == Decision(invs[i], results[i]) && failedOpen == LetThrough(results, i)
    ensures verdict == Ok(Allow) <==>
              forall i: nat | i < |invs| :: (results[i].Answered? && results[i].allowed) || (!results[i].Answered? && invs[i].policy == Ignore)
    ensures forall i: nat | FirstOffender(invs, results, i) :: Settles(invs[i], results[i], verdict)
  {
    forall i: nat | i < |invs| ensures Offends(invs[i], results[i]) ==> Settles(invs[i], results[i], Decision(invs[i], results[i])) {
      if Offends(invs[i], results[i]) {
        DecisionSettles(invs[i], results[i]);
      }
    }
    failedOpen := [];
    var i := 0;
    while i < |invs|
      invariant 0 <= i <= |invs|
      invariant forall j: nat | j < i :: !Offends(invs[j], results[j])
      invariant failedOpen == LetThrough(results, i)
    {
      match results[i] {
        case Panicked(text) =>
          if invs[i].policy.Ignore? {
            failedOpen := failedOpen + [FailOpen(i)];
          } else {
            return Err(InternalError("ValidatingAdmissionWebhook/" + invs[i].name + " has panicked: " + text)), failedOpen;
          }
        case Answered(allowed, status) =>
          if !allowed {
            return Ok(Deny(DenyReason(invs[i], status))), failedOpen;
          }
        case CallFailed(error, _, _) =>
          if !invs[i].policy.Ignore? {
            return Err(CallError(error)), failedOpen;
          }
      }
      i := i + 1;
    }
    return Ok(Allow), failedOpen;
  }

  /** Phases 2 and 3: `results` is how each task ends, `order` the interleaving in
      which the runtime runs their steps.  The verdict, and the fail-open
      metrics of panicking tasks met before it, depend on `results` alone. */
  method ValidateQueued(invs: seq<Invocation>, requestDone: bool, results: seq<TaskResult>, order: seq<nat>)
    returns (verdict: Verdict, metrics: seq<Metric>, failedOpen: seq<Metric>)
    requires |invs| == |results| && Schedule(invs, results, order)
    ensures invs == [] ==> verdict == Ok(Allow) && metrics == failedOpen == []
    ensures invs != [] && requestDone ==> verdict == Err(TimeoutError) && metrics == failedOpen == []
    ensures invs != [] && !requestDone ==>
      && (verdict == Ok(Allow) <==> forall i: nat | i < |invs| :: !Offends(invs[i], results[i]))
      && (verdict == Ok(Allow) ==> failedOpen == LetThrough(results, |invs|))
      && (forall i: nat | FirstOffender(invs, results, i) ::
            verdict == Decision(invs[i], results[i]) && failedOpen == LetThrough(results, i))
      && (verdict == Ok(Allow) <==>
            forall i: nat | i < |invs| :: (results[i].Answered? && results[i].allowed) || (!results[i].Answered? && invs[i].policy == Ignore))
      && (forall i: nat | FirstOffender(invs, results, i) :: Settles(invs[i], results[i], verdict))
      && (forall i: nat | i < |invs| :: By(metrics, i) == Observe(i, invs[i], results[i]))
  {
    if invs == [] {
      return Ok(Allow), [], [];
    }
    if requestDone {
      return Err(TimeoutError), [], [];
    }
    var st := RunTasks(invs, results, order);
    AllReported(invs, results, order);
    var joined := seq(|invs|, i requires 0 <= i < |invs| => st.done[i]);
    assert joined == results;
    verdict, failedOpen := Collect(invs, joined);
    metrics := st.metrics;
  }

  /** Where a list of metrics counts a webhook call. */
  function CallsAt(metrics: seq<Metric>): set<int> {
    set k | 0 <= k < |metrics| && metrics[k].Observed?
  }

  lemma CountedOnce(task: nat, inv: Invocation, r: TaskResult)
    ensures |CallsAt(Observe(task, inv, r))| == if r.Panicked? then 0 else 1
  {
    var mine := Observe(task, inv, r);
    if r.Panicked? {
      assert CallsAt(mine) == {};
    } else if mine[0].Observed? {
      assert CallsAt(mine) == {0};
    } else {
      assert CallsAt(mine) == {1};
    }
  }

  /** Every task that did not panic is counted once as a webhook call, even
      after an earlier denial; a panicking one is not. */
  lemma {:induction false} ObservedOnce(invs: seq<Invocation>, results: seq<TaskResult>, order: seq<nat>, i: nat)
    requires |invs| == |results| && Schedule(invs, results, order) && i < |invs|
    ensures |CallsAt(By(Execute(invs, results, order).metrics, i))| == if results[i].Panicked? then 0 else 1
  {
    Reported(invs, results, order, i);
    CountedOnce(i, invs[i], results[i]);
  }

  lemma {:induction false} ByMember(metrics: seq<Metric>, m: Metric)
    ensures m in By(metrics, m.task) <==> m in metrics
  {
    if metrics != [] {
      var last := |metrics| - 1;
      assert metrics == metrics[..last] + [metrics[last]];
      ByMember(metrics[..last], m);
    }
  }

  /** Only queued tasks report. */
  lemma {:induction false} Reporters(invs: seq<Invocation>, results: seq<TaskResult>, order: seq<nat>)
    requires |invs| == |results| && forall k | 0 <= k < |order| :: order[k] < |invs|
    ensures forall m | m in Execute(invs, results, order).metrics :: m.task < |invs|
    decreases |order|
  {
    if order != [] {
      var t := order[|order| - 1];
      Reporters(invs, results, order[..|order| - 1]);
      OwnMetrics(t, invs[t], results[t]);
    }
  }

  /** The metrics are those of the queued tasks, no more and no fewer. */
  lemma {:induction false} MetricsExactly(invs: seq<Invocation>, results: seq<TaskResult>, order: seq<nat>, m: Metric)
    requires |invs| == |results| && Schedule(invs, results, order)
    ensures m in Execute(invs, results, order).metrics <==>
            m.task < |invs| && m in Observe(m.task, invs[m.task], results[m.task])
  {
    Reporters(invs, results, order);
    if m.task < |invs| {
      ByMember(Execute(invs, results, order).metrics, m);
      Reported(invs, results, order, m.task);
    }
  }

  predicate Rejecting(m: Metric) {
    m.Observed? && m.rejected
  }

  lemma RejectingIsOffending(task: nat, inv: Invocation, r: TaskResult) returns (m: Metric)
    ensures Offends(inv, r) && !r.Panicked? ==> m in Observe(task, inv, r) && Rejecting(m) && m.task == task
    ensures !Offends(inv, r) ==> forall m | m in Observe(task, inv, r) :: !Rejecting(m)
  {
    var mine := Observe(task, inv, r);
    m := if mine == [] then FailOpen(task) else if mine[0].Observed? || |mine| == 1 then mine[0] else mine[1];
  }

  /** The metrics tell the verdict: every result lets the request through
      exactly when no call was counted as rejected and no task panicked under a
      policy other than Ignore. */
  lemma {:induction false} MetricsTellVerdict(invs: seq<Invocation>, results: seq<TaskResult>, order: seq<nat>)
    requires |invs| == |results| && Schedule(invs, results, order)
    ensures var metrics := Execute(invs, results, order).metrics;
            (forall i: nat | i < |invs| :: !Offends(invs[i], results[i])) <==>
            && (forall m | m in metrics :: !Rejecting(m))
            && (forall i: nat | i < |invs| && results[i].Panicked? :: invs[i].policy.Ignore?)
  {
    var metrics := Execute(invs, results, order).metrics;
    if forall i: nat | i < |invs| :: !Offends(invs[i], results[i]) {
      forall m | m in metrics ensures !Rejecting(m) {
        MetricsExactly(invs, results, order, m);
        var _ := RejectingIsOffending(m.task, invs[m.task], results[m.task]);
      }
    } else {
      var i: nat :| i < |invs| && Offends(invs[i], results[i]);
      if !results[i].Panicked? {
        var m := RejectingIsOffending(i, invs[i], results[i]);
        MetricsExactly(invs, results, order, m);
      }
    }
  }
}
