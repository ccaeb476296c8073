/** What holds over whole runs of the mutating webhook protocol. */
module MutatingRuns {
  import opened Prelude
  import opened Reinvocation
  import opened MutatingDispatch
  import opened MutatingUids
  import opened MutatingWebhooks

  /** The calls in a history, by UID. */
  ghost function CallsIn(log: seq<Event>): multiset<string> {
    if log == [] then multiset{}
    else CallsIn(log[..|log| - 1]) + if log[|log| - 1].Call? then multiset{log[|log| - 1].uid} else multiset{}
  }

  lemma {:induction false} CallsInSnoc(log: seq<Event>, e: Event)
    ensures CallsIn(log + [e]) == CallsIn(log) + if e.Call? then multiset{e.uid} else multiset{}
  {
    assert (log + [e])[..|log|] == log;
  }

  /** Event `i` of a reinvocation pass had a cause: an earlier call of the same
      webhook as `IfNeeded`, followed by a change. */
  ghost predicate Caused(log: seq<Event>, i: nat)
    requires i < |log|
  {
    log[i].Call? && log[i].uid in DueOf(log[..i])
  }

  /** A call that changed the object. */
  predicate Changes(e: Event) {
    e.Call? && e.changed
  }

  /** How a pass in progress can develop: the history only grows, the context
      stays its exact summary, nothing due stops being due, and a
      reinvocation only calls webhooks that were due by then. */
  ghost predicate Grows(reinvoke: bool, a: Pass, b: Pass) {
    && a.log <= b.log
    && Summarises(b.ctx, b.log)
    && a.ctx.due <= b.ctx.due
    && a.ctx.last == b.ctx.last
    && (forall i | |a.log| <= i < |b.log| :: b.log[i].Call?)
    && (reinvoke ==> forall i | |a.log| <= i < |b.log| :: Caused(b.log, i))
    && (b.should <==> a.should || exists i :: |a.log| <= i < |b.log| && Changes(b.log[i]))
  }

  lemma RecordGrows(reinvoke: bool, a: Pass, b: Pass, e: Event)
    requires Summarises(a.ctx, a.log) && e.Call? && (reinvoke ==> e.uid in a.ctx.due)
    requires b == Record(b.(ctx := a.ctx, log := a.log), e) && b.should == (a.should || e.changed)
    ensures Grows(reinvoke, a, b)
    ensures CallsIn(b.log) == CallsIn(a.log) + multiset{e.uid}
  {
    AfterSummarises(a.ctx, a.log, e);
    CallsInSnoc(a.log, e);
    assert b.log == a.log + [e] && b.log[|a.log|] == e && b.log[..|a.log|] == a.log;
    if e.changed {
      assert Changes(b.log[|a.log|]);
    }
  }

  lemma GrowsTrans(reinvoke: bool, a: Pass, b: Pass, c: Pass)
    requires Grows(reinvoke, a, b) && Grows(reinvoke, b, c)
    ensures Grows(reinvoke, a, c)
  {
    assert forall i | 0 <= i < |b.log| :: c.log[i] == b.log[i];
    if reinvoke {
      forall i | |a.log| <= i < |c.log| ensures Caused(c.log, i) {
        if i < |b.log| {
          assert Caused(b.log, i) && c.log[..i] == b.log[..i];
        }
      }
    }
    if b.should && !a.should {
      var i :| |a.log| <= i < |b.log| && Changes(b.log[i]);
      assert Changes(c.log[i]);
    }
    if i :| |a.log| <= i < |c.log| && Changes(c.log[i]) && i < |b.log| {
      assert Changes(b.log[i]);
    }
  }

  /** A step leaves everything alone or records one call of its webhook. */
  ghost predicate Recorded(reinvoke: bool, h: Hook, a: Pass, b: Pass, e: Event) {
    && e.Call? && e.uid == h.uid && (reinvoke ==> e.uid in a.ctx.due)
    && b == Record(b.(ctx := a.ctx, log := a.log), e)
    && b.should == (a.should || e.changed)
  }

  lemma StepRecords(req: Request, apply: Applier, world: World, reinvoke: bool, h: Hook, st: Pass) returns (e: Event)
    ensures var end := Step(req, apply, world, reinvoke, h, st).st; end == st || Recorded(reinvoke, h, st, end, e)
  {
    var booked := Step(req, apply, world, reinvoke, h, st).Continue?;
    var reply := world.reply(h.cfg, h.pos, st.doc);
    var changed := booked && reply.Allowed? && reply.patch.Ops? && st.doc.Some? &&
                   ApplyOps(apply, st.doc.value, reply.patch.ops) != Ok(st.doc.value);
    e := Call(h.uid, IsIfNeeded(h.webhook), booked, changed);
  }

  lemma StepGrows(req: Request, apply: Applier, world: World, reinvoke: bool, h: Hook, st: Pass)
    requires Summarises(st.ctx, st.log)
    ensures Grows(reinvoke, st, Step(req, apply, world, reinvoke, h, st).st)
    ensures CallsIn(Step(req, apply, world, reinvoke, h, st).st.log) <= CallsIn(st.log) + multiset{h.uid}
  {
    var end := Step(req, apply, world, reinvoke, h, st).st;
    var e := StepRecords(req, apply, world, reinvoke, h, st);
    if end != st {
      RecordGrows(reinvoke, st, end, e);
    }
  }

  lemma {:induction false} StepsGrow(req: Request, apply: Applier, world: World, reinvoke: bool, hooks: seq<Hook>, st: Pass)
    requires Summarises(st.ctx, st.log)
    ensures Grows(reinvoke, st, Steps(req, apply, world, reinvoke, hooks, st).st)
    ensures CallsIn(Steps(req, apply, world, reinvoke, hooks, st).st.log) <= CallsIn(st.log) + multiset(Uids(hooks))
    decreases |hooks|
  {
    if hooks != [] {
      var p := Step(req, apply, world, reinvoke, hooks[0], st);
      StepGrows(req, apply, world, reinvoke, hooks[0], st);
      assert Uids(hooks) == [hooks[0].uid] + Uids(hooks[1..]);
      if p.Continue? {
        StepsGrow(req, apply, world, reinvoke, hooks[1..], p.st);
        GrowsTrans(reinvoke, st, p.st, Steps(req, apply, world, reinvoke, hooks[1..], p.st).st);
      }
    }
  }

  // ------------------------------------------------- runs of many passes

  /** A pass with everything the outside decides, the object it is handed included. */
  datatype PassInput = PassInput(req: Request, apply: Applier, world: World, configs: Result<seq<Config>, Error>,
                                 reinvoke: bool, doc: Option<Json>)

  function RunOne(p: PassInput, ctx: Ctx, log: seq<Event>): Outcome {
    PassOf(p.req, p.apply, p.world, p.configs, p.reinvoke, p.doc, ctx, log)
  }

  /** The context and history after a run of passes. */
  function RunAll(passes: seq<PassInput>, ctx: Ctx, log: seq<Event>): (Ctx, seq<Event>)
    decreases |passes|
  {
    if passes == [] then (ctx, log)
    else
      var out := RunOne(passes[0], ctx, log);
      RunAll(passes[1..], out.ctx, out.log)
  }

  /** The webhooks a pass goes through. */
  function HooksOf(p: PassInput): seq<Hook> {
    if Exempt(p.req) || p.configs.Err? then [] else Flatten(p.configs.value, 0)
  }

  function Opened(p: PassInput, ctx: Ctx, log: seq<Event>): Pass {
    if p.reinvoke && ctx.last != p.doc then Pass(p.doc, [], false, After(ctx, Edited), log + [Edited])
    else Pass(p.doc, [], false, ctx, log)
  }

  lemma {:induction false} OpenedGrows(p: PassInput, ctx: Ctx, log: seq<Event>)
    requires Summarises(ctx, log)
    ensures var st := Opened(p, ctx, log);
            log <= st.log && Summarises(st.ctx, st.log) && ctx.due <= st.ctx.due && CallsIn(st.log) == CallsIn(log)
  {
    AfterSummarises(ctx, log, Edited);
    CallsInSnoc(log, Edited);
  }

  /** Where the webhooks of a pass leave it. */
  function Closed(p: PassInput, ctx: Ctx, log: seq<Event>): Pass {
    Steps(p.req, p.apply, p.world, p.reinvoke, HooksOf(p), Opened(p, ctx, log)).st
  }

  /** A pass is its opening followed by the steps of its webhooks. */
  lemma PassIsSteps(p: PassInput, ctx: Ctx, log: seq<Event>)
    ensures var out, end := RunOne(p, ctx, log), Closed(p, ctx, log);
            && out.log == end.log && out.ctx.due == end.ctx.due && out.ctx.invoked == end.ctx.invoked
            && (out.result.Ok? ==> out.result.value.should == end.should && out.ctx.last == out.result.value.doc)
  {
  }

  lemma {:induction false} PassGrows(p: PassInput, ctx: Ctx, log: seq<Event>)
    requires Summarises(ctx, log)
    ensures Grows(p.reinvoke, Opened(p, ctx, log), Closed(p, ctx, log))
    ensures CallsIn(Closed(p, ctx, log).log) <= CallsIn(log) + multiset(Uids(HooksOf(p)))
  {
    OpenedGrows(p, ctx, log);
    StepsGrow(p.req, p.apply, p.world, p.reinvoke, HooksOf(p), Opened(p, ctx, log));
  }

  lemma PassSummary(p: PassInput, ctx: Ctx, log: seq<Event>)
    requires Summarises(ctx, log)
    ensures var out := RunOne(p, ctx, log);
            log <= out.log && Summarises(out.ctx, out.log) && ctx.due <= out.ctx.due
  {
    OpenedGrows(p, ctx, log);
    PassIsSteps(p, ctx, log);
    PassGrows(p, ctx, log);
  }

  /** Over every run of passes, whatever object each is handed: the reinvoke set
      never shrinks, the two sets are exactly the due and the not-yet-due
      webhooks of the history, and together they are all the `IfNeeded`
      webhooks that reached the bookkeeping. */
  lemma {:induction false} RunSummary(passes: seq<PassInput>, ctx: Ctx, log: seq<Event>)
    requires Summarises(ctx, log)
    ensures var (end, all) := RunAll(passes, ctx, log);
            log <= all && Summarises(end, all) && ctx.due <= end.due && end.due + end.invoked == ReinvocableOf(all)
    ensures var (end, all) := RunAll(passes, ctx, log);
            forall u :: u in end.due + end.invoked <==>
              exists i :: 0 <= i < |all| && all[i].Call? && all[i].ifNeeded && all[i].booked && all[i].uid == u
    decreases |passes|
  {
    if passes == [] {
      Partition(log);
    } else {
      PassSummary(passes[0], ctx, log);
      var out := RunOne(passes[0], ctx, log);
      RunSummary(passes[1..], out.ctx, out.log);
    }
  }

  /** After a first pass a webhook is due exactly when a call of it as
      `IfNeeded` was followed by a strictly later call that changed the object. */
  lemma FirstPassDue(p: PassInput, uid: string)
    requires !p.reinvoke
    ensures forall i | 0 <= i < |RunOne(p, EMPTY_CTX, []).log| :: RunOne(p, EMPTY_CTX, []).log[i].Call?
    ensures var out := RunOne(p, EMPTY_CTX, []);
            uid in out.ctx.due <==>
            exists i, j :: 0 <= i < j < |out.log| && out.log[i].uid == uid && out.log[i].ifNeeded && out.log[i].booked
                           && out.log[j].changed
  {
    PassIsSteps(p, EMPTY_CTX, []);
    PassGrows(p, EMPTY_CTX, []);
    var log := RunOne(p, EMPTY_CTX, []).log;
    assert forall j | 0 <= j < |log| :: log[j].Call?;
    assert forall j | 0 <= j < |log| :: Requires(log[j]) <==> log[j].changed;
    assert forall i | 0 <= i < |log| :: Reinvocable(log[i]) <==> log[i].ifNeeded && log[i].booked;
  }

  /** An object edited outside the webhooks makes everything reinvocable due, at
      the start of the next reinvocation. */
  lemma EditMakesDue(p: PassInput, ctx: Ctx, log: seq<Event>, i: nat)
    requires Summarises(ctx, log) && p.reinvoke && ctx.last != p.doc
    requires i < |log| && log[i].Call? && log[i].ifNeeded && log[i].booked
    ensures log[i].uid in RunOne(p, ctx, log).ctx.due
  {
    PassIsSteps(p, ctx, log);
    PassGrows(p, ctx, log);
    Snoc(log, Edited);
    assert Reinvocable(log[i]);
    assert log[i].uid in ReinvocableOf(log);
    AfterSummarises(ctx, log, Edited);
  }

  // ----------------------------------------------------------- the driver

  /** A driver run: the answer, the first pass and the second one if it ran. */
  datatype Driven = Driven(result: Result<(AdmissionResponse, Option<Json>), Error>, first: Outcome, second: Option<Outcome>)

  function Drive(p: PassInput, q: PassInput): Driven {
    var first := RunOne(p.(reinvoke := false), EMPTY_CTX, []);
    if first.result.Err? then Driven(Err(first.result.error), first, None)
    else
      var a := first.result.value;
      if !a.should || a.response.Deny? then Driven(Ok((a.response, a.doc)), first, None)
      else
        var second := RunOne(q.(reinvoke := true, doc := a.doc), first.ctx, first.log);
        if second.result.Err? then Driven(Err(second.result.error), first, Some(second))
        else Driven(Ok((MergeResponses(a.response, second.result.value.response), second.result.value.doc)), first, Some(second))
  }

  /** `run_mutating_webhooks_with_dryrun`.  `q` is what the second pass would
      meet: the registry may have changed by then. */
  method RunMutatingWebhooksWithDryrun(p: PassInput, q: PassInput)
    returns (r: Result<(AdmissionResponse, Option<Json>), Error>)
    ensures r == Drive(p, q).result
  {
    var ctx := new WebhookReinvokeContext();
    var first := RunMutatingWebhooksPass(p.req, p.apply, p.world, p.configs, false, p.doc, ctx);
    if first.Err? {
      return Err(first.error);
    }
    if !first.value.should || first.value.response.Deny? {
      return Ok((first.value.response, first.value.doc));
    }
    var second := RunMutatingWebhooksPass(q.req, q.apply, q.world, q.configs, true, first.value.doc, ctx);
    if second.Err? {
      return Err(second.error);
    }
    return Ok((MergeResponses(first.value.response, second.value.response), second.value.doc));
  }

  ghost function LogOf(d: Driven): seq<Event> {
    if d.second.Some? then d.second.value.log else d.first.log
  }

  /** The history of a driver run: calls only, and every call of the second
      pass has a cause. */
  lemma DriveHistory(p: PassInput, q: PassInput)
    ensures var d := Drive(p, q);
            && d.first.log <= LogOf(d)
            && (forall i | 0 <= i < |LogOf(d)| :: LogOf(d)[i].Call?)
            && (forall i | |d.first.log| <= i < |LogOf(d)| :: Caused(LogOf(d), i))
  {
    var d := Drive(p, q);
    PassIsSteps(p.(reinvoke := false), EMPTY_CTX, []);
    PassGrows(p.(reinvoke := false), EMPTY_CTX, []);
    if d.second.Some? {
      var q' := q.(reinvoke := true, doc := d.first.result.value.doc);
      PassIsSteps(q', d.first.ctx, d.first.log);
      PassGrows(q', d.first.ctx, d.first.log);
    }
  }

  /** The second pass runs exactly when the first succeeded undenied and one of
      its calls changed the object. */
  lemma SecondPassRuns(p: PassInput, q: PassInput)
    ensures var d := Drive(p, q);
            d.second.Some? <==>
            && d.first.result.Ok? && !d.first.result.value.response.Deny?
            && exists i :: 0 <= i < |d.first.log| && Changes(d.first.log[i])
  {
    PassIsSteps(p.(reinvoke := false), EMPTY_CTX, []);
    PassGrows(p.(reinvoke := false), EMPTY_CTX, []);
  }

  /** Every call of the second pass repeats a call the first pass made as
      `IfNeeded` and brought to the bookkeeping. */
  lemma {:induction false} SecondPassRepeats(p: PassInput, q: PassInput, i: nat)
    requires |Drive(p, q).first.log| <= i < |LogOf(Drive(p, q))|
    ensures var d := Drive(p, q);
            LogOf(d)[i].Call? &&
            exists a :: 0 <= a < |d.first.log| && d.first.log[a].Call? && d.first.log[a].ifNeeded && d.first.log[a].booked
                        && d.first.log[a].uid == LogOf(d)[i].uid
    decreases i
  {
    DriveHistory(p, q);
    var d := Drive(p, q);
    var log := LogOf(d);
    assert Caused(log, i);
    var a, b :| 0 <= a < b < i && Reinvocable(log[..i][a]) && Requires(log[..i][b]) && log[..i][a].uid == log[i].uid;
    if a < |d.first.log| {
      assert log[a] == d.first.log[a];
    } else {
      SecondPassRepeats(p, q, a);
    }
  }

  lemma DistinctOnce(s: seq<string>, u: string)
    requires Distinct(s)
    ensures multiset(s)[u] <= 1
  {
    if s != [] {
      var init := s[..|s| - 1];
      assert s == init + [s[|s| - 1]];
      DistinctOnce(init, u);
    }
  }

  lemma {:induction false} PassCallsOnce(p: PassInput, ctx: Ctx, log: seq<Event>, u: string)
    requires Summarises(ctx, log)
    requires p.configs.Ok? ==> WellNamed(p.configs.value)
    ensures CallsIn(RunOne(p, ctx, log).log)[u] <= CallsIn(log)[u] + 1
  {
    OpenedGrows(p, ctx, log);
    PassIsSteps(p, ctx, log);
    PassGrows(p, ctx, log);
    if HooksOf(p) != [] {
      UidsDistinct(p.configs.value);
      DistinctOnce(Uids(HooksOf(p)), u);
    }
  }

  /** Every webhook is called at most once by the first pass and at most twice
      in all, given well-named configurations at both passes. */
  lemma AtMostTwice(p: PassInput, q: PassInput, u: string)
    requires p.configs.Ok? ==> WellNamed(p.configs.value)
    requires q.configs.Ok? ==> WellNamed(q.configs.value)
    ensures CallsIn(Drive(p, q).first.log)[u] <= 1 && CallsIn(LogOf(Drive(p, q)))[u] <= 2
  {
    var d := Drive(p, q);
    PassCallsOnce(p.(reinvoke := false), EMPTY_CTX, [], u);
    PassSummary(p.(reinvoke := false), EMPTY_CTX, []);
    if d.second.Some? {
      PassCallsOnce(q.(reinvoke := true, doc := d.first.result.value.doc), d.first.ctx, d.first.log, u);
    }
  }

  // ------------------------------------------------ patches and verdicts

  function PatchesOf(r: AdmissionResponse): seq<PatchOp> {
    if r.AllowWithPatch? then r.ops else []
  }

  lemma {:induction false} ApplyOpsConcat(apply: Applier, doc: Json, a: seq<PatchOp>, b: seq<PatchOp>)
    ensures ApplyOps(apply, doc, a + b) ==
            if ApplyOps(apply, doc, a).Ok? then ApplyOps(apply, ApplyOps(apply, doc, a).value, b) else ApplyOps(apply, doc, a)
    decreases |a|
  {
    if a == [] {
      assert a + b == b;
    } else {
      assert (a + b)[1..] == a[1..] + b;
      if apply(doc, a[0]).Ok? {
        ApplyOpsConcat(apply, apply(doc, a[0]).value, a[1..], b);
      }
    }
  }

  /** The patches so far turn `input` into the current object. */
  ghost predicate Replays(apply: Applier, input: Json, st: Pass) {
    st.doc.Some? && ApplyOps(apply, input, st.patches) == Ok(st.doc.value)
  }

  /** A successful call keeps the replay exactly when it brought no patch or
      defaulting leaves the patched object alone. */
  lemma {:induction false} FinishedReplays(p: PassInput, h: Hook, st: Pass, ops: seq<PatchOp>, patched: Json, input: Json)
    requires Replays(p.apply, input, st) && ApplyOps(p.apply, st.doc.value, ops) == Ok(patched)
    ensures Replays(p.apply, input, Finished(p.req, p.world, h, st, ops, Some(patched))) <==>
            ops == [] || PostPatch(p.req, p.world, h, patched) == patched
  {
    ApplyOpsConcat(p.apply, input, st.patches, ops);
  }

  /** The webhook is called in `st` and defaulting rewrites the object its patch
      left: a custom resource whose defaults are not all there. */
  predicate Rewrites(p: PassInput, h: Hook, st: Pass) {
    var reply := p.world.reply(h.cfg, h.pos, st.doc);
    && Step(p.req, p.apply, p.world, p.reinvoke, h, st).Continue?
    && p.world.gate(h.cfg, h.pos, st.doc).Eligible? && (p.reinvoke ==> h.uid in st.ctx.due)
    && reply.Allowed? && reply.patch.Ops? && reply.patch.ops != [] && st.doc.Some?
    && var patched := ApplyOps(p.apply, st.doc.value, reply.patch.ops);
       patched.Ok? && PostPatch(p.req, p.world, h, patched.value) != patched.value
  }

  lemma StepReplays(p: PassInput, h: Hook, st: Pass, input: Json)
    requires Replays(p.apply, input, st)
    ensures var next := Step(p.req, p.apply, p.world, p.reinvoke, h, st);
            next.Continue? ==> (Replays(p.apply, input, next.st) <==> !Rewrites(p, h, st))
  {
    FinishedReplays(p, h, st, [], st.doc.value, input);
    var reply := p.world.reply(h.cfg, h.pos, st.doc);
    if reply.Allowed? && reply.patch.Ops? && ApplyOps(p.apply, st.doc.value, reply.patch.ops).Ok? {
      FinishedReplays(p, h, st, reply.patch.ops, ApplyOps(p.apply, st.doc.value, reply.patch.ops).value, input);
    }
  }

  /** No call of the webhooks rewrites the object. */
  predicate Intact(p: PassInput, hooks: seq<Hook>, st: Pass)
    decreases |hooks|
  {
    hooks == [] ||
    var next := Step(p.req, p.apply, p.world, p.reinvoke, hooks[0], st);
    next.Continue? ==> !Rewrites(p, hooks[0], st) && Intact(p, hooks[1..], next.st)
  }

  /** The patches collected so far replay at every point of the pass. */
  ghost predicate ReplaysThroughout(p: PassInput, hooks: seq<Hook>, st: Pass, input: Json)
    decreases |hooks|
  {
    && Replays(p.apply, input, st)
    && (hooks != [] ==>
          var next := Step(p.req, p.apply, p.world, p.reinvoke, hooks[0], st);
          next.Continue? ==> ReplaysThroughout(p, hooks[1..], next.st, input))
  }

  /** The patches replay at every point of a pass exactly when no call rewrites
      the object; then they replay at its end. */
  lemma {:induction false} StepsReplay(p: PassInput, hooks: seq<Hook>, st: Pass, input: Json)
    requires Replays(p.apply, input, st)
    ensures ReplaysThroughout(p, hooks, st, input) <==> Intact(p, hooks, st)
    ensures var end := Steps(p.req, p.apply, p.world, p.reinvoke, hooks, st);
            Intact(p, hooks, st) && end.Continue? ==> Replays(p.apply, input, end.st)
    decreases |hooks|
  {
    if hooks != [] {
      var next := Step(p.req, p.apply, p.world, p.reinvoke, hooks[0], st);
      StepReplays(p, hooks[0], st, input);
      if next.Continue? && Replays(p.apply, input, next.st) {
        StepsReplay(p, hooks[1..], next.st, input);
      }
    }
  }

  /** No call of a pass rewrites the object. */
  predicate IntactPass(p: PassInput, ctx: Ctx, log: seq<Event>) {
    Intact(p, HooksOf(p), Opened(p, ctx, log))
  }

  /** Core objects are never rewritten. */
  lemma {:induction false} CoreIsIntact(p: PassInput, hooks: seq<Hook>, st: Pass)
    requires p.req.group == ""
    ensures Intact(p, hooks, st)
    decreases |hooks|
  {
    if hooks != [] {
      var next := Step(p.req, p.apply, p.world, p.reinvoke, hooks[0], st);
      if next.Continue? {
        CoreIsIntact(p, hooks[1..], next.st);
      }
    }
  }

  /** A pass without patches leaves the object alone, in every API group. */
  lemma {:induction false} StepsUnpatched(p: PassInput, hooks: seq<Hook>, st: Pass)
    ensures var end := Steps(p.req, p.apply, p.world, p.reinvoke, hooks, st);
            end.Continue? ==> st.patches <= end.st.patches && (end.st.patches == st.patches ==> end.st.doc == st.doc)
    decreases |hooks|
  {
    if hooks != [] {
      var next := Step(p.req, p.apply, p.world, p.reinvoke, hooks[0], st);
      if next.Continue? {
        StepsUnpatched(p, hooks[1..], next.st);
      }
    }
  }

  lemma {:induction false} StepsNeverAllow(p: PassInput, hooks: seq<Hook>, st: Pass)
    ensures var end := Steps(p.req, p.apply, p.world, p.reinvoke, hooks, st);
            end.Halt? ==> end.verdict.Err? || end.verdict.value.Deny?
    decreases |hooks|
  {
    if hooks != [] {
      var next := Step(p.req, p.apply, p.world, p.reinvoke, hooks[0], st);
      if next.Continue? {
        StepsNeverAllow(p, hooks[1..], next.st);
      }
    }
  }

  lemma PassReplay(p: PassInput, ctx: Ctx, log: seq<Event>)
    ensures var out := RunOne(p, ctx, log);
            out.result.Ok? && !out.result.value.response.Deny? ==>
              var a := out.result.value;
              && (a.response.Allow? ==> a.doc == p.doc)
              && (p.doc.Some? && IntactPass(p, ctx, log) ==>
                    a.doc.Some? && ApplyOps(p.apply, p.doc.value, PatchesOf(a.response)) == Ok(a.doc.value))
  {
    var hooks, st := HooksOf(p), Opened(p, ctx, log);
    StepsNeverAllow(p, hooks, st);
    StepsUnpatched(p, hooks, st);
    if p.doc.Some? {
      StepsReplay(p, hooks, st, p.doc.value);
    }
  }

  /** No call of a driver run rewrites the object. */
  predicate IntactRun(p: PassInput, q: PassInput) {
    var d := Drive(p, q);
    && IntactPass(p.(reinvoke := false), EMPTY_CTX, [])
    && (d.second.Some? ==> IntactPass(q.(reinvoke := true, doc := d.first.result.value.doc), d.first.ctx, d.first.log))
  }

  /** An undenied answer: replaying its patches, those of both passes, on the
      input object gives exactly the returned object when no call rewrites it,
      as for every core object; and a plain Allow returns the input itself. */
  lemma ReplayGivesReturned(p: PassInput, q: PassInput)
    requires q.apply == p.apply
    ensures p.req.group == "" && q.req.group == "" ==> IntactRun(p, q)
    ensures var d := Drive(p, q);
            d.result.Ok? && !d.result.value.0.Deny? ==>
              var (response, doc) := d.result.value;
              && (response.Allow? ==> doc == p.doc)
              && (p.doc.Some? && IntactRun(p, q) ==>
                    doc.Some? && ApplyOps(p.apply, p.doc.value, PatchesOf(response)) == Ok(doc.value))
  {
    var d := Drive(p, q);
    var p' := p.(reinvoke := false);
    PassReplay(p', EMPTY_CTX, []);
    if p.req.group == "" {
      CoreIsIntact(p', HooksOf(p'), Opened(p', EMPTY_CTX, []));
    }
    if d.second.Some? {
      var a := d.first.result.value;
      var q' := q.(reinvoke := true, doc := a.doc);
      PassReplay(q', d.first.ctx, d.first.log);
      if q.req.group == "" {
        CoreIsIntact(q', HooksOf(q'), Opened(q', d.first.ctx, d.first.log));
      }
      if d.second.value.result.Ok? && p.doc.Some? {
        var b := d.second.value.result.value;
        ApplyOpsConcat(p.apply, p.doc.value, PatchesOf(a.response), PatchesOf(b.response));
        assert PatchesOf(a.response) + [] == PatchesOf(a.response) && [] + PatchesOf(b.response) == PatchesOf(b.response);
      }
    }
  }

  /** One webhook that patches 0 to 1, on a custom resource whose defaults turn 1
      into 2. */
  function DefaultedRequest(op: PatchOp): PassInput {
    var world := World((c, i, doc) => Eligible, (c, i, doc) => Allowed(Ops([op])), (c, i, doc) => Number(2));
    var webhook := Webhook("w", None, None, NoEffects);
    PassInput(Request("g", "things", false), (doc, o) => Ok(Number(1)), world, Ok([Config("c", Some([webhook]))]),
              false, Some(Number(0)))
  }

  /** Outside the core group defaulting breaks the replay: the driver returns 2
      and the patches of its answer give 1. */
  lemma DefaultingBreaksReplay(op: PatchOp)
    ensures var p := DefaultedRequest(op);
            && Drive(p, p).result == Ok((AllowWithPatch([op]), Some(Number(2))))
            && ApplyOps(p.apply, Number(0), [op]) == Ok(Number(1))
            && !IntactRun(p, p)
  {
    var p := DefaultedRequest(op);
    var w := Webhook("w", None, None, NoEffects);
    var h := HookAt("c", [w], 0, 0);
    assert HooksOf(p) == [h] by {
      assert HooksFrom("c", [w], 0, 0) == [h] + HooksFrom("c", [w], 0, 1) == [h];
      assert Flatten(p.configs.value, 0) == HooksFrom("c", [w], 0, 0) + Flatten(p.configs.value, 1);
    }
    assert ApplyOps(p.apply, Number(0), [op]) == ApplyOps(p.apply, Number(1), [op][1..]) == Ok(Number(1));
    OnlyStep(p, h, Opened(p, EMPTY_CTX, []));
    var first := RunOne(p, EMPTY_CTX, []);
    assert first.result == Ok(Admitted(AllowWithPatch([op]), Some(Number(2)), true)) by {
      assert [] + [op] == [op];
    }
    assert first.ctx.due == {} && first.ctx.last == Some(Number(2));
    var q := p.(reinvoke := true, doc := Some(Number(2)));
    assert HooksOf(q) == [h];
    OnlyStep(q, h, Opened(q, first.ctx, first.log));
    assert Rewrites(p, h, Opened(p, EMPTY_CTX, []));
    ReplayGivesReturned(p, p);
  }

  lemma {:induction false} OnlyStep(p: PassInput, h: Hook, st: Pass)
    ensures Steps(p.req, p.apply, p.world, p.reinvoke, [h], st) == Step(p.req, p.apply, p.world, p.reinvoke, h, st)
  {
    assert [h][1..] == [];
  }

  ghost predicate Denies(o: Outcome, reason: string) {
    o.result.Ok? && o.result.value.response == Deny(reason)
  }

  /** A denial by either pass that runs is the answer, and only then. */
  lemma DenialDecides(p: PassInput, q: PassInput, reason: string)
    ensures var d := Drive(p, q);
            d.result.Ok? && d.result.value.0 == Deny(reason) <==>
            Denies(d.first, reason) || (d.second.Some? && Denies(d.second.value, reason))
  {
  }

  /** Merging alone keeps a denial except when a denied first response meets
      patches: there the driver's guard is what keeps it. */
  lemma MergeKeepsDenial(a: AdmissionResponse, b: AdmissionResponse)
    ensures (a.Deny? || b.Deny? ==> MergeResponses(a, b).Deny?) <==> !(a.Deny? && b.AllowWithPatch?)
  {
  }
}
