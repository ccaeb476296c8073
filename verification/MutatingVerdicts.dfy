/** What a mutating pass answers, told from the outside: from the gates, the
    replies, the failure policies and the history alone. */
module MutatingVerdicts {
  import opened Prelude
  import opened Reinvocation
  import opened MutatingDispatch
  import opened MutatingRuns

  /** The object, the patches collected and the history when a webhook's turn comes. */
  datatype Moment = Moment(doc: Option<Json>, patches: seq<PatchOp>, log: seq<Event>)

  type Verdict = Result<AdmissionResponse, Error>

  /** A booked `IfNeeded` call of the webhook was followed by a change. */
  ghost predicate Due(log: seq<Event>, uid: string) {
    exists i, j :: 0 <= i < j < |log| && log[i].Call? && log[i].ifNeeded && log[i].booked && log[i].uid == uid
                   && (log[j].Edited? || log[j].changed)
  }

  /** The webhook is eligible and, in a reinvocation, due. */
  ghost predicate Reached(p: PassInput, h: Hook, at: Moment) {
    p.world.gate(h.cfg, h.pos, at.doc).Eligible? && (p.reinvoke ==> Due(at.log, h.uid))
  }

  predicate FailsOpen(h: Hook) {
    h.webhook.failurePolicy == Some(Ignore)
  }

  predicate RefusesDryRun(p: PassInput, h: Hook) {
    p.req.dryRun && h.webhook.sideEffects in {SomeEffects, UnknownEffects}
  }

  /** The webhook ends the pass with `v`: its gate forbids the request, it does
      not support the dry run, it denies, it cannot be called or read and does
      not fail open, the request is over, or its patch does not apply. */
  ghost predicate StopsWith(p: PassInput, h: Hook, at: Moment, v: Verdict) {
    var gate, reply := p.world.gate(h.cfg, h.pos, at.doc), p.world.reply(h.cfg, h.pos, at.doc);
    || (gate.Forbidden? && v == Err(ForbiddenError(gate.text)))
    || (Reached(p, h, at) && RefusesDryRun(p, h) && v == Ok(Deny(h.webhook.name + " does not support dry run")))
    || (Reached(p, h, at) && !RefusesDryRun(p, h) && ReplyStopsWith(p, h, at.doc, reply, v))
  }

  ghost predicate ReplyStopsWith(p: PassInput, h: Hook, doc: Option<Json>, reply: Reply, v: Verdict) {
    match reply
    case Denied(reason) => v == Ok(Deny(reason))
    case NoClient(e) => !FailsOpen(h) && v == Err(InternalError(e))
    case Failed(e, done) => if FailsOpen(h) then done && v == Err(TimeoutError) else v == Err(CallError(e))
    case Allowed(NoPatch) => false
    case Allowed(Undecodable(e)) => !FailsOpen(h) && v == Err(PatchError(e))
    case Allowed(Ops(ops)) =>
      doc.Some? && ApplyOps(p.apply, doc.value, ops).Err? && v == Err(PatchError(ApplyOps(p.apply, doc.value, ops).error))
  }

  /** The webhook lets the pass go on, from moment `a` to moment `b`. */
  ghost predicate Passes(p: PassInput, h: Hook, a: Moment, b: Moment) {
    && !p.world.gate(h.cfg, h.pos, a.doc).Forbidden?
    && if Reached(p, h, a) then !RefusesDryRun(p, h) && ReplyPasses(p, h, a, p.world.reply(h.cfg, h.pos, a.doc), b) else b == a
  }

  ghost predicate ReplyPasses(p: PassInput, h: Hook, a: Moment, reply: Reply, b: Moment) {
    var called := (changed: bool) => a.log + [Call(h.uid, h.webhook.reinvocationPolicy == Some(IfNeeded), true, changed)];
    match reply
    case Denied(_) => false
    case NoClient(_) => FailsOpen(h) && b == a
    case Failed(_, done) => FailsOpen(h) && !done && b == a.(log := called(false))
    case Allowed(NoPatch) => b == a.(log := called(false))
    case Allowed(Undecodable(_)) => FailsOpen(h) && b == a.(log := called(false))
    case Allowed(Ops(ops)) =>
      if a.doc.None? then b == Moment(None, a.patches + ops, called(false))
      else
        var r := ApplyOps(p.apply, a.doc.value, ops);
        && r.Ok?
        && var doc := if ops == [] || p.req.group == "" then r.value else p.world.defaulted(h.cfg, h.pos, r.value);
           b == Moment(Some(doc), a.patches + ops, called(r.value != a.doc.value))
  }

  /** The first webhook that does not let the pass go on ends it with `v`. */
  ghost predicate StoppedBy(p: PassInput, hooks: seq<Hook>, at: Moment, v: Verdict)
    decreases |hooks|
  {
    && hooks != []
    && (StopsWith(p, hooks[0], at, v) || exists b :: Passes(p, hooks[0], at, b) && StoppedBy(p, hooks[1..], b, v))
  }

  /** Every webhook lets the pass go on, up to `end`. */
  ghost predicate GoesThrough(p: PassInput, hooks: seq<Hook>, at: Moment, end: Moment)
    decreases |hooks|
  {
    if hooks == [] then at == end
    else exists b :: Passes(p, hooks[0], at, b) && GoesThrough(p, hooks[1..], b, end)
  }

  function At(st: Pass): Moment {
    Moment(st.doc, st.patches, st.log)
  }

  lemma DueMeans(log: seq<Event>, uid: string)
    ensures uid in DueOf(log) <==> Due(log, uid)
  {
    if uid in DueOf(log) {
      var i, j :| 0 <= i < j < |log| && Reinvocable(log[i]) && Requires(log[j]) && log[i].uid == uid;
      assert log[i].Call? && (log[j].Edited? || log[j].changed);
    }
    if i, j :| 0 <= i < j < |log| && log[i].Call? && log[i].ifNeeded && log[i].booked && log[i].uid == uid
               && (log[j].Edited? || log[j].changed) {
      assert Reinvocable(log[i]) && Requires(log[j]);
    }
  }

  lemma CalledTells(p: PassInput, h: Hook, st: Pass)
    ensures var next, reply := Called(p.req, p.apply, p.world, h, st), p.world.reply(h.cfg, h.pos, st.doc);
            && (forall v :: ReplyStopsWith(p, h, st.doc, reply, v) <==> next.Halt? && next.verdict == v)
            && (forall b :: ReplyPasses(p, h, At(st), reply, b) <==> next.Continue? && At(next.st) == b)
  {
  }

  /** A webhook either stops the pass with one verdict or lets it go on to one
      moment, and `next` says which. */
  ghost predicate OneTells(p: PassInput, h: Hook, at: Moment, next: Progress) {
    && (forall v :: StopsWith(p, h, at, v) <==> next.Halt? && next.verdict == v)
    && (forall b :: Passes(p, h, at, b) <==> next.Continue? && At(next.st) == b)
  }

  ghost predicate AllTell(p: PassInput, hooks: seq<Hook>, at: Moment, end: Progress) {
    && (forall v :: StoppedBy(p, hooks, at, v) <==> end.Halt? && end.verdict == v)
    && (forall m :: GoesThrough(p, hooks, at, m) <==> end.Continue? && At(end.st) == m)
  }

  lemma StepTells(p: PassInput, h: Hook, st: Pass)
    requires Summarises(st.ctx, st.log)
    ensures OneTells(p, h, At(st), Step(p.req, p.apply, p.world, p.reinvoke, h, st))
  {
    CalledTells(p, h, st);
    DueMeans(st.log, h.uid);
    assert LacksDryRun(h.webhook) <==> h.webhook.sideEffects in {SomeEffects, UnknownEffects};
  }

  lemma ConsTells(p: PassInput, hooks: seq<Hook>, at: Moment, next: Progress, end: Progress)
    requires hooks != [] && OneTells(p, hooks[0], at, next)
    requires if next.Continue? then AllTell(p, hooks[1..], At(next.st), end) else end == next
    ensures AllTell(p, hooks, at, end)
  {
    if next.Continue? {
      var b := At(next.st);
      assert Passes(p, hooks[0], at, b);
      forall v ensures StoppedBy(p, hooks, at, v) <==> StoppedBy(p, hooks[1..], b, v) {
        assert !StopsWith(p, hooks[0], at, v);
      }
      forall m ensures GoesThrough(p, hooks, at, m) <==> GoesThrough(p, hooks[1..], b, m) {
      }
    } else {
      assert forall b :: !Passes(p, hooks[0], at, b);
    }
  }

  lemma {:induction false} StepsTell(p: PassInput, hooks: seq<Hook>, st: Pass)
    requires Summarises(st.ctx, st.log)
    ensures AllTell(p, hooks, At(st), Steps(p.req, p.apply, p.world, p.reinvoke, hooks, st))
    decreases |hooks|
  {
    if hooks != [] {
      var next := Step(p.req, p.apply, p.world, p.reinvoke, hooks[0], st);
      StepTells(p, hooks[0], st);
      if next.Continue? {
        StepGrows(p.req, p.apply, p.world, p.reinvoke, hooks[0], st);
        StepsTell(p, hooks[1..], next.st);
      }
      ConsTells(p, hooks, At(st), next, Steps(p.req, p.apply, p.world, p.reinvoke, hooks, st));
    }
  }

  /** The moment a pass starts from; a reinvocation first notes an outside edit. */
  function Start(p: PassInput, last: Option<Json>, log: seq<Event>): Moment {
    Moment(p.doc, [], if p.reinvoke && last != p.doc then log + [Edited] else log)
  }

  ghost predicate Undenied(out: Outcome, m: Moment) {
    && out.result.Ok? && !out.result.value.response.Deny?
    && out.result.value.response == (if m.patches == [] then Allow else AllowWithPatch(m.patches))
    && out.result.value.doc == m.doc && out.log == m.log
  }

  /** The answer is told by the webhooks: a denial or an error exactly as the
      first one that stops the pass says, and an allowance, with the patches
      collected, exactly when every one lets it go on. */
  ghost predicate Answers(p: PassInput, hooks: seq<Hook>, start: Moment, out: Outcome) {
    && (forall reason :: Denies(out, reason) <==> StoppedBy(p, hooks, start, Ok(Deny(reason))))
    && (forall e :: out.result == Err(e) <==> StoppedBy(p, hooks, start, Err(e)))
    && (forall m :: Undenied(out, m) <==> GoesThrough(p, hooks, start, m))
  }

  lemma ConcludedAnswers(p: PassInput, hooks: seq<Hook>, start: Moment, end: Progress, out: Outcome)
    requires AllTell(p, hooks, start, end) && (end.Halt? ==> end.verdict.Err? || end.verdict.value.Deny?)
    requires out.result == Concluded(end).result && out.log == Concluded(end).log
    ensures Answers(p, hooks, start, out)
  {
  }

  /** What a pass answers.  Webhook configurations are exempt, a failed listing
      is an error, and any other request is answered by the webhooks. */
  lemma PassVerdict(p: PassInput, ctx: Ctx, log: seq<Event>)
    requires Summarises(ctx, log)
    ensures var out := RunOne(p, ctx, log);
            if p.req.resource in {"validatingwebhookconfigurations", "mutatingwebhookconfigurations"} then
              out.result == Ok(Admitted(Allow, p.doc, false))
            else if p.configs.Err? then out.result == Err(p.configs.error)
            else Answers(p, Flatten(p.configs.value, 0), Start(p, ctx.last, log), out)
  {
    OpenedGrows(p, ctx, log);
    var st := Opened(p, ctx, log);
    assert At(st) == Start(p, ctx.last, log);
    if !Exempt(p.req) && p.configs.Ok? {
      var hooks := Flatten(p.configs.value, 0);
      var end := Steps(p.req, p.apply, p.world, p.reinvoke, hooks, st);
      StepsTell(p, hooks, st);
      StepsNeverAllow(p, hooks, st);
      ConcludedAnswers(p, hooks, At(st), end, RunOne(p, ctx, log));
    }
  }

  /** Some webhook of a pass that is neither exempt nor unlisted stops it with `v`. */
  ghost predicate PassStopped(p: PassInput, ctx: Ctx, log: seq<Event>, v: Verdict) {
    && p.req.resource !in {"validatingwebhookconfigurations", "mutatingwebhookconfigurations"} && p.configs.Ok?
    && StoppedBy(p, Flatten(p.configs.value, 0), Start(p, ctx.last, log), v)
  }

  /** The driver denies a request exactly when a webhook of the first pass does,
      or the second pass runs and a webhook of it does. */
  lemma DriverDenies(p: PassInput, q: PassInput, reason: string)
    ensures var d := Drive(p, q);
            d.result.Ok? && d.result.value.0 == Deny(reason) <==>
            || PassStopped(p.(reinvoke := false), EMPTY_CTX, [], Ok(Deny(reason)))
            || (d.second.Some? &&
                PassStopped(q.(reinvoke := true, doc := d.first.result.value.doc), d.first.ctx, d.first.log, Ok(Deny(reason))))
  {
    var d := Drive(p, q);
    DenialDecides(p, q, reason);
    PassVerdict(p.(reinvoke := false), EMPTY_CTX, []);
    PassSummary(p.(reinvoke := false), EMPTY_CTX, []);
    if d.second.Some? {
      PassVerdict(q.(reinvoke := true, doc := d.first.result.value.doc), d.first.ctx, d.first.log);
    }
  }
}
