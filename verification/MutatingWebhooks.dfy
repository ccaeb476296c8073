/** The dispatcher as it runs: loops that update the object, the patch list and
    the shared context in place, proved against `MutatingDispatch`. */
module MutatingWebhooks {
  import opened Prelude
  import opened Reinvocation
  import opened MutatingDispatch

  lemma {:induction false} StepsCons(req: Request, apply: Applier, world: World, reinvoke: bool, h: Hook, rest: seq<Hook>, st: Pass)
    ensures var p := Step(req, apply, world, reinvoke, h, st);
            Steps(req, apply, world, reinvoke, [h] + rest, st) ==
            if p.Continue? then Steps(req, apply, world, reinvoke, rest, p.st) else p
  {
    assert ([h] + rest)[1..] == rest;
  }

  method ApplyPatches(apply: Applier, doc: Json, patches: seq<PatchOp>) returns (r: Result<Json, string>)
    ensures r == ApplyOps(apply, doc, patches)
  {
    var obj := doc;
    var i := 0;
    while i < |patches|
      invariant 0 <= i <= |patches|
      invariant ApplyOps(apply, doc, patches) == ApplyOps(apply, obj, patches[i..])
    {
      match apply(obj, patches[i]) {
        case Err(e) => return Err(e);
        case Ok(next) =>
          assert patches[i..][1..] == patches[i + 1..];
          obj := next;
      }
      i := i + 1;
    }
    return Ok(obj);
  }

  /** The bookkeeping after a call that did not end the request. */
  method Bookkeep(ctx: WebhookReinvokeContext, uid: string, ifNeeded: bool, changed: bool)
    requires ctx.Valid()
    modifies ctx
    ensures ctx.Valid()
    ensures var e := Call(uid, ifNeeded, true, changed);
            ctx.View() == After(old(ctx.View()), e) && ctx.history == old(ctx.history) + [e]
  {
    AfterSummarises(ctx.View(), ctx.history, Call(uid, ifNeeded, true, changed));
    if changed {
      ctx.RequireReinvokingPreviouslyInvokedPlugins();
    }
    if ifNeeded {
      ctx.AddReinvocableWebhookToPreviouslyInvoked(uid);
    }
    ctx.history := ctx.history + [Call(uid, ifNeeded, true, changed)];
  }

  ghost method NoteAbandoned(ctx: WebhookReinvokeContext, h: Hook)
    requires ctx.Valid()
    modifies ctx`history
    ensures ctx.Valid()
    ensures var e := Call(h.uid, IsIfNeeded(h.webhook), false, false);
            ctx.View() == After(ctx.View(), e) && ctx.history == old(ctx.history) + [e]
  {
    AfterSummarises(ctx.View(), ctx.history, Call(h.uid, IsIfNeeded(h.webhook), false, false));
    ctx.history := ctx.history + [Call(h.uid, IsIfNeeded(h.webhook), false, false)];
  }

  /** One webhook: the body of the dispatcher's inner loop. */
  method RunWebhook(req: Request, apply: Applier, world: World, reinvoke: bool, h: Hook,
                    doc0: Option<Json>, patches0: seq<PatchOp>, should0: bool, ctx: WebhookReinvokeContext)
    returns (stop: Option<Result<AdmissionResponse, Error>>, doc: Option<Json>, patches: seq<PatchOp>, should: bool)
    requires ctx.Valid()
    modifies ctx
    ensures ctx.Valid()
    ensures
      var after := Pass(doc, patches, should, ctx.View(), ctx.history);
      Step(req, apply, world, reinvoke, h, Pass(doc0, patches0, should0, old(ctx.View()), old(ctx.history))) ==
      if stop.None? then Continue(after) else Halt(after, stop.value)
  {
    doc, patches, should := doc0, patches0, should0;
    match world.gate(h.cfg, h.pos, doc) {
      case Skipped => return None, doc, patches, should;
      case Forbidden(e) => return Some(Err(ForbiddenError(e))), doc, patches, should;
      case Eligible =>
    }
    if reinvoke {
      var due := ctx.ShouldReinvokeWebhook(h.uid);
      assert due <==> h.uid in ctx.View().due;
      if !due {
        return None, doc, patches, should;
      }
    }
    if req.dryRun && LacksDryRun(h.webhook) {
      return Some(Ok(Deny(h.webhook.name + " does not support dry run"))), doc, patches, should;
    }
    var before := doc;
    var ops := [];
    match world.reply(h.cfg, h.pos, doc) {
      case NoClient(e) =>
        if Ignores(h.webhook) {
          return None, doc, patches, should;
        }
        return Some(Err(InternalError(e))), doc, patches, should;
      case Failed(e, done) =>
        if !Ignores(h.webhook) {
          NoteAbandoned(ctx, h);
          return Some(Err(CallError(e))), doc, patches, should;
        }
        if done {
          NoteAbandoned(ctx, h);
          return Some(Err(TimeoutError)), doc, patches, should;
        }
      case Denied(reason) =>
        NoteAbandoned(ctx, h);
        return Some(Ok(Deny(reason))), doc, patches, should;
      case Allowed(NoPatch) =>
      case Allowed(Undecodable(e)) =>
        if Ignores(h.webhook) {
          Bookkeep(ctx, h.uid, IsIfNeeded(h.webhook), false);
          return None, doc, patches, should;
        }
        NoteAbandoned(ctx, h);
        return Some(Err(PatchError(e))), doc, patches, should;
      case Allowed(Ops(decoded)) =>
        if doc.Some? {
          var r := ApplyPatches(apply, doc.value, decoded);
          if r.Err? {
            NoteAbandoned(ctx, h);
            return Some(Err(PatchError(r.error))), doc, patches, should;
          }
          doc := Some(r.value);
        }
        ops := decoded;
    }
    var changed := doc != before;
    if ops != [] && doc.Some? {
      doc := Some(PostPatch(req, world, h, doc.value));
    }
    patches := patches + ops;
    if changed {
      should := true;
    }
    Bookkeep(ctx, h.uid, IsIfNeeded(h.webhook), changed);
    stop := None;
  }

  /** The inner loop: the webhooks of one configuration; `later` are the
      webhooks of the configurations after it. */
  method RunConfig(req: Request, apply: Applier, world: World, reinvoke: bool, name: string, webhooks: seq<Webhook>,
                   cfg: nat, ghost later: seq<Hook>,
                   doc0: Option<Json>, patches0: seq<PatchOp>, should0: bool, ctx: WebhookReinvokeContext)
    returns (stop: Option<Result<AdmissionResponse, Error>>, doc: Option<Json>, patches: seq<PatchOp>, should: bool)
    requires ctx.Valid()
    modifies ctx
    ensures ctx.Valid()
    ensures
      var after := Pass(doc, patches, should, ctx.View(), ctx.history);
      Steps(req, apply, world, reinvoke, HooksFrom(name, webhooks, cfg, 0) + later,
            Pass(doc0, patches0, should0, old(ctx.View()), old(ctx.history))) ==
      if stop.None? then Steps(req, apply, world, reinvoke, later, after) else Halt(after, stop.value)
  {
    doc, patches, should := doc0, patches0, should0;
    ghost var goal := Steps(req, apply, world, reinvoke, HooksFrom(name, webhooks, cfg, 0) + later,
                            Pass(doc0, patches0, should0, ctx.View(), ctx.history));
    var j := 0;
    while j < |webhooks|
      invariant 0 <= j <= |webhooks| && ctx.Valid()
      invariant goal == Steps(req, apply, world, reinvoke, HooksFrom(name, webhooks, cfg, j) + later,
                              Pass(doc, patches, should, ctx.View(), ctx.history))
    {
      var h := HookAt(name, webhooks, cfg, j);
      ghost var rest := HooksFrom(name, webhooks, cfg, j + 1) + later;
      assert HooksFrom(name, webhooks, cfg, j) + later == [h] + rest;
      StepsCons(req, apply, world, reinvoke, h, rest, Pass(doc, patches, should, ctx.View(), ctx.history));
      stop, doc, patches, should := RunWebhook(req, apply, world, reinvoke, h, doc, patches, should, ctx);
      if stop.Some? {
        return;
      }
      j := j + 1;
    }
    assert HooksFrom(name, webhooks, cfg, j) + later == later;
    stop := None;
  }

  method DispatchMutatingWebhooks(req: Request, apply: Applier, world: World, configs: Result<seq<Config>, Error>,
                                  reinvoke: bool, input: Option<Json>, ctx: WebhookReinvokeContext)
    returns (r: Result<Admitted, Error>)
    requires ctx.Valid()
    modifies ctx
    ensures ctx.Valid()
    ensures Outcome(r, ctx.View(), ctx.history) ==
            Dispatched(req, apply, world, configs, reinvoke, input, old(ctx.View()), old(ctx.history))
  {
    if Exempt(req) {
      return Ok(Admitted(Allow, input, false));
    }
    if configs.Err? {
      return Err(configs.error);
    }
    var cs := configs.value;
    var doc, patches, should := input, [], false;
    ghost var goal := Steps(req, apply, world, reinvoke, Flatten(cs, 0), Pass(doc, patches, should, ctx.View(), ctx.history));
    var i := 0;
    while i < |cs|
      invariant 0 <= i <= |cs| && ctx.Valid()
      invariant goal == Steps(req, apply, world, reinvoke, Flatten(cs, i), Pass(doc, patches, should, ctx.View(), ctx.history))
    {
      var webhooks := if cs[i].webhooks.Some? then cs[i].webhooks.value else [];
      ghost var later := Flatten(cs, i + 1);
      assert Flatten(cs, i) == HooksFrom(cs[i].name, webhooks, i, 0) + later;
      var stop;
      stop, doc, patches, should :=
        RunConfig(req, apply, world, reinvoke, cs[i].name, webhooks, i, later, doc, patches, should, ctx);
      if stop.Some? {
        if stop.value.Err? {
          return Err(stop.value.error);
        }
        return Ok(Admitted(stop.value.value, doc, should));
      }
      i := i + 1;
    }
    return Ok(Admitted(Response(patches), doc, should));
  }

  method RunMutatingWebhooksPass(req: Request, apply: Applier, world: World, configs: Result<seq<Config>, Error>,
                                 reinvoke: bool, doc: Option<Json>, ctx: WebhookReinvokeContext)
    returns (r: Result<Admitted, Error>)
    requires ctx.Valid()
    modifies ctx
    ensures ctx.Valid()
    ensures Outcome(r, ctx.View(), ctx.history) ==
            PassOf(req, apply, world, configs, reinvoke, doc, old(ctx.View()), old(ctx.history))
  {
    if reinvoke {
      var edited := ctx.IsOutputChangedSinceLastWebhookInvocation(doc);
      if edited {
        AfterSummarises(ctx.View(), ctx.history, Edited);
        ctx.RequireReinvokingPreviouslyInvokedPlugins();
        ctx.history := ctx.history + [Edited];
      }
    }
    r := DispatchMutatingWebhooks(req, apply, world, configs, reinvoke, doc, ctx);
    if r.Ok? {
      ctx.SetLastWebhookInvocationOutput(r.value.doc);
    }
  }
}
