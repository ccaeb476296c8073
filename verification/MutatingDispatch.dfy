/** The mutating webhook dispatcher: one pass over every configured webhook, and
    the driver that runs a second pass when a webhook changed the object. */
module MutatingDispatch {
  import opened Prelude
  import opened Reinvocation

  datatype FailurePolicy = Fail | Ignore | Unknown(text: string)
  datatype ReinvocationPolicy = Never | IfNeeded
  datatype SideEffects = UnknownEffects | NoEffects | SomeEffects | NoneOnDryRun

  datatype Webhook = Webhook(
    name: string,
    failurePolicy: Option<FailurePolicy>,
    reinvocationPolicy: Option<ReinvocationPolicy>,
    sideEffects: SideEffects)

  datatype Config = Config(name: string, webhooks: Option<seq<Webhook>>)

  datatype Request = Request(group: string, resource: string, dryRun: bool)

  datatype Error =
    | StorageError(text: string)
    | ForbiddenError(text: string)
    | InternalError(text: string)
    | TimeoutError
    | CallError(text: string)
    | PatchError(text: string)

  datatype AdmissionResponse = Allow | Deny(reason: string) | AllowWithPatch(ops: seq<PatchOp>)

  /** Rules, selectors, match conditions and the service namespace, judged on
      the current object. */
  datatype Gate = Skipped | Forbidden(text: string) | Eligible

  datatype Patch = NoPatch | Undecodable(text: string) | Ops(ops: seq<PatchOp>)

  /** How calling a webhook ends.  `requestDone` is the request's cancellation
      as read after a failed call. */
  datatype Reply =
    | NoClient(text: string)
    | Failed(text: string, requestDone: bool)
    | Denied(reason: string)
    | Allowed(patch: Patch)

  /** One RFC 6902 operation applied to a document. */
  type Applier = (Json, PatchOp) -> Result<Json, string>

  /** Everything outside the dispatcher during one pass, per webhook position
      (configuration index, webhook index) and current object. */
  datatype World = World(
    gate: (nat, nat, Option<Json>) -> Gate,
    reply: (nat, nat, Option<Json>) -> Reply,
    defaulted: (nat, nat, Json) -> Json)

  // ------------------------------------------------------------------ UIDs

  function Uid(config: string, webhook: string, duplicates: nat): string {
    config + "/" + webhook + "/" + Decimal(duplicates)
  }

  /** How many of `webhooks` are called `name`. */
  function CountNamed(webhooks: seq<Webhook>, name: string): nat {
    if webhooks == [] then 0
    else CountNamed(webhooks[..|webhooks| - 1], name) + if webhooks[|webhooks| - 1].name == name then 1 else 0
  }

  // --------------------------------------------------------- specification

  /** A webhook with its position and accessor UID. */
  datatype Hook = Hook(cfg: nat, pos: nat, uid: string, webhook: Webhook)

  function HookAt(config: string, webhooks: seq<Webhook>, cfg: nat, pos: nat): Hook
    requires pos < |webhooks|
  {
    Hook(cfg, pos, Uid(config, webhooks[pos].name, CountNamed(webhooks[..pos], webhooks[pos].name)), webhooks[pos])
  }

  function HooksFrom(config: string, webhooks: seq<Webhook>, cfg: nat, pos: nat): seq<Hook>
    requires pos <= |webhooks|
    decreases |webhooks| - pos
  {
    if pos == |webhooks| then []
    else [HookAt(config, webhooks, cfg, pos)] + HooksFrom(config, webhooks, cfg, pos + 1)
  }

  function Flatten(configs: seq<Config>, cfg: nat): seq<Hook>
    requires cfg <= |configs|
    decreases |configs| - cfg
  {
    if cfg == |configs| then []
    else
      var here := if configs[cfg].webhooks.Some? then HooksFrom(configs[cfg].name, configs[cfg].webhooks.value, cfg, 0) else [];
      here + Flatten(configs, cfg + 1)
  }

  predicate Ignores(w: Webhook) {
    w.failurePolicy == Some(Ignore)
  }

  predicate IsIfNeeded(w: Webhook) {
    w.reinvocationPolicy == Some(IfNeeded)
  }

  predicate LacksDryRun(w: Webhook) {
    w.sideEffects.SomeEffects? || w.sideEffects.UnknownEffects?
  }

  function ApplyOps(apply: Applier, doc: Json, ops: seq<PatchOp>): Result<Json, string>
    decreases |ops|
  {
    if ops == [] then Ok(doc)
    else
      match apply(doc, ops[0])
      case Err(e) => Err(e)
      case Ok(next) => ApplyOps(apply, next, ops[1..])
  }

  /** `default_post_patch`: the core group is never defaulted here. */
  function PostPatch(req: Request, world: World, h: Hook, doc: Json): Json {
    if req.group == "" then doc else world.defaulted(h.cfg, h.pos, doc)
  }

  /** A pass in progress. */
  datatype Pass = Pass(doc: Option<Json>, patches: seq<PatchOp>, should: bool, ctx: Ctx, log: seq<Event>)

  datatype Progress = Continue(st: Pass) | Halt(st: Pass, verdict: Result<AdmissionResponse, Error>)

  function Record(st: Pass, e: Event): Pass {
    st.(ctx := After(st.ctx, e), log := st.log + [e])
  }

  function Abandoned(st: Pass, h: Hook): Pass {
    Record(st, Call(h.uid, IsIfNeeded(h.webhook), false, false))
  }

  /** A call that succeeded with `ops`, which turned the object into `patched`. */
  function Finished(req: Request, world: World, h: Hook, st: Pass, ops: seq<PatchOp>, patched: Option<Json>): Pass {
    var changed := patched != st.doc;
    var doc := if ops != [] && patched.Some? then Some(PostPatch(req, world, h, patched.value)) else patched;
    Record(Pass(doc, st.patches + ops, st.should || changed, st.ctx, st.log),
           Call(h.uid, IsIfNeeded(h.webhook), true, changed))
  }

  function Called(req: Request, apply: Applier, world: World, h: Hook, st: Pass): Progress {
    match world.reply(h.cfg, h.pos, st.doc)
    case NoClient(e) =>
      if Ignores(h.webhook) then Continue(st) else Halt(st, Err(InternalError(e)))
    case Failed(e, done) =>
      if !Ignores(h.webhook) then Halt(Abandoned(st, h), Err(CallError(e)))
      else if done then Halt(Abandoned(st, h), Err(TimeoutError))
      else Continue(Finished(req, world, h, st, [], st.doc))
    case Denied(reason) => Halt(Abandoned(st, h), Ok(Deny(reason)))
    case Allowed(NoPatch) => Continue(Finished(req, world, h, st, [], st.doc))
    case Allowed(Undecodable(e)) =>
      if Ignores(h.webhook) then Continue(Record(st, Call(h.uid, IsIfNeeded(h.webhook), true, false)))
      else Halt(Abandoned(st, h), Err(PatchError(e)))
    case Allowed(Ops(ops)) =>
      if st.doc.None? then Continue(Finished(req, world, h, st, ops, None))
      else
        match ApplyOps(apply, st.doc.value, ops)
        case Err(e) => Halt(Abandoned(st, h), Err(PatchError(e)))
        case Ok(doc) => Continue(Finished(req, world, h, st, ops, Some(doc)))
  }

  /** One webhook of a pass. */
  function Step(req: Request, apply: Applier, world: World, reinvoke: bool, h: Hook, st: Pass): Progress {
    match world.gate(h.cfg, h.pos, st.doc)
    case Skipped => Continue(st)
    case Forbidden(e) => Halt(st, Err(ForbiddenError(e)))
    case Eligible =>
      if reinvoke && h.uid !in st.ctx.due then Continue(st)
      else if req.dryRun && LacksDryRun(h.webhook) then Halt(st, Ok(Deny(h.webhook.name + " does not support dry run")))
      else Called(req, apply, world, h, st)
  }

  function Steps(req: Request, apply: Applier, world: World, reinvoke: bool, hooks: seq<Hook>, st: Pass): Progress
    decreases |hooks|
  {
    if hooks == [] then Continue(st)
    else
      match Step(req, apply, world, reinvoke, hooks[0], st)
      case Continue(next) => Steps(req, apply, world, reinvoke, hooks[1..], next)
      case Halt(last, verdict) => Halt(last, verdict)
  }

  datatype Admitted = Admitted(response: AdmissionResponse, doc: Option<Json>, should: bool)

  datatype Outcome = Outcome(result: Result<Admitted, Error>, ctx: Ctx, log: seq<Event>)

  predicate Exempt(req: Request) {
    req.resource == "validatingwebhookconfigurations" || req.resource == "mutatingwebhookconfigurations"
  }

  function Response(patches: seq<PatchOp>): AdmissionResponse {
    if patches == [] then Allow else AllowWithPatch(patches)
  }

  function Concluded(p: Progress): Outcome {
    match p
    case Continue(st) => Outcome(Ok(Admitted(Response(st.patches), st.doc, st.should)), st.ctx, st.log)
    case Halt(st, Ok(response)) => Outcome(Ok(Admitted(response, st.doc, st.should)), st.ctx, st.log)
    case Halt(st, Err(e)) => Outcome(Err(e), st.ctx, st.log)
  }

  function Dispatched(req: Request, apply: Applier, world: World, configs: Result<seq<Config>, Error>, reinvoke: bool,
                      doc: Option<Json>, ctx: Ctx, log: seq<Event>): Outcome
  {
    if Exempt(req) then Outcome(Ok(Admitted(Allow, doc, false)), ctx, log)
    else if configs.Err? then Outcome(Err(configs.error), ctx, log)
    else Concluded(Steps(req, apply, world, reinvoke, Flatten(configs.value, 0), Pass(doc, [], false, ctx, log)))
  }

  /** One `Admit` of the plugin: edit detection, dispatch, remembering the output. */
  function PassOf(req: Request, apply: Applier, world: World, configs: Result<seq<Config>, Error>, reinvoke: bool,
                  doc: Option<Json>, ctx: Ctx, log: seq<Event>): Outcome
  {
    var edited := reinvoke && ctx.last != doc;
    var ctx0 := if edited then After(ctx, Edited) else ctx;
    var log0 := if edited then log + [Edited] else log;
    var out := Dispatched(req, apply, world, configs, reinvoke, doc, ctx0, log0);
    if out.result.Ok? then out.(ctx := out.ctx.(last := out.result.value.doc)) else out
  }

  function MergeResponses(first: AdmissionResponse, second: AdmissionResponse): AdmissionResponse {
    match (first, second)
    case (AllowWithPatch(a), AllowWithPatch(b)) => AllowWithPatch(a + b)
    case (Allow, other) => other
    case (other, Allow) => other
    case (_, other) => other
  }
}
