/** The per-request reinvocation context of the mutating webhook plugin and the
    history it summarises. */
module Reinvocation {
  import opened Prelude

  /** A JSON document; the protocol only ever compares documents for equality. */
  datatype Json =
    | Null
    | Bool(b: bool)
    | Number(n: int)
    | Text(s: string)
    | Array(elems: seq<Json>)
    | Object(fields: map<string, Json>)

  /** One RFC 6902 operation. */
  datatype PatchOp = PatchOp(op: string, path: string, from: Option<string>, value: Option<Json>)

  /** The value of a context: what the class below stores. */
  datatype Ctx = Ctx(last: Option<Json>, invoked: set<string>, due: set<string>)

  const EMPTY_CTX := Ctx(None, {}, {})

  /** What happened to a context, in order.  `Edited` is the detection, at the
      start of a reinvocation pass, of an object edit made outside the
      webhooks.  `Call` is one webhook call: `booked` says that it got as far as
      the reinvocation bookkeeping, `changed` that its patch changed the
      object. */
  datatype Event =
    | Edited
    | Call(uid: string, ifNeeded: bool, booked: bool, changed: bool)

  predicate Requires(e: Event) {
    e.Edited? || e.changed
  }

  predicate Reinvocable(e: Event) {
    e.Call? && e.ifNeeded && e.booked
  }

  /** Webhooks that a strictly later change has made due. */
  ghost function DueOf(log: seq<Event>): set<string> {
    set i, j | 0 <= i < j < |log| && Reinvocable(log[i]) && Requires(log[j]) :: log[i].uid
  }

  /** Webhooks with a call that no later change has followed yet. */
  ghost function InvokedOf(log: seq<Event>): set<string> {
    set i | 0 <= i < |log| && Reinvocable(log[i]) && (forall j | i < j < |log| :: !Requires(log[j])) :: log[i].uid
  }

  /** Every `IfNeeded` webhook that reached the bookkeeping. */
  ghost function ReinvocableOf(log: seq<Event>): set<string> {
    set i | 0 <= i < |log| && Reinvocable(log[i]) :: log[i].uid
  }

  /** The context is exactly the summary of its history. */
  ghost predicate Summarises(ctx: Ctx, log: seq<Event>) {
    ctx.due == DueOf(log) && ctx.invoked == InvokedOf(log)
  }

  function RequireReinvoking(ctx: Ctx): Ctx {
    Ctx(ctx.last, {}, ctx.due + ctx.invoked)
  }

  function AddInvoked(ctx: Ctx, uid: string): Ctx {
    ctx.(invoked := ctx.invoked + {uid})
  }

  /** The context after an event. */
  function After(ctx: Ctx, e: Event): Ctx {
    var required := if Requires(e) then RequireReinvoking(ctx) else ctx;
    if Reinvocable(e) then AddInvoked(required, e.uid) else required
  }

  lemma Snoc(log: seq<Event>, e: Event)
    ensures DueOf(log + [e]) == DueOf(log) + (if Requires(e) then ReinvocableOf(log) else {})
    ensures InvokedOf(log + [e]) ==
            (if Requires(e) then {} else InvokedOf(log)) + (if Reinvocable(e) then {e.uid} else {})
    ensures ReinvocableOf(log + [e]) == ReinvocableOf(log) + (if Reinvocable(e) then {e.uid} else {})
  {
    var all := log + [e];
    assert all[|log|] == e;
    assert forall i | 0 <= i < |log| :: all[i] == log[i];
    forall u | u in DueOf(log) ensures u in DueOf(all) {
      var i, j :| 0 <= i < j < |log| && Reinvocable(log[i]) && Requires(log[j]) && log[i].uid == u;
      assert Reinvocable(all[i]) && Requires(all[j]);
    }
    forall u | u in ReinvocableOf(log) ensures u in ReinvocableOf(all) && (Requires(e) ==> u in DueOf(all)) {
      var i :| 0 <= i < |log| && Reinvocable(log[i]) && log[i].uid == u;
      assert Reinvocable(all[i]) && (Requires(e) ==> Requires(all[|log|]));
    }
    forall u | u in InvokedOf(log) && !Requires(e) ensures u in InvokedOf(all) {
      var i :| 0 <= i < |log| && Reinvocable(log[i]) && (forall j | i < j < |log| :: !Requires(log[j])) && log[i].uid == u;
      assert Reinvocable(all[i]);
    }
    if Reinvocable(e) {
      assert Reinvocable(all[|log|]);
    }
  }

  /** Due and not-yet-due webhooks together are all the reinvocable ones. */
  lemma {:induction false} Partition(log: seq<Event>)
    ensures DueOf(log) + InvokedOf(log) == ReinvocableOf(log)
  {
    if log != [] {
      var init := log[..|log| - 1];
      var e := log[|log| - 1];
      assert log == init + [e];
      Partition(init);
      Snoc(init, e);
    }
  }

  /** Each event keeps the context an exact summary of the history. */
  lemma AfterSummarises(ctx: Ctx, log: seq<Event>, e: Event)
    requires Summarises(ctx, log)
    ensures Summarises(After(ctx, e), log + [e])
    ensures ctx.due <= After(ctx, e).due
  {
    Snoc(log, e);
    Partition(log);
  }

  /** `WebhookReinvokeContext`; `history` is a ghost record of the calls and
      edits the context has been told about. */
  class WebhookReinvokeContext {
    var lastWebhookOutput: Option<Json>
    var previouslyInvokedReinvocableWebhooks: set<string>
    var reinvokeWebhooks: set<string>
    ghost var history: seq<Event>

    ghost function View(): Ctx
      reads this
    {
      Ctx(lastWebhookOutput, previouslyInvokedReinvocableWebhooks, reinvokeWebhooks)
    }

    /** The class invariant: the two sets are exactly what the history says. */
    ghost predicate Valid()
      reads this
    {
      Summarises(View(), history)
    }

    constructor ()
      ensures Valid() && View() == EMPTY_CTX && history == []
    {
      lastWebhookOutput := None;
      previouslyInvokedReinvocableWebhooks := {};
      reinvokeWebhooks := {};
      history := [];
    }

    method ShouldReinvokeWebhook(webhook: string) returns (r: bool)
      requires Valid()
      ensures r <==> exists i, j ::
                0 <= i < j < |history| && Reinvocable(history[i]) && history[i].uid == webhook && Requires(history[j])
    {
      r := webhook in reinvokeWebhooks;
    }

    method IsOutputChangedSinceLastWebhookInvocation(doc: Option<Json>) returns (r: bool)
      ensures r <==> View().last != doc
    {
      r := lastWebhookOutput != doc;
    }

    method SetLastWebhookInvocationOutput(doc: Option<Json>)
      requires Valid()
      modifies this`lastWebhookOutput
      ensures Valid() && View() == old(View()).(last := doc)
    {
      lastWebhookOutput := doc;
    }

    method RequireReinvokingPreviouslyInvokedPlugins()
      modifies this`previouslyInvokedReinvocableWebhooks, this`reinvokeWebhooks
      ensures View() == RequireReinvoking(old(View()))
    {
      reinvokeWebhooks := reinvokeWebhooks + previouslyInvokedReinvocableWebhooks;
      previouslyInvokedReinvocableWebhooks := {};
    }

    method AddReinvocableWebhookToPreviouslyInvoked(webhook: string)
      modifies this`previouslyInvokedReinvocableWebhooks
      ensures View() == AddInvoked(old(View()), webhook)
    {
      previouslyInvokedReinvocableWebhooks := previouslyInvokedReinvocableWebhooks + {webhook};
    }
  }
}
