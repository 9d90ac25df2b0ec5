/**
 * The intake hook: a shared-secret guard, the record service's verification
 * handshake, and the insertion of one queued job per item notification.
 */
module IntakeHook {
  import opened Wrappers
  import opened Js
  import opened Http
  import opened Jobs

  /** The parts of a request the hook reads; `body` is None when it is not valid JSON. */
  datatype HookRequest = HookRequest(
    urlSecret: Option<string>,
    headerSecret: Option<string>,
    headerHookId: Option<string>,
    body: Option<JsVal>)

  /** A fetch answer: whether the status was 2xx, and the body text. */
  datatype HttpReply = HttpReply(ok: bool, text: string)

  /**
   * The configured secret and what the external calls answer: creating the
   * database client (an error when it throws), the OAuth token, the
   * validate call (Failure when the fetch itself throws), the insert (its
   * error, if any), and the time the row is created.
   */
  datatype HookEnv = HookEnv(
    expectedSecret: Option<string>,
    clientError: Option<string>,
    token: Result<string>,
    validate: Result<HttpReply>,
    insertError: Option<string>,
    now: int)

  /** `headerSecret || urlSecret`: the header wins unless it is absent or empty. */
  function PresentedSecret(req: HookRequest): Option<string>
  {
    if Present(req.headerSecret) then req.headerSecret else req.urlSecret
  }

  /** `expected && expected !== (headerSecret || urlSecret)` */
  predicate Forbidden(req: HookRequest, env: HookEnv)
  {
    Present(env.expectedSecret) && PresentedSecret(req) != env.expectedSecret
  }

  /** A body that does not parse is treated as `{}`. */
  function BodyOf(req: HookRequest): JsVal
  {
    if req.body.Some? then req.body.value else Obj(map[])
  }

  /** `body?.item_id ?? body?.item?.item_id ?? body?.data?.item_id ?? body?.data?.item?.item_id` */
  function ItemIdOf(body: JsVal): JsVal
  {
    Coalesce(Coalesce(Coalesce(Get(body, "item_id"), Get(Get(body, "item"), "item_id")),
                      Get(Get(body, "data"), "item_id")),
             Get(Get(Get(body, "data"), "item"), "item_id"))
  }

  /** `body?.app_id ?? body?.item?.app_id ?? body?.data?.app_id ?? null` */
  function AppIdOf(body: JsVal): JsVal
  {
    Coalesce(Coalesce(Coalesce(Get(body, "app_id"), Get(Get(body, "item"), "app_id")),
                      Get(Get(body, "data"), "app_id")),
             Null)
  }

  /** The handshake's answer. */
  function HandshakeResponse(req: HookRequest, env: HookEnv, body: JsVal): Response
  {
    var hookId := Or(Get(body, "hook_id"), OptStr(req.headerHookId));
    if !Truthy(hookId) then JsonError(400, "Missing hook_id")
    else if env.token.Failure? then JsonError(500, ErrorText(env.token.message))
    else if env.validate.Failure? then JsonError(500, ErrorText(env.validate.message))
    else if !env.validate.value.ok then JsonError(500, "validate failed: " + env.validate.value.text)
    else Response(200, Json(Obj(map["verified" := Bool(true)])))
  }

  /** What the hook does before touching the jobs table: answer at once, or insert a job. */
  datatype Action = Answer(resp: Response) | Enqueue(itemId: JsVal, appId: JsVal, payload: JsVal)

  function Decide(req: HookRequest, env: HookEnv): Action
  {
    if Forbidden(req, env) then Answer(Text(403, "forbidden"))
    else if env.clientError.Some? then Answer(JsonError(500, ErrorText(env.clientError.value)))
    else
      var body := BodyOf(req);
      if IsHandshake(body) then Answer(HandshakeResponse(req, env, body))
      else
        var itemId := ItemIdOf(body);
        if !Truthy(itemId) then Answer(JsonError(400, "Missing item_id"))
        else Enqueue(itemId, AppIdOf(body), body)
  }

  /** `{ job_id, status: "queued" }` */
  function QueuedResponse(id: nat): Response
  {
    Response(200, Json(Obj(map["job_id" := Num(id), "status" := Str("queued")])))
  }

  /** The row the insert adds. */
  function NewJob(id: nat, a: Action, now: int): Job
    requires a.Enqueue?
  {
    Job(id, a.itemId, a.appId, Queued, "podio", a.payload, now, None)
  }

  /** One request to the hook. */
  method HandleHook(store: JobStore, req: HookRequest, env: HookEnv) returns (resp: Response)
    requires store.Valid()
    modifies store
    ensures store.Valid()
    ensures store.results == old(store.results)
    ensures var a := Decide(req, env);
            if a.Answer? then
              resp == a.resp && store.jobs == old(store.jobs) && store.nextId == old(store.nextId)
            else if env.insertError.Some? then
              resp == JsonError(500, ErrorText(env.insertError.value))
              && store.jobs == old(store.jobs) && store.nextId == old(store.nextId)
            else
              && store.jobs == old(store.jobs) + [NewJob(old(store.nextId), a, env.now)]
              && store.nextId == old(store.nextId) + 1
              && resp == QueuedResponse(old(store.nextId))
  {
    if Forbidden(req, env) {
      return Text(403, "forbidden");
    }
    var body := BodyOf(req);
    if env.clientError.Some? {
      return JsonError(500, ErrorText(env.clientError.value));
    }
    if IsHandshake(body) {
      return HandshakeResponse(req, env, body);
    }
    var itemId := ItemIdOf(body);
    var appId := AppIdOf(body);
    if !Truthy(itemId) {
      return JsonError(400, "Missing item_id");
    }
    if env.insertError.Some? {
      return JsonError(500, ErrorText(env.insertError.value));
    }
    var id := store.InsertQueued(itemId, appId, "podio", body, env.now);
    resp := QueuedResponse(id);
  }

  // ---------------------------------------------------------------------------
  // Properties
  // ---------------------------------------------------------------------------

  /** The hook answers 403 exactly when a secret is configured and the presented one differs. */
  lemma ForbiddenIff(req: HookRequest, env: HookEnv)
    ensures Decide(req, env).Answer? && Decide(req, env).resp.status == 403 <==> Forbidden(req, env)
  {
  }

  /** With no secret configured (or an empty one) every request passes the guard. */
  lemma UnguardedWithoutSecret(req: HookRequest, env: HookEnv)
    requires !Present(env.expectedSecret)
    ensures !(Decide(req, env).Answer? && Decide(req, env).resp == Text(403, "forbidden"))
  {
  }

  /** A non-empty header secret decides alone: the query parameter is then ignored. */
  lemma HeaderSecretWins(req: HookRequest, env: HookEnv, otherUrlSecret: Option<string>)
    requires Present(req.headerSecret)
    ensures Forbidden(req, env) <==> Forbidden(req.(urlSecret := otherUrlSecret), env)
    ensures Present(env.expectedSecret) ==> (Forbidden(req, env) <==> req.headerSecret != env.expectedSecret)
  {
  }

  /** A job is inserted exactly for an admitted, non-handshake notification whose item id is truthy. */
  lemma EnqueueIff(req: HookRequest, env: HookEnv)
    ensures Decide(req, env).Enqueue? <==>
              && !Forbidden(req, env)
              && env.clientError.None?
              && !IsHandshake(BodyOf(req))
              && Truthy(ItemIdOf(BodyOf(req)))
  {
  }

  /** An enqueued job carries the resolved (truthy) item id and the whole body as its payload. */
  lemma EnqueueCarriesBody(req: HookRequest, env: HookEnv)
    requires Decide(req, env).Enqueue?
    ensures Truthy(Decide(req, env).itemId)
    ensures Decide(req, env).itemId == ItemIdOf(BodyOf(req))
    ensures Decide(req, env).payload == BodyOf(req)
  {
  }

  /** The first non-nullish path wins: a top-level item id that is present is used as is. */
  lemma ItemIdTopLevelFirst(body: JsVal)
    requires !Nullish(Get(body, "item_id"))
    ensures ItemIdOf(body) == Get(body, "item_id")
  {
  }

  /** When the top-level and `item` paths are missing, `data.item_id` is used. */
  lemma ItemIdFromData(body: JsVal)
    requires Nullish(Get(body, "item_id")) && Nullish(Get(Get(body, "item"), "item_id"))
    requires !Nullish(Get(Get(body, "data"), "item_id"))
    ensures ItemIdOf(body) == Get(Get(body, "data"), "item_id")
  {
  }

  /**
   * `??` is not `||`: a top-level `item_id: 0` hides every nested id, whatever
   * they are, and the notification is rejected as missing its item id.
   */
  lemma ZeroItemIdHidesNested(req: HookRequest, env: HookEnv)
    requires !Forbidden(req, env) && env.clientError.None? && !IsHandshake(BodyOf(req))
    requires Get(BodyOf(req), "item_id") == Num(0)
    ensures ItemIdOf(BodyOf(req)) == Num(0)
    ensures Decide(req, env) == Answer(JsonError(400, "Missing item_id"))
  {
    assert ItemIdOf(BodyOf(req)) == Num(0);
  }

  /** A body that is not JSON is treated as `{}` and rejected as missing its item id. */
  lemma UnparsableBodyRejected(req: HookRequest, env: HookEnv)
    requires req.body.None? && !Forbidden(req, env) && env.clientError.None?
    ensures Decide(req, env) == Answer(JsonError(400, "Missing item_id"))
  {
    assert Get(BodyOf(req), "type") == Undefined;
  }

  /** Handshakes never insert a job, whatever the item fields of the body. */
  lemma HandshakeNeverEnqueues(req: HookRequest, env: HookEnv)
    requires IsHandshake(BodyOf(req))
    ensures Decide(req, env).Answer?
  {
  }

  /** The handshake is confirmed exactly when a hook id is known and the validate call succeeds. */
  lemma HandshakeVerifiedIff(req: HookRequest, env: HookEnv)
    requires !Forbidden(req, env) && env.clientError.None? && IsHandshake(BodyOf(req))
    ensures Decide(req, env) == Answer(Response(200, Json(Obj(map["verified" := Bool(true)])))) <==>
              && Truthy(Or(Get(BodyOf(req), "hook_id"), OptStr(req.headerHookId)))
              && env.token.Success?
              && env.validate.Success? && env.validate.value.ok
  {
  }

  /** With no app id anywhere in the body, the stored app id is `null`. */
  lemma AppIdDefaultsToNull(body: JsVal)
    requires Nullish(Get(body, "app_id")) && Nullish(Get(Get(body, "item"), "app_id"))
    requires Nullish(Get(Get(body, "data"), "app_id"))
    ensures AppIdOf(body) == Null
  {
  }
}
