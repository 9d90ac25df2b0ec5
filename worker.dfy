/**
 * The worker invocation: claim the oldest queued job (queued -> processing),
 * resolve the writable fields, classify, write back each non-empty output
 * whose role resolved, upsert the result and mark the job done; on any
 * error mark every processing job as error.
 */
module Worker {
  import opened Wrappers
  import opened Js
  import opened Http
  import opened Jobs
  import opened FieldResolver

  const MODEL_VERSION: string := "gpt-4o-mini"

  /**
   * One `putField(itemId, fieldId, value)` call, where `itemId` is
   * `Number(job.podio_item_id)`; its URL names the item by `NumberText(itemId)`.
   */
  datatype Write = Write(itemId: JsNumber, fieldId: int, value: JsVal)

  /**
   * What the external collaborators answer during one invocation: the OAuth
   * token, the app's field list, the parsed classifier output, and for every
   * PUT the error it raises (None when it succeeds).
   */
  datatype WorkerEnv = WorkerEnv(
    token: Result<string>,
    fields: Result<seq<Field>>,
    classification: Result<JsVal>,
    putField: Write -> Option<string>)

  /** The write for one role: only when the output value is truthy and the role resolved. */
  function OneWrite(value: JsVal, role: Option<Field>, itemId: JsNumber): (w: seq<Write>)
    ensures |w| <= 1
    ensures w != [] <==> Truthy(value) && role.Some?
    ensures w != [] ==> w[0] == Write(itemId, role.value.fieldId, value)
  {
    if Truthy(value) && role.Some? then [Write(itemId, role.value.fieldId, value)] else []
  }

  /** The output keys written back, each with the role whose field receives it, in source order. */
  function Targets(roles: Roles): seq<(string, Option<Field>)>
  {
    [("fraccion_arancelaria", roles.fraccion), ("descripcion_tecnica", roles.analisis),
     ("criterio_tlc", roles.criterio), ("notas_del_clasificador", roles.notas)]
  }

  /** The conditional `putField` calls for `targets`, in order. */
  function Plan(out: JsVal, targets: seq<(string, Option<Field>)>, itemId: JsNumber): seq<Write>
    decreases |targets|
  {
    if targets == [] then []
    else OneWrite(Get(out, targets[0].0), targets[0].1, itemId) + Plan(out, targets[1..], itemId)
  }

  /** The four conditional `putField` calls of the worker. */
  function PlannedWrites(out: JsVal, roles: Roles, itemId: JsNumber): seq<Write>
  {
    Plan(out, Targets(roles), itemId)
  }

  /** The plan spelled out as the four guarded calls. */
  lemma PlannedWritesUnfold(out: JsVal, roles: Roles, itemId: JsNumber)
    ensures PlannedWrites(out, roles, itemId) ==
              OneWrite(Get(out, "fraccion_arancelaria"), roles.fraccion, itemId)
              + (OneWrite(Get(out, "descripcion_tecnica"), roles.analisis, itemId)
                 + (OneWrite(Get(out, "criterio_tlc"), roles.criterio, itemId)
                    + OneWrite(Get(out, "notas_del_clasificador"), roles.notas, itemId)))
  {
    var t := Targets(roles);
    var a := OneWrite(Get(out, "fraccion_arancelaria"), roles.fraccion, itemId);
    var b := OneWrite(Get(out, "descripcion_tecnica"), roles.analisis, itemId);
    var c := OneWrite(Get(out, "criterio_tlc"), roles.criterio, itemId);
    var d := OneWrite(Get(out, "notas_del_clasificador"), roles.notas, itemId);
    assert t[3..][1..] == [] && t[3..][0] == t[3];
    assert Plan(out, t[3..], itemId) == d + [];
    assert d + [] == d;
    assert t[2..][1..] == t[3..] && t[2..][0] == t[2];
    assert Plan(out, t[2..], itemId) == c + d;
    assert t[1..][1..] == t[2..] && t[1..][0] == t[1];
    assert Plan(out, t[1..], itemId) == b + (c + d);
  }

  /** `x` writes the output under `key` into the field `role` resolved to. */
  predicate WriteOfRole(x: Write, out: JsVal, key: string, role: Option<Field>)
  {
    role.Some? && x.fieldId == role.value.fieldId && x.value == Get(out, key)
  }

  /** `x` writes one of the four outputs into the field of its own role. */
  predicate WriteOfSomeRole(x: Write, out: JsVal, roles: Roles)
  {
    || WriteOfRole(x, out, "fraccion_arancelaria", roles.fraccion)
    || WriteOfRole(x, out, "descripcion_tecnica", roles.analisis)
    || WriteOfRole(x, out, "criterio_tlc", roles.criterio)
    || WriteOfRole(x, out, "notas_del_clasificador", roles.notas)
  }

  /** Every planned write carries a truthy output value into its own role's field, for the claimed item. */
  lemma PlannedWritesSound(out: JsVal, roles: Roles, itemId: JsNumber)
    ensures var w := PlannedWrites(out, roles, itemId);
            && |w| <= 4
            && forall x :: x in w ==> Truthy(x.value) && x.itemId == itemId && WriteOfSomeRole(x, out, roles)
  {
    PlannedWritesUnfold(out, roles, itemId);
    var a := OneWrite(Get(out, "fraccion_arancelaria"), roles.fraccion, itemId);
    var b := OneWrite(Get(out, "descripcion_tecnica"), roles.analisis, itemId);
    var c := OneWrite(Get(out, "criterio_tlc"), roles.criterio, itemId);
    var d := OneWrite(Get(out, "notas_del_clasificador"), roles.notas, itemId);
    forall x: Write | x in a + (b + (c + d))
      ensures Truthy(x.value) && x.itemId == itemId && WriteOfSomeRole(x, out, roles)
    {
      assert x in a || x in b || x in c || x in d;
    }
  }

  /** Conversely, every truthy output whose role resolved is planned. */
  lemma PlannedWritesComplete(out: JsVal, roles: Roles, itemId: JsNumber)
    ensures var w := PlannedWrites(out, roles, itemId);
            && (Truthy(Get(out, "fraccion_arancelaria")) && roles.fraccion.Some? ==>
                  Write(itemId, roles.fraccion.value.fieldId, Get(out, "fraccion_arancelaria")) in w)
            && (Truthy(Get(out, "descripcion_tecnica")) && roles.analisis.Some? ==>
                  Write(itemId, roles.analisis.value.fieldId, Get(out, "descripcion_tecnica")) in w)
            && (Truthy(Get(out, "criterio_tlc")) && roles.criterio.Some? ==>
                  Write(itemId, roles.criterio.value.fieldId, Get(out, "criterio_tlc")) in w)
            && (Truthy(Get(out, "notas_del_clasificador")) && roles.notas.Some? ==>
                  Write(itemId, roles.notas.value.fieldId, Get(out, "notas_del_clasificador")) in w)
  {
    PlannedWritesUnfold(out, roles, itemId);
    var a := OneWrite(Get(out, "fraccion_arancelaria"), roles.fraccion, itemId);
    var b := OneWrite(Get(out, "descripcion_tecnica"), roles.analisis, itemId);
    var c := OneWrite(Get(out, "criterio_tlc"), roles.criterio, itemId);
    var d := OneWrite(Get(out, "notas_del_clasificador"), roles.notas, itemId);
    var w := a + (b + (c + d));
    assert a != [] ==> w[0] == a[0];
    assert b != [] ==> w[|a|] == b[0];
    assert c != [] ==> w[|a| + |b|] == c[0];
    assert d != [] ==> w[|a| + |b| + |c|] == d[0];
  }

  datatype WriteRun = WriteRun(done: seq<Write>, failure: Option<string>)

  /** Performing `ws` in order; the first failing call throws and the remaining ones are not made. */
  function ApplyWrites(ws: seq<Write>, put: Write -> Option<string>): WriteRun
    decreases |ws|
  {
    if ws == [] then WriteRun([], None)
    else
      var e := put(ws[0]);
      if e.Some? then WriteRun([], e)
      else
        var rest := ApplyWrites(ws[1..], put);
        WriteRun([ws[0]] + rest.done, rest.failure)
  }

  /**
   * The calls made are a prefix of the planned ones, all of which succeeded;
   * either all were made, or the next one is the call that threw.
   */
  lemma {:induction false} ApplyWritesStopsAtFirstFailure(ws: seq<Write>, put: Write -> Option<string>)
    ensures var r := ApplyWrites(ws, put);
            && |r.done| <= |ws| && r.done == ws[..|r.done|]
            && (forall i :: 0 <= i < |r.done| ==> put(r.done[i]) == None)
            && (r.failure.None? ==> r.done == ws)
            && (r.failure.Some? ==> |r.done| < |ws| && put(ws[|r.done|]) == r.failure)
    decreases |ws|
  {
    if ws != [] && put(ws[0]).None? {
      ApplyWritesStopsAtFirstFailure(ws[1..], put);
      var rest := ApplyWrites(ws[1..], put);
      assert ws[..1 + |rest.done|] == [ws[0]] + ws[1..][..|rest.done|];
    }
  }

  /** Only planned calls are made. */
  lemma ApplyWritesMakesPlannedCalls(ws: seq<Write>, put: Write -> Option<string>)
    ensures forall x :: x in ApplyWrites(ws, put).done ==> x in ws
  {
    ApplyWritesStopsAtFirstFailure(ws, put);
    var done := ApplyWrites(ws, put).done;
    forall x | x in done ensures x in ws {
      var i :| 0 <= i < |done| && done[i] == x;
      assert ws[i] == x;
    }
  }

  /** A single write followed by more writes. */
  lemma ApplyWritesAppend(w: seq<Write>, rest: seq<Write>, put: Write -> Option<string>)
    requires |w| <= 1
    ensures ApplyWrites(w + rest, put) ==
              if w == [] then ApplyWrites(rest, put)
              else if put(w[0]).Some? then WriteRun([], put(w[0]))
              else WriteRun(w + ApplyWrites(rest, put).done, ApplyWrites(rest, put).failure)
  {
    if w != [] {
      assert (w + rest)[0] == w[0];
      assert (w + rest)[1..] == rest;
    } else {
      assert w + rest == rest;
    }
  }

  /** How one invocation ends. */
  datatype Outcome =
    | NotAllowed
    | NoJob
    | Completed(jobId: nat, out: JsVal, writes: seq<Write>)
    | Failed(jobId: nat, message: string, writes: seq<Write>)

  /** The write-back once the classifier answered with a non-nullish `out`. */
  function WriteBackOutcome(job: Job, roles: Roles, out: JsVal, put: Write -> Option<string>): Outcome
  {
    var run := ApplyWrites(PlannedWrites(out, roles, ToNumber(job.itemId)), put);
    if run.failure.Some? then Failed(job.id, ErrorText(run.failure.value), run.done)
    else Completed(job.id, out, run.done)
  }

  /** The roles `pick` resolves among the fetched fields (unused when the fetch failed). */
  function EnvRoles(env: WorkerEnv): Roles
  {
    if env.fields.Success? then RolesOf(env.fields.value) else Roles(None, None, None, None)
  }

  /** The pipeline after the claim, each external call in source order; a thrown error ends it. */
  function Process(job: Job, env: WorkerEnv, roles: Roles): (o: Outcome)
    ensures (o.Completed? || o.Failed?) && o.jobId == job.id
    // reading `out.fraccion_arancelaria` of a null reply throws, and the catch keeps only `e.message`
    ensures env.token.Success? && env.fields.Success? && env.classification.Success?
            && Nullish(env.classification.value) ==>
              o == Failed(job.id, NullishReadMessage(env.classification.value, "fraccion_arancelaria"), [])
  {
    if env.token.Failure? then Failed(job.id, ErrorText(env.token.message), [])
    else if env.fields.Failure? then Failed(job.id, ErrorText(env.fields.message), [])
    else if env.classification.Failure? then Failed(job.id, ErrorText(env.classification.message), [])
    else if Nullish(env.classification.value) then
      Failed(job.id, GetStrict(env.classification.value, "fraccion_arancelaria").message, [])
    else WriteBackOutcome(job, roles, env.classification.value, env.putField)
  }

  /**
   * The outcome of one invocation, for the roles `roles` that `pick` finds
   * among the fetched fields (see `EnvRoles`).
   */
  function ServeOutcome(jobs: seq<Job>, httpMethod: string, env: WorkerEnv, roles: Roles): Outcome
  {
    if httpMethod != "POST" then NotAllowed
    else
      var pos := OldestQueued(jobs);
      if pos.None? then NoJob else Process(jobs[pos.value], env, roles)
  }

  /** The second update: done for a completed job, error for every processing job on failure. */
  function Settle(claimed: seq<Job>, o: Outcome): seq<Job>
  {
    match o
    case Completed(id, _, _) => SetStatusById(claimed, id, Done)
    case Failed(_, msg, _) => FailProcessing(claimed, msg)
    case _ => claimed
  }

  /** The jobs table after one invocation: the claim, then the settling update. */
  function JobsAfter(jobs: seq<Job>, o: Outcome): seq<Job>
  {
    if o.Completed? || o.Failed? then Settle(SetStatusById(jobs, o.jobId, Processing), o) else jobs
  }

  function ResultsAfter(results: map<nat, ResultRow>, o: Outcome): map<nat, ResultRow>
  {
    if o.Completed? then results[o.jobId := ResultRow(o.jobId, MODEL_VERSION, o.out)] else results
  }

  function ResponseOf(o: Outcome): Response
  {
    match o
    case NotAllowed => Text(405, "method not allowed")
    case NoJob => Text(200, "No queued jobs")
    case Completed(_, _, _) => Text(200, "ok")
    case Failed(_, msg, _) => JsonError(500, msg)
  }

  function WritesOf(o: Outcome): seq<Write>
  {
    match o
    case Completed(_, _, w) => w
    case Failed(_, _, w) => w
    case _ => []
  }

  /** One of the four PUTs (none when `w` is empty), followed by the writes still `ahead`. */
  method PutStep(w: seq<Write>, ghost ahead: seq<Write>, put: Write -> Option<string>) returns (err: Option<string>)
    requires |w| <= 1
    ensures err == if w == [] then None else put(w[0])
    ensures err.Some? ==> ApplyWrites(w + ahead, put) == WriteRun([], err)
    ensures err.None? ==>
              ApplyWrites(w + ahead, put) == WriteRun(w + ApplyWrites(ahead, put).done, ApplyWrites(ahead, put).failure)
  {
    ApplyWritesAppend(w, ahead, put);
    err := if w == [] then None else put(w[0]);
  }

  /** The four conditional PUTs in source order; the first one that throws ends the sequence. */
  method WriteBack(out: JsVal, roles: Roles, itemId: JsNumber, put: Write -> Option<string>)
    returns (done: seq<Write>, failure: Option<string>)
    ensures WriteRun(done, failure) == ApplyWrites(PlannedWrites(out, roles, itemId), put)
  {
    var w1 := OneWrite(Get(out, "fraccion_arancelaria"), roles.fraccion, itemId);
    var w2 := OneWrite(Get(out, "descripcion_tecnica"), roles.analisis, itemId);
    var w3 := OneWrite(Get(out, "criterio_tlc"), roles.criterio, itemId);
    var w4 := OneWrite(Get(out, "notas_del_clasificador"), roles.notas, itemId);
    PlannedWritesUnfold(out, roles, itemId);
    failure := PutStep(w1, w2 + (w3 + w4), put);
    if failure.Some? {
      return [], failure;
    }
    failure := PutStep(w2, w3 + w4, put);
    if failure.Some? {
      assert w1 + [] == w1;
      return w1, failure;
    }
    failure := PutStep(w3, w4, put);
    if failure.Some? {
      assert w2 + [] == w2;
      return w1 + w2, failure;
    }
    assert w4 + [] == w4;
    failure := PutStep(w4, [], put);
    if failure.Some? {
      assert w3 + [] == w3;
      return w1 + (w2 + w3), failure;
    }
    done := w1 + (w2 + (w3 + w4));
  }

  /** Marks every processing job as error and answers 500, as the `catch` block does. */
  method Fail(store: JobStore, msg: string) returns (resp: Response)
    requires store.Valid()
    modifies store`jobs
    ensures store.Valid()
    ensures store.jobs == FailProcessing(old(store.jobs), msg)
    ensures resp == JsonError(500, msg)
  {
    store.FailAllProcessing(msg);
    resp := JsonError(500, msg);
  }

  /** Everything after the claim of `job`. */
  method Finish(store: JobStore, job: Job, env: WorkerEnv) returns (resp: Response, writes: seq<Write>)
    requires store.Valid()
    modifies store
    ensures store.Valid()
    ensures var o := Process(job, env, EnvRoles(env));
            && store.jobs == Settle(old(store.jobs), o)
            && store.results == ResultsAfter(old(store.results), o)
            && resp == ResponseOf(o)
            && writes == WritesOf(o)
  {
    writes := [];
    if env.token.Failure? {
      resp := Fail(store, ErrorText(env.token.message));
      return;
    }
    if env.fields.Failure? {
      resp := Fail(store, ErrorText(env.fields.message));
      return;
    }
    var roles := Pick(env.fields.value);
    resp, writes := ClassifyAndWrite(store, job, env, roles);
  }

  /** From `classify` on, once the token and the fields were obtained and `pick` gave `roles`. */
  method ClassifyAndWrite(store: JobStore, job: Job, env: WorkerEnv, roles: Roles) returns (resp: Response, writes: seq<Write>)
    requires store.Valid()
    requires env.token.Success? && env.fields.Success?
    modifies store
    ensures store.Valid()
    ensures var o := Process(job, env, roles);
            && store.jobs == Settle(old(store.jobs), o)
            && store.results == ResultsAfter(old(store.results), o)
            && resp == ResponseOf(o)
            && writes == WritesOf(o)
  {
    writes := [];
    if env.classification.Failure? {
      resp := Fail(store, ErrorText(env.classification.message));
      return;
    }
    var out := env.classification.value;
    if Nullish(out) {
      resp := Fail(store, GetStrict(out, "fraccion_arancelaria").message);
      return;
    }
    var failure;
    writes, failure := WriteBack(out, roles, ToNumber(job.itemId), env.putField);
    if failure.Some? {
      resp := Fail(store, ErrorText(failure.value));
      return;
    }
    store.UpsertResult(ResultRow(job.id, MODEL_VERSION, out));
    store.SetStatus(job.id, Done);
    resp := Text(200, "ok");
  }

  /** One invocation of the worker; `writes` are the PUT calls that succeeded. */
  method Serve(store: JobStore, httpMethod: string, env: WorkerEnv) returns (resp: Response, writes: seq<Write>)
    requires store.Valid()
    modifies store
    ensures store.Valid()
    ensures var o := ServeOutcome(old(store.jobs), httpMethod, env, EnvRoles(env));
            && store.jobs == JobsAfter(old(store.jobs), o)
            && store.results == ResultsAfter(old(store.results), o)
            && resp == ResponseOf(o)
            && writes == WritesOf(o)
  {
    if httpMethod != "POST" {
      return Text(405, "method not allowed"), [];
    }
    var pos := OldestQueued(store.jobs);
    if pos.None? {
      return Text(200, "No queued jobs"), [];
    }
    var job := store.jobs[pos.value];
    store.SetStatus(job.id, Processing);
    resp, writes := Finish(store, job, env);
  }

  // ---------------------------------------------------------------------------
  // Properties of one invocation
  // ---------------------------------------------------------------------------

  /**
   * The claim and settling updates for a claimed job at position `k` (ids
   * unique): row `k` ends done or error, other processing rows end in error
   * on failure, every other row is unchanged, and no status moves backwards.
   */
  lemma {:induction false} SettleClaimed(jobs: seq<Job>, k: nat, o: Outcome)
    requires UniqueIds(jobs) && k < |jobs| && jobs[k].status == Queued
    requires (o.Completed? || o.Failed?) && o.jobId == jobs[k].id
    ensures var after := JobsAfter(jobs, o);
            && |after| == |jobs|
            && (o.Completed? ==> after[k] == jobs[k].(status := Done))
            && (o.Failed? ==> after[k] == jobs[k].(status := Error, error := Some(o.message)))
            && (forall i :: 0 <= i < |jobs| && i != k ==>
                  after[i] == if o.Failed? && jobs[i].status == Processing
                              then jobs[i].(status := Error, error := Some(o.message)) else jobs[i])
            && (forall i :: 0 <= i < |jobs| ==> Advances(jobs[i].status, after[i].status))
  {
    var claimed := SetStatusById(jobs, o.jobId, Processing);
    forall i | 0 <= i < |jobs| && i != k
      ensures claimed[i] == jobs[i]
    {
      assert jobs[i].id != jobs[k].id;
    }
    assert claimed[k] == jobs[k].(status := Processing);
    forall i | 0 <= i < |jobs| && i != k
      ensures o.Completed? ==> JobsAfter(jobs, o)[i] == jobs[i]
    {
      assert jobs[i].id != jobs[k].id;
    }
  }

  /** Every job's status only moves forward along queued -> processing -> {done, error}. */
  lemma ServeAdvancesStatuses(jobs: seq<Job>, httpMethod: string, env: WorkerEnv, roles: Roles)
    requires UniqueIds(jobs)
    ensures var after := JobsAfter(jobs, ServeOutcome(jobs, httpMethod, env, roles));
            && |after| == |jobs|
            && forall i :: 0 <= i < |jobs| ==> Advances(jobs[i].status, after[i].status)
  {
    var o := ServeOutcome(jobs, httpMethod, env, roles);
    if o.Completed? || o.Failed? {
      SettleClaimed(jobs, OldestQueued(jobs).value, o);
    }
  }

  /** The claim and the settling update change statuses and error texts only: rows keep their place and id. */
  lemma ServeKeepsIds(jobs: seq<Job>, httpMethod: string, env: WorkerEnv, roles: Roles)
    requires UniqueIds(jobs)
    ensures var after := JobsAfter(jobs, ServeOutcome(jobs, httpMethod, env, roles));
            && |after| == |jobs|
            && forall i :: 0 <= i < |jobs| ==> after[i].id == jobs[i].id
  {
    var o := ServeOutcome(jobs, httpMethod, env, roles);
    if o.Completed? || o.Failed? {
      SettleClaimed(jobs, OldestQueued(jobs).value, o);
    }
  }

  /** One invocation of the worker: its HTTP method, what its collaborators answer, and the roles `pick` finds. */
  datatype Invocation = Invocation(httpMethod: string, env: WorkerEnv, roles: Roles)

  /** The jobs table after the invocations `calls`, run one after the other. */
  function JobsAfterAll(jobs: seq<Job>, calls: seq<Invocation>): seq<Job>
    decreases |calls|
  {
    if calls == [] then jobs
    else
      var c := calls[0];
      JobsAfterAll(JobsAfter(jobs, ServeOutcome(jobs, c.httpMethod, c.env, c.roles)), calls[1..])
  }

  /**
   * Over any number of invocations no status moves backwards, and a job that
   * is done or in error keeps that status for good.
   */
  lemma {:induction false} InvocationsOnlyAdvance(jobs: seq<Job>, calls: seq<Invocation>)
    requires UniqueIds(jobs)
    ensures var after := JobsAfterAll(jobs, calls);
            && |after| == |jobs|
            && (forall i :: 0 <= i < |jobs| ==> after[i].id == jobs[i].id)
            && (forall i :: 0 <= i < |jobs| ==> Advances(jobs[i].status, after[i].status))
            && (forall i :: 0 <= i < |jobs| && (jobs[i].status == Done || jobs[i].status == Error) ==>
                  after[i].status == jobs[i].status)
    decreases |calls|
  {
    if calls != [] {
      var c := calls[0];
      var mid := JobsAfter(jobs, ServeOutcome(jobs, c.httpMethod, c.env, c.roles));
      ServeAdvancesStatuses(jobs, c.httpMethod, c.env, c.roles);
      ServeKeepsIds(jobs, c.httpMethod, c.env, c.roles);
      assert UniqueIds(mid);
      InvocationsOnlyAdvance(mid, calls[1..]);
      var after := JobsAfterAll(jobs, calls);
      assert after == JobsAfterAll(mid, calls[1..]);
      forall i | 0 <= i < |jobs|
        ensures Advances(jobs[i].status, after[i].status)
      {
        AdvancesTransitive(jobs[i].status, mid[i].status, after[i].status);
      }
      forall i | 0 <= i < |jobs| && (jobs[i].status == Done || jobs[i].status == Error)
        ensures after[i].status == jobs[i].status
      {
        AdvancesTransitive(jobs[i].status, mid[i].status, after[i].status);
        FinalStatesAreFinal(jobs[i].status, after[i].status);
      }
    }
  }

  /** Without POST, or with nothing queued, the tables are untouched. */
  lemma ServeIdle(jobs: seq<Job>, results: map<nat, ResultRow>, httpMethod: string, env: WorkerEnv, roles: Roles)
    requires httpMethod != "POST" || forall i :: 0 <= i < |jobs| ==> jobs[i].status != Queued
    ensures JobsAfter(jobs, ServeOutcome(jobs, httpMethod, env, roles)) == jobs
    ensures ResultsAfter(results, ServeOutcome(jobs, httpMethod, env, roles)) == results
    ensures ResponseOf(ServeOutcome(jobs, httpMethod, env, roles)) ==
              if httpMethod != "POST" then Text(405, "method not allowed") else Text(200, "No queued jobs")
  {
  }

  /** With a queued job, POST claims the oldest one: the invocation ends completed or failed for its id. */
  lemma ServeClaimsOldest(jobs: seq<Job>, env: WorkerEnv, roles: Roles, k: nat)
    requires OldestQueued(jobs) == Some(k)
    ensures var o := ServeOutcome(jobs, "POST", env, roles);
            (o.Completed? || o.Failed?) && o.jobId == jobs[k].id
  {
    var o := ServeOutcome(jobs, "POST", env, roles);
    assert o == Process(jobs[k], env, roles);
  }

  /**
   * The claimed job finishes done or error (with the message); every row
   * that was neither processing nor the claimed one is unchanged.
   */
  lemma ServeSettlesClaimedJob(jobs: seq<Job>, env: WorkerEnv, roles: Roles, k: nat)
    requires UniqueIds(jobs)
    requires OldestQueued(jobs) == Some(k)
    ensures var o := ServeOutcome(jobs, "POST", env, roles);
            var after := JobsAfter(jobs, o);
            && (o.Completed? ==> after[k].status == Done)
            && (o.Failed? ==> after[k].status == Error && after[k].error == Some(o.message))
            && forall i :: 0 <= i < |jobs| && i != k && jobs[i].status != Processing ==> after[i] == jobs[i]
  {
    ServeClaimsOldest(jobs, env, roles, k);
    SettleClaimed(jobs, k, ServeOutcome(jobs, "POST", env, roles));
  }

  /** A completed job's output is upserted under its id, replacing any earlier row; a failure writes no result. */
  lemma ServeUpsertsResult(jobs: seq<Job>, results: map<nat, ResultRow>, env: WorkerEnv, roles: Roles, k: nat)
    requires OldestQueued(jobs) == Some(k)
    ensures var o := ServeOutcome(jobs, "POST", env, roles);
            && (o.Completed? ==> ResultsAfter(results, o) ==
                                   results[jobs[k].id := ResultRow(jobs[k].id, MODEL_VERSION, o.out)])
            && (o.Failed? ==> ResultsAfter(results, o) == results)
  {
    ServeClaimsOldest(jobs, env, roles, k);
  }

  /** A failure also marks as error every OTHER job that was processing (e.g. claimed by a concurrent worker). */
  lemma FailureResetsEveryProcessingJob(jobs: seq<Job>, env: WorkerEnv, roles: Roles, i: int)
    requires 0 <= i < |jobs| && jobs[i].status == Processing
    requires ServeOutcome(jobs, "POST", env, roles).Failed?
    ensures JobsAfter(jobs, ServeOutcome(jobs, "POST", env, roles))[i].status == Error
  {
  }

  /** Run one at a time, invocations never leave a job in processing. */
  lemma ServeLeavesNoneProcessing(jobs: seq<Job>, httpMethod: string, env: WorkerEnv, roles: Roles)
    requires UniqueIds(jobs)
    requires forall i :: 0 <= i < |jobs| ==> jobs[i].status != Processing
    ensures var after := JobsAfter(jobs, ServeOutcome(jobs, httpMethod, env, roles));
            forall i :: 0 <= i < |after| ==> after[i].status != Processing
  {
    var o := ServeOutcome(jobs, httpMethod, env, roles);
    if o.Completed? || o.Failed? {
      SettleClaimed(jobs, OldestQueued(jobs).value, o);
    }
  }

  /** `id` is the field id of a role that resolved, to a text field. */
  predicate ResolvedTextField(roles: Roles, id: int)
  {
    || (roles.fraccion.Some? && roles.fraccion.value.fieldId == id && roles.fraccion.value.ftype == "text")
    || (roles.analisis.Some? && roles.analisis.value.fieldId == id && roles.analisis.value.ftype == "text")
    || (roles.criterio.Some? && roles.criterio.value.fieldId == id && roles.criterio.value.ftype == "text")
    || (roles.notas.Some? && roles.notas.value.fieldId == id && roles.notas.value.ftype == "text")
  }

  /**
   * Every PUT that was made writes a truthy output value into the field of
   * a resolved role; with the roles `pick` finds (all text or unresolved),
   * that field is a text field.
   */
  lemma WritesOnlyResolvedTextFields(jobs: seq<Job>, httpMethod: string, env: WorkerEnv, roles: Roles)
    requires TextOrUnresolved(roles.fraccion) && TextOrUnresolved(roles.analisis)
    requires TextOrUnresolved(roles.criterio) && TextOrUnresolved(roles.notas)
    ensures var o := ServeOutcome(jobs, httpMethod, env, roles);
            forall x :: x in WritesOf(o) ==>
              && Truthy(x.value)
              && env.fields.Success?
              && ResolvedTextField(roles, x.fieldId)
  {
    var o := ServeOutcome(jobs, httpMethod, env, roles);
    if WritesOf(o) != [] {
      var job := jobs[OldestQueued(jobs).value];
      assert o == Process(job, env, roles);
      var out := env.classification.value;
      assert o == WriteBackOutcome(job, roles, out, env.putField);
      WriteBackWritesOwnRoles(job, roles, out, env.putField);
    }
  }

  /** The writes the write-back makes are planned ones: truthy values into the fields of their own roles. */
  lemma WriteBackWritesOwnRoles(job: Job, roles: Roles, out: JsVal, put: Write -> Option<string>)
    requires TextOrUnresolved(roles.fraccion) && TextOrUnresolved(roles.analisis)
    requires TextOrUnresolved(roles.criterio) && TextOrUnresolved(roles.notas)
    ensures forall x :: x in WritesOf(WriteBackOutcome(job, roles, out, put)) ==>
              Truthy(x.value) && ResolvedTextField(roles, x.fieldId)
  {
    var planned := PlannedWrites(out, roles, ToNumber(job.itemId));
    PlannedWritesSound(out, roles, ToNumber(job.itemId));
    ApplyWritesMakesPlannedCalls(planned, put);
    forall x | x in WritesOf(WriteBackOutcome(job, roles, out, put))
      ensures Truthy(x.value) && ResolvedTextField(roles, x.fieldId)
    {
      assert x in planned;
      OwnRoleIsResolvedText(x, out, roles);
    }
  }

  /** Every PUT that was made names the claimed job's item as `Number(job.podio_item_id)` reads it. */
  lemma WritesNameClaimedItem(jobs: seq<Job>, httpMethod: string, env: WorkerEnv, roles: Roles)
    ensures var o := ServeOutcome(jobs, httpMethod, env, roles);
            WritesOf(o) != [] ==>
              && OldestQueued(jobs).Some?
              && forall x :: x in WritesOf(o) ==> x.itemId == ToNumber(jobs[OldestQueued(jobs).value].itemId)
  {
    var o := ServeOutcome(jobs, httpMethod, env, roles);
    if WritesOf(o) != [] {
      var job := jobs[OldestQueued(jobs).value];
      assert o == Process(job, env, roles);
      var out := env.classification.value;
      assert o == WriteBackOutcome(job, roles, out, env.putField);
      var planned := PlannedWrites(out, roles, ToNumber(job.itemId));
      PlannedWritesSound(out, roles, ToNumber(job.itemId));
      ApplyWritesMakesPlannedCalls(planned, env.putField);
    }
  }

  lemma OwnRoleIsResolvedText(x: Write, out: JsVal, roles: Roles)
    requires WriteOfSomeRole(x, out, roles)
    requires TextOrUnresolved(roles.fraccion) && TextOrUnresolved(roles.analisis)
    requires TextOrUnresolved(roles.criterio) && TextOrUnresolved(roles.notas)
    ensures ResolvedTextField(roles, x.fieldId)
  {
  }

  /**
   * As written, the worker calls `openai.chat.completions.create` on an
   * `openai` that is never declared, so `classify` throws a ReferenceError.
   */
  function AsWrittenEnv(env: WorkerEnv): WorkerEnv
  {
    env.(classification := Failure("openai is not defined"))
  }

  /** Whenever token and fields are obtained, the claimed job of the code as written ends in error. */
  lemma AsWrittenClaimedJobAlwaysFails(jobs: seq<Job>, env: WorkerEnv, roles: Roles)
    requires OldestQueued(jobs).Some?
    requires env.token.Success? && env.fields.Success?
    ensures ServeOutcome(jobs, "POST", AsWrittenEnv(env), roles) ==
              Failed(jobs[OldestQueued(jobs).value].id, "openai is not defined", [])
  {
  }

  /** With a classifier that answers and PUTs that succeed, the claimed job completes with all planned writes made. */
  lemma DeclaredClientCompletes(jobs: seq<Job>, env: WorkerEnv, roles: Roles, out: JsVal)
    requires OldestQueued(jobs).Some?
    requires env.token.Success? && env.fields.Success? && env.classification == Success(out) && !Nullish(out)
    requires forall x :: env.putField(x) == None
    ensures var o := ServeOutcome(jobs, "POST", env, roles);
            && o.Completed? && o.out == out
            && o.writes == PlannedWrites(out, roles, ToNumber(jobs[OldestQueued(jobs).value].itemId))
  {
    var job := jobs[OldestQueued(jobs).value];
    var planned := PlannedWrites(out, roles, ToNumber(job.itemId));
    ApplyWritesStopsAtFirstFailure(planned, env.putField);
    assert ApplyWrites(planned, env.putField).failure.None?;
    assert ServeOutcome(jobs, "POST", env, roles) == WriteBackOutcome(job, roles, out, env.putField);
  }
}
