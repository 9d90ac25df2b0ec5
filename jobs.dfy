/**
 * The persisted jobs and results tables, modelled in memory. The intake hook
 * inserts queued jobs; the worker claims the oldest one and moves it through
 * processing to done or error.
 */
module Jobs {
  import opened Wrappers
  import opened Js

  datatype Status = Queued | Processing | Done | Error

  /** A row of `jobs`: item and app ids as received, status, source, the notification body, creation time, error text. */
  datatype Job = Job(id: nat, itemId: JsVal, appId: JsVal, status: Status, source: string,
                     payload: JsVal, createdAt: int, error: Option<string>)

  /** A row of `results`, keyed by job id. */
  datatype ResultRow = ResultRow(jobId: nat, modelVersion: string, rawJson: JsVal)

  /** Position of a job in the lifecycle; done and error are both final. */
  function Rank(s: Status): nat
  {
    match s
    case Queued => 0
    case Processing => 1
    case Done => 2
    case Error => 2
  }

  /** `b` is `a` or a state reachable from it: queued -> processing -> {done, error}, never back and never between done and error. */
  predicate Advances(a: Status, b: Status)
  {
    a == b || Rank(a) < Rank(b)
  }

  lemma AdvancesTransitive(a: Status, b: Status, c: Status)
    requires Advances(a, b) && Advances(b, c)
    ensures Advances(a, c)
  {
  }

  lemma FinalStatesAreFinal(a: Status, b: Status)
    requires a == Done || a == Error
    requires Advances(a, b)
    ensures b == a
  {
  }

  predicate UniqueIds(jobs: seq<Job>)
  {
    forall i, j :: 0 <= i < |jobs| && 0 <= j < |jobs| && jobs[i].id == jobs[j].id ==> i == j
  }

  /**
   * `select * from jobs where status = 'queued' order by created_at limit 1`:
   * the position of a queued job with the smallest creation time (the first in
   * table order among equals), or None when nothing is queued.
   */
  function OldestQueued(jobs: seq<Job>): (r: Option<nat>)
    ensures r.None? <==> forall i :: 0 <= i < |jobs| ==> jobs[i].status != Queued
    ensures r.Some? ==> r.value < |jobs| && jobs[r.value].status == Queued
    ensures r.Some? ==> forall i :: 0 <= i < |jobs| && jobs[i].status == Queued ==> jobs[r.value].createdAt <= jobs[i].createdAt
    ensures r.Some? ==> forall i :: 0 <= i < r.value && jobs[i].status == Queued ==> jobs[r.value].createdAt < jobs[i].createdAt
    decreases |jobs|
  {
    if jobs == [] then None
    else
      var n := |jobs| - 1;
      var prev := OldestQueued(jobs[..n]);
      assert forall i :: 0 <= i < n ==> jobs[..n][i] == jobs[i];
      if jobs[n].status == Queued && (prev.None? || jobs[n].createdAt < jobs[prev.value].createdAt) then Some(n)
      else prev
  }

  /** `update jobs set status = s where id = id` */
  function SetStatusById(jobs: seq<Job>, id: nat, s: Status): (r: seq<Job>)
    ensures |r| == |jobs|
    ensures forall i :: 0 <= i < |jobs| ==> r[i] == if jobs[i].id == id then jobs[i].(status := s) else jobs[i]
  {
    seq(|jobs|, i requires 0 <= i < |jobs| => if jobs[i].id == id then jobs[i].(status := s) else jobs[i])
  }

  /** `update jobs set status = 'error', error = msg where status = 'processing'` */
  function FailProcessing(jobs: seq<Job>, msg: string): (r: seq<Job>)
    ensures |r| == |jobs|
    ensures forall i :: 0 <= i < |jobs| ==>
              r[i] == if jobs[i].status == Processing then jobs[i].(status := Error, error := Some(msg)) else jobs[i]
  {
    seq(|jobs|, i requires 0 <= i < |jobs| =>
      if jobs[i].status == Processing then jobs[i].(status := Error, error := Some(msg)) else jobs[i])
  }

  /** The tables. */
  class JobStore {
    var jobs: seq<Job>
    var results: map<nat, ResultRow>
    var nextId: nat

    /** Generated ids are unique and below `nextId`. */
    ghost predicate Valid()
      reads this
    {
      UniqueIds(jobs) && forall i :: 0 <= i < |jobs| ==> jobs[i].id < nextId
    }

    constructor ()
      ensures Valid() && jobs == [] && results == map[]
    {
      jobs, results, nextId := [], map[], 0;
    }

    /** `insert into jobs (...) returning id`: appends one queued row with a fresh id. */
    method InsertQueued(itemId: JsVal, appId: JsVal, source: string, payload: JsVal, createdAt: int) returns (id: nat)
      requires Valid()
      modifies this
      ensures Valid()
      ensures id == old(nextId)
      ensures jobs == old(jobs) + [Job(id, itemId, appId, Queued, source, payload, createdAt, None)]
      ensures results == old(results)
      ensures nextId == old(nextId) + 1
    {
      id := nextId;
      jobs := jobs + [Job(id, itemId, appId, Queued, source, payload, createdAt, None)];
      nextId := nextId + 1;
    }

    method SetStatus(id: nat, s: Status)
      requires Valid()
      modifies this`jobs
      ensures Valid()
      ensures jobs == SetStatusById(old(jobs), id, s)
    {
      jobs := SetStatusById(jobs, id, s);
    }

    method FailAllProcessing(msg: string)
      requires Valid()
      modifies this`jobs
      ensures Valid()
      ensures jobs == FailProcessing(old(jobs), msg)
    {
      jobs := FailProcessing(jobs, msg);
    }

    /** `upsert into results`: one row per job id, a later upsert replaces the earlier one. */
    method UpsertResult(row: ResultRow)
      modifies this`results
      ensures results == old(results)[row.jobId := row]
    {
      results := results[row.jobId := row];
    }
  }
}
