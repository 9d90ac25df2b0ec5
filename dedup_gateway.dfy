/**
 * The notification gateway: it acknowledges the verification handshake and
 * empty probes, deduplicates notifications by (hook, item, revision) key inside
 * a 60-second window kept in a map from key to timestamp, and spawns the filler
 * once per admitted notification.
 */
module DedupGateway {
  import opened Wrappers
  import opened Js
  import opened Http

  /** Notifications with the same key inside this many milliseconds collapse into one. */
  const TTL_MS: int := 60000

  /** The three parts of the key before conversion: hook and item ids default when falsy, the revision when nullish. */
  function KeyParts(body: JsVal): seq<JsVal>
  {
    [Or(Get(body, "hook_id"), Str("nohook")),
     Or(Or(Get(body, "item_id"), Get(body, "itemId")), Str("noid")),
     Coalesce(Get(body, "item_revision_id"), Str("norev"))]
  }

  /**
   * `${hook}:${id}:${rev}`; the template converts each part in turn, and a
   * part that cannot be converted to a string throws.
   */
  function MakeKey(body: JsVal): Result<string>
  {
    var parts := KeyParts(body);
    var hook := ToStrChecked(parts[0]);
    var id := ToStrChecked(parts[1]);
    var rev := ToStrChecked(parts[2]);
    if hook.Failure? then Failure(hook.message)
    else if id.Failure? then Failure(id.message)
    else if rev.Failure? then Failure(rev.message)
    else Success(hook.value + ":" + id.value + ":" + rev.value)
  }

  lemma MakeKeyParts(body: JsVal)
    ensures var hook := Get(body, "hook_id");
            var id := Or(Get(body, "item_id"), Get(body, "itemId"));
            var rev := Get(body, "item_revision_id");
            && (MakeKey(body).Failure? <==>
                  (Truthy(hook) && ToStrThrows(hook)) || (Truthy(id) && ToStrThrows(id))
                  || (!Nullish(rev) && ToStrThrows(rev)))
            && (MakeKey(body).Success? ==>
                  MakeKey(body).value ==
                    (if Truthy(hook) then ToStr(hook) else "nohook") + ":" +
                    (if Truthy(id) then ToStr(id) else "noid") + ":" +
                    (if Nullish(rev) then "norev" else ToStr(rev)))
  {
  }

  /** A falsy but non-nullish revision (here `0`) is kept: every key made for it ends in ":0", not ":norev". */
  lemma MakeKeyKeepsRevisionZero(body: JsVal)
    requires Get(body, "item_revision_id") == Num(0)
    requires MakeKey(body).Success?
    ensures var key := MakeKey(body).value;
            |key| >= 2 && key[|key| - 2..] == ":0"
  {
    MakeKeyParts(body);
    assert ToStr(Num(0)) == "0";
  }

  /** The entries left by the cleanup loop at time `now`: those at most `TTL_MS` old. */
  function Evict(seen: map<string, int>, now: int): (r: map<string, int>)
    ensures forall k :: k in r <==> k in seen && now - seen[k] <= TTL_MS
    ensures forall k :: k in r ==> r[k] == seen[k]
  {
    map k | k in seen && now - seen[k] <= TTL_MS :: seen[k]
  }

  datatype Lookup = Lookup(duplicate: bool, seen: map<string, int>)

  /** What `isDuplicate(key)` answers at time `now` and the map it leaves behind. */
  function Check(seen: map<string, int>, key: string, now: int): (r: Lookup)
    // duplicate exactly when a non-zero timestamp younger than the TTL is recorded for the key
    ensures r.duplicate <==> key in seen && seen[key] != 0 && now - seen[key] < TTL_MS
    // no stale entry survives the call
    ensures forall k :: k in r.seen ==> now - r.seen[k] <= TTL_MS
    // a duplicate does not refresh the timestamp; a fresh key is recorded at `now`
    ensures r.duplicate ==> r.seen == Evict(seen, now)
    ensures !r.duplicate ==> r.seen == Evict(seen, now)[key := now]
  {
    var live := Evict(seen, now);
    if key in live && live[key] != 0 && now - live[key] < TTL_MS then Lookup(true, live)
    else Lookup(false, live[key := now])
  }

  /** An entry exactly `TTL_MS` old is kept by the cleanup but is not a duplicate. */
  lemma ExactlyTtlOldIsFresh(key: string, t: int)
    requires t != 0
    ensures key in Evict(map[key := t], t + TTL_MS)
    ensures !Check(map[key := t], key, t + TTL_MS).duplicate
    ensures Check(map[key := t], key, t + TTL_MS).seen == map[key := t + TTL_MS]
  {
  }

  /** Once the window has passed the same key is admitted again. */
  lemma ExpiredKeyIsAdmitted(seen: map<string, int>, key: string, now: int)
    requires key in seen && now - seen[key] >= TTL_MS
    ensures !Check(seen, key, now).duplicate
    ensures Check(seen, key, now).seen[key] == now
  {
  }

  /** One call of `isDuplicate`: its key and the clock reading. */
  datatype Call = Call(key: string, now: int)

  /** The answers of `isDuplicate` to a sequence of calls, starting from `seen`. */
  function Outcomes(seen: map<string, int>, calls: seq<Call>): (r: seq<bool>)
    ensures |r| == |calls|
    decreases |calls|
  {
    if calls == [] then []
    else
      var c := Check(seen, calls[0].key, calls[0].now);
      [c.duplicate] + Outcomes(c.seen, calls[1..])
  }

  /** While every call up to index `m` is less than `TTL_MS` after `t0`, a key recorded at or after `t0` stays a duplicate. */
  lemma {:induction false} StaysDuplicate(seen: map<string, int>, calls: seq<Call>, key: string, t0: int, m: int)
    requires key in seen && 0 < t0 <= seen[key]
    requires m < |calls|
    requires forall a :: 0 <= a <= m ==> calls[a].now - t0 < TTL_MS
    ensures forall a :: 0 <= a <= m && calls[a].key == key ==> Outcomes(seen, calls)[a]
    decreases |calls|
  {
    if m >= 0 {
      var c := Check(seen, calls[0].key, calls[0].now);
      assert key in c.seen && t0 <= c.seen[key];
      StaysDuplicate(c.seen, calls[1..], key, t0, m - 1);
      forall a | 0 <= a <= m && calls[a].key == key
        ensures Outcomes(seen, calls)[a]
      {
        if a > 0 { assert calls[1..][a - 1] == calls[a]; }
      }
    }
  }

  /**
   * For a clock that does not run backwards, two admissions of the same key
   * are at least `TTL_MS` apart: at most one notification per key and window
   * is admitted.
   */
  lemma {:induction false} AtMostOneAdmissionPerWindow(seen: map<string, int>, calls: seq<Call>, i: int, j: int)
    requires forall a, b :: 0 <= a < b < |calls| ==> calls[a].now <= calls[b].now
    requires 0 <= i < j < |calls| && calls[i].key == calls[j].key
    requires calls[i].now > 0
    requires !Outcomes(seen, calls)[i] && !Outcomes(seen, calls)[j]
    ensures calls[j].now - calls[i].now >= TTL_MS
    decreases |calls|
  {
    var c := Check(seen, calls[0].key, calls[0].now);
    var rest := calls[1..];
    assert forall a :: 0 < a < |calls| ==> Outcomes(seen, calls)[a] == Outcomes(c.seen, rest)[a - 1];
    if i > 0 {
      forall a, b | 0 <= a < b < |rest|
        ensures rest[a].now <= rest[b].now
      {
        assert rest[a] == calls[a + 1] && rest[b] == calls[b + 1];
      }
      AtMostOneAdmissionPerWindow(c.seen, rest, i - 1, j - 1);
    } else if calls[j].now - calls[0].now < TTL_MS {
      FirstAdmissionBlocks(seen, calls, j);
      assert false;
    }
  }

  /** A first call that is admitted makes every later call with its key within `TTL_MS` a duplicate. */
  lemma FirstAdmissionBlocks(seen: map<string, int>, calls: seq<Call>, j: int)
    requires forall a, b :: 0 <= a < b < |calls| ==> calls[a].now <= calls[b].now
    requires 0 < j < |calls| && calls[0].key == calls[j].key && calls[0].now > 0
    requires !Outcomes(seen, calls)[0] && calls[j].now - calls[0].now < TTL_MS
    ensures Outcomes(seen, calls)[j]
  {
    var c := Check(seen, calls[0].key, calls[0].now);
    var rest := calls[1..];
    assert Outcomes(seen, calls) == [c.duplicate] + Outcomes(c.seen, rest);
    assert c.seen[calls[0].key] == calls[0].now;
    forall a | 0 <= a <= j - 1
      ensures rest[a].now - calls[0].now < TTL_MS
    {
      assert rest[a] == calls[a + 1];
      assert calls[a + 1].now <= calls[j].now;
    }
    StaysDuplicate(c.seen, rest, calls[0].key, calls[0].now, j - 1);
    assert rest[j - 1] == calls[j];
  }

  /** The gateway's process-local dedup cache: key -> timestamp of its last admission. */
  class DedupCache {
    var seen: map<string, int>

    constructor ()
      ensures seen == map[]
    {
      seen := map[];
    }

    /** `isDuplicate(key)` with `Date.now()` passed as `now`. */
    method IsDuplicate(key: string, now: int) returns (dup: bool)
      modifies this
      ensures dup == Check(old(seen), key, now).duplicate
      ensures seen == Check(old(seen), key, now).seen
    {
      var pending := seen.Keys;
      while pending != {}
        invariant pending <= old(seen).Keys
        invariant seen == map k | k in old(seen) && (k in pending || now - old(seen)[k] <= TTL_MS) :: old(seen)[k]
        decreases pending
      {
        var k :| k in pending;
        if now - seen[k] > TTL_MS {
          seen := seen - {k};
        }
        pending := pending - {k};
      }
      assert seen == Evict(old(seen), now);
      if key in seen && seen[key] != 0 && now - seen[key] < TTL_MS {
        return true;
      }
      seen := seen[key := now];
      return false;
    }
  }

  /** The routing decision of the `/podio-hook` handler before the key is made. */
  datatype Route = Handshake | EmptyProbe | NoItemId | Candidate(itemId: JsVal)

  function RouteOf(body: JsVal): (r: Route)
    ensures r.Handshake? <==> IsHandshake(body)
    ensures r.EmptyProbe? <==> !IsHandshake(body) && (!Truthy(body) || KeyCount(body) == 0)
    ensures r.Candidate? ==> Truthy(r.itemId)
    ensures r.Candidate? ==> r.itemId == Get(body, "item_id") || r.itemId == Get(body, "itemId")
    ensures r.NoItemId? <==> !IsHandshake(body) && Truthy(body) && KeyCount(body) != 0
                             && !Truthy(Get(body, "item_id")) && !Truthy(Get(body, "itemId"))
  {
    if IsHandshake(body) then Handshake
    else if !Truthy(body) || KeyCount(body) == 0 then EmptyProbe
    else
      var itemId := Or(Get(body, "item_id"), Get(body, "itemId"));
      if !Truthy(itemId) then NoItemId
      else Candidate(itemId)
  }

  /** When the key is made, the item id in it converts too, so `String(itemId)` afterwards does not throw. */
  lemma KeyedIdConverts(body: JsVal)
    requires RouteOf(body).Candidate? && MakeKey(body).Success?
    ensures ToStrChecked(RouteOf(body).itemId) == Success(ToStr(RouteOf(body).itemId))
  {
    MakeKeyParts(body);
  }

  /** An item id that is an object with its own `toString` cannot be part of a key: the handler's catch answers. */
  lemma UnconvertibleIdThrows(body: JsVal)
    requires RouteOf(body).Candidate? && RouteOf(body).itemId.Obj? && "toString" in RouteOf(body).itemId.props
    ensures MakeKey(body).Failure?
  {
    MakeKeyParts(body);
  }

  /** The answer to an admitted notification: 202 `{status: "queued", itemId: String(itemId)}`. */
  function QueuedResponse(itemId: JsVal): Response
  {
    Response(202, Json(Obj(map["status" := Str("queued"), "itemId" := Str(ToStr(itemId))])))
  }

  /**
   * The `/podio-hook` handler. `spawned` is the ITEM_ID the filler process is
   * started with, or None when nothing is spawned. A key that cannot be made
   * throws, and the catch acknowledges with 200 "ok".
   */
  method HandlePodioHook(cache: DedupCache, body: JsVal, now: int) returns (resp: Response, spawned: Option<string>)
    modifies cache
    ensures !RouteOf(body).Candidate? ==> cache.seen == old(cache.seen) && spawned == None && resp.status == 200
    ensures RouteOf(body).Handshake? ==> resp == Text(200, "Verification ping OK")
    ensures RouteOf(body).EmptyProbe? ==> resp == Text(200, "Verification OK")
    ensures RouteOf(body).NoItemId? ==> resp == Text(200, "ok")
    ensures RouteOf(body).Candidate? && MakeKey(body).Failure? ==>
              cache.seen == old(cache.seen) && spawned == None && resp == Text(200, "ok")
    ensures RouteOf(body).Candidate? && MakeKey(body).Success? ==>
              var c := Check(old(cache.seen), MakeKey(body).value, now);
              && cache.seen == c.seen
              && (c.duplicate ==> resp == Text(200, "duplicate") && spawned == None)
              && (!c.duplicate ==> resp == QueuedResponse(RouteOf(body).itemId)
                                   && spawned == Some(ToStr(RouteOf(body).itemId)))
  {
    var route := RouteOf(body);
    match route
    case Handshake =>
      resp, spawned := Text(200, "Verification ping OK"), None;
    case EmptyProbe =>
      resp, spawned := Text(200, "Verification OK"), None;
    case NoItemId =>
      resp, spawned := Text(200, "ok"), None;
    case Candidate(itemId) =>
      var key := MakeKey(body);
      if key.Failure? {
        return Text(200, "ok"), None;
      }
      var dup := cache.IsDuplicate(key.value, now);
      if dup {
        resp, spawned := Text(200, "duplicate"), None;
      } else {
        resp := QueuedResponse(itemId);
        spawned := Some(ToStr(itemId));
      }
  }
}
