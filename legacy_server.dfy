/**
 * The first webhook listener: it recognises the same notifications as the
 * deduplicating gateway but processes nothing and keeps no state.
 */
module LegacyServer {
  import opened Js
  import opened Http
  import DedupGateway

  /**
   * The `/podio-hook` answer. The log line before the answer puts the item id
   * in a template, so an id that cannot be converted throws and the catch
   * answers 500.
   */
  function PodioHook(body: JsVal): (r: Response)
    ensures r.status == 200 || r.status == 400 || r.status == 500
    ensures DedupGateway.RouteOf(body).Handshake? ==> r == Text(200, "Verification ping OK")
    ensures DedupGateway.RouteOf(body).EmptyProbe? ==> r == Text(200, "Verification OK")
  {
    match DedupGateway.RouteOf(body)
    case Handshake => Text(200, "Verification ping OK")
    case EmptyProbe => Text(200, "Verification OK")
    case NoItemId => JsonError(400, "Missing itemId")
    case Candidate(itemId) =>
      if ToStrThrows(itemId) then JsonError(500, "Internal Server Error")
      else Response(200, Json(Obj(map["status" := Str("ok"), "itemId" := itemId])))
  }

  /** A 400 is given exactly to a non-empty, non-handshake body with neither `item_id` nor `itemId` truthy. */
  lemma RejectsIff(body: JsVal)
    ensures PodioHook(body).status == 400 <==>
              && !IsHandshake(body) && Truthy(body) && KeyCount(body) != 0
              && !Truthy(Get(body, "item_id")) && !Truthy(Get(body, "itemId"))
  {
  }

  /** A 500 is given exactly to a body whose chosen item id cannot be converted to a string. */
  lemma FailsIff(body: JsVal)
    ensures PodioHook(body).status == 500 <==>
              DedupGateway.RouteOf(body).Candidate? && ToStrThrows(DedupGateway.RouteOf(body).itemId)
  {
  }

  /** An accepted notification echoes the item id as given (`item_id` first, then `itemId`). */
  lemma EchoesItemId(body: JsVal)
    requires !IsHandshake(body) && Truthy(body) && KeyCount(body) != 0
    ensures Truthy(Get(body, "item_id")) && !ToStrThrows(Get(body, "item_id")) ==>
              PodioHook(body) == Response(200, Json(Obj(map["status" := Str("ok"), "itemId" := Get(body, "item_id")])))
    ensures !Truthy(Get(body, "item_id")) && Truthy(Get(body, "itemId")) && !ToStrThrows(Get(body, "itemId")) ==>
              PodioHook(body) == Response(200, Json(Obj(map["status" := Str("ok"), "itemId" := Get(body, "itemId")])))
  {
  }

  /**
   * The two listeners answer the probes with the same texts (the ones
   * `DedupGateway.HandlePodioHook` ensures) and disagree on the rest: without
   * an item id this one answers 400 where the gateway answers 200 "ok", and a
   * notification gets 200 here where the gateway queues it with 202.
   */
  lemma ContrastWithGateway(body: JsVal)
    ensures DedupGateway.RouteOf(body).Handshake? ==> PodioHook(body) == Text(200, "Verification ping OK")
    ensures DedupGateway.RouteOf(body).EmptyProbe? ==> PodioHook(body) == Text(200, "Verification OK")
    ensures DedupGateway.RouteOf(body).NoItemId? ==> PodioHook(body).status == 400
    ensures DedupGateway.RouteOf(body).Candidate? && !ToStrThrows(DedupGateway.RouteOf(body).itemId) ==>
              PodioHook(body).status == 200 && DedupGateway.QueuedResponse(DedupGateway.RouteOf(body).itemId).status == 202
  {
  }
}
