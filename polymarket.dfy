/** The client object: its paginated event fetch and its projection of the cached events. */
module Polymarket {
  import opened Json
  import opened Pagination
  import opened Projection

  class PolymarketApi {
    /** The number of events asked for per request. */
    var limit: nat
    /** The projection kept by the last successful extraction. */
    var relevantInfo: seq<EventInfo>

    constructor ()
      ensures limit == 100 && relevantInfo == []
    {
      limit := 100;
      relevantInfo := [];
    }

    /** Requests pages at offsets 0, limit, 2 * limit, ... from `server` and accumulates
        every list page, until a response is an error (status other than 200, a body
        that is not JSON, a value that is not a list) or a short page. It returns the
        accumulation, which is what gets saved, and the offsets it requested, in order.
        No error is raised: every way out of the loop returns the accumulation so far.
        The ghost `bound` is a page at which the server answers with something that
        stops the loop; without one the loop would not end. */
    method GetAndSaveAllEvents(server: nat -> Response, ghost bound: nat) returns (saved: seq<Json>, offsets: seq<nat>)
      requires Stops(ResponseAt(server, limit, bound), limit)
      ensures |offsets| > 0 && offsets[0] == 0
      ensures forall i :: 0 <= i < |offsets| ==> offsets[i] == i * limit
      ensures forall i :: 0 < i < |offsets| ==> offsets[i] == offsets[i - 1] + limit
      ensures forall i :: 0 <= i < |offsets| - 1 ==> !Stops(ResponseAt(server, limit, i), limit)
      ensures Stops(ResponseAt(server, limit, |offsets| - 1), limit)
      ensures saved == Appended(server, limit, |offsets|)
      ensures !IsListPage(ResponseAt(server, limit, |offsets| - 1)) ==> saved == Appended(server, limit, |offsets| - 1)
    {
      saved := [];
      offsets := [];
      var offset := 0;
      var done := false;
      while !done
        invariant offsets == Offsets(limit, |offsets|)
        invariant !done ==> offset == OffsetOf(limit, |offsets|) && |offsets| <= bound
        invariant done ==> |offsets| > 0 && Stops(ResponseAt(server, limit, |offsets| - 1), limit)
        invariant FullPages(server, limit, if done then |offsets| - 1 else |offsets|)
        invariant saved == Appended(server, limit, |offsets|)
        decreases bound - |offsets| + (if done then 0 else 1)
      {
        var response := server(offset);
        NextRequest(server, limit, |offsets|);
        offsets := offsets + [offset];
        if response.status != 200 {
          done := true;
        } else if response.body.Undecodable? {
          done := true;
        } else if !response.body.value.JArray? {
          done := true;
        } else {
          var events := response.body.value.items;
          saved := saved + events;
          if |events| < limit {
            done := true;
          } else {
            offset := offset + limit;
          }
        }
      }
      RunEnds(server, limit, |offsets|);
    }

    /** Projects each cached event onto its id, title and markets, and each market
        onto its id, question and description, with the fixed defaults for absent
        keys; the result is stored in `relevantInfo` and returned. A malformed cache
        raises instead, and `relevantInfo` keeps its old value. */
    method ExtractEventAndMarkets(events: Json) returns (r: Result<seq<EventInfo>>)
      modifies this`relevantInfo
      ensures r == ProjectEvents(events)
      ensures r.Ok? ==> relevantInfo == r.value
      ensures r.Err? ==> relevantInfo == old(relevantInfo)
    {
      var items;
      match LoopItems(events) {
        case Err(x) => return Err(x);
        case Ok(xs) => items := xs;
      }
      var eventWithMarkets: seq<EventInfo> := [];
      var i := 0;
      while i < |items|
        invariant 0 <= i <= |items|
        invariant |eventWithMarkets| == i
        invariant forall j :: 0 <= j < i ==> EventOf(items[j]) == Ok(eventWithMarkets[j])
        invariant relevantInfo == old(relevantInfo)
      {
        var event := items[i];
        if !event.JObject? {
          TraverseFirstError(EventOf, items, i);
          return Err(NoGetMethod);
        }
        var marketItems;
        match LoopItems(Get(event.fields, "markets", JArray([]))) {
          case Err(x) =>
            TraverseFirstError(EventOf, items, i);
            return Err(x);
          case Ok(ms) => marketItems := ms;
        }
        var markets: seq<MarketInfo> := [];
        var k := 0;
        while k < |marketItems|
          invariant 0 <= k <= |marketItems|
          invariant |markets| == k
          invariant forall j :: 0 <= j < k ==> MarketOf(marketItems[j]) == Ok(markets[j])
          invariant relevantInfo == old(relevantInfo)
        {
          var market := marketItems[k];
          if !market.JObject? {
            TraverseFirstError(MarketOf, marketItems, k);
            TraverseFirstError(EventOf, items, i);
            return Err(NoGetMethod);
          }
          var marketInfo := MarketInfo(Get(market.fields, "id", JNull),
                                       Get(market.fields, "question", JString(NoQuestion)),
                                       Get(market.fields, "description", JString(NoDescription)));
          markets := markets + [marketInfo];
          k := k + 1;
        }
        TraverseAllOk(MarketOf, marketItems, markets);
        var eventInfo := EventInfo(Get(event.fields, "id", JNull),
                                   Get(event.fields, "title", JString(NoTitle)),
                                   markets);
        eventWithMarkets := eventWithMarkets + [eventInfo];
        i := i + 1;
      }
      TraverseAllOk(EventOf, items, eventWithMarkets);
      relevantInfo := eventWithMarkets;
      r := Ok(eventWithMarkets);
    }
  }
}
