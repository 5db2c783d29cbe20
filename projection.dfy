/** The projection of cached events onto the fields the client keeps. */
module Projection {
  import opened Json

  /** The value stored for an event without a `title` member. */
  const NoTitle := "No title provided"
  /** The value stored for a market without a `question` member. */
  const NoQuestion := "N/A"
  /** The value stored for a market without a `description` member. */
  const NoDescription := "No description provided"

  /** The two exceptions the projection can raise on a malformed cache:
      a `for` over a value Python cannot iterate (TypeError), and `.get`
      on an element that is not a JSON object (AttributeError). */
  datatype Failure = NotIterable | NoGetMethod

  datatype Result<T> = Ok(value: T) | Err(error: Failure)

  /** The record kept for one market. */
  datatype MarketInfo = MarketInfo(marketId: Json, question: Json, description: Json)

  /** The record kept for one event. */
  datatype EventInfo = EventInfo(eventId: Json, eventTitle: Json, markets: seq<MarketInfo>)

  /** What a Python loop `for x in v: x.get(...)` goes through. A list yields its
      elements. A dict yields its keys and a string its one-character strings; neither
      has a `.get`, so the loop fails at the first of them unless there is none.
      Any other value is not iterable. */
  function LoopItems(v: Json): Result<seq<Json>>
  {
    match v
    case JArray(items) => Ok(items)
    case JObject(m) => if m == map[] then Ok([]) else Err(NoGetMethod)
    case JString(s) => if s == "" then Ok([]) else Err(NoGetMethod)
    case _ => Err(NotIterable)
  }

  /** Applies `f` to each element in order and collects the results; the first
      failure, in order, is the result of the whole loop. */
  function Traverse<T>(f: Json -> Result<T>, xs: seq<Json>): Result<seq<T>>
  {
    if xs == [] then Ok([])
    else match f(xs[0])
      case Err(e) => Err(e)
      case Ok(y) =>
        match Traverse(f, xs[1..])
        case Err(e) => Err(e)
        case Ok(ys) => Ok([y] + ys)
  }

  /** The record built for one element of an event's `markets` list. */
  function MarketOf(m: Json): Result<MarketInfo>
  {
    if !m.JObject? then Err(NoGetMethod)
    else Ok(MarketInfo(Get(m.fields, "id", JNull),
                       Get(m.fields, "question", JString(NoQuestion)),
                       Get(m.fields, "description", JString(NoDescription))))
  }

  /** The record built for one cached event, with its markets in order. */
  function EventOf(e: Json): Result<EventInfo>
  {
    if !e.JObject? then Err(NoGetMethod)
    else match LoopItems(Get(e.fields, "markets", JArray([])))
      case Err(x) => Err(x)
      case Ok(ms) =>
        match Traverse(MarketOf, ms)
        case Err(x) => Err(x)
        case Ok(infos) => Ok(EventInfo(Get(e.fields, "id", JNull),
                                       Get(e.fields, "title", JString(NoTitle)),
                                       infos))
  }

  /** The projection of the whole decoded cache. */
  function ProjectEvents(events: Json): Result<seq<EventInfo>>
  {
    match LoopItems(events)
    case Err(x) => Err(x)
    case Ok(items) => Traverse(EventOf, items)
  }

  // ---------------------------------------------------------------------------
  // A reference description of the projection, stated without the loops.

  /** The elements a well-formed list-like value contributes: a list's elements; nothing otherwise. */
  function Entries(v: Json): seq<Json>
  {
    if v.JArray? then v.items else []
  }

  /** A value the projection can loop over with `.get`: a list of JSON objects,
      or an empty dict or an empty string. */
  predicate IsRecordList(v: Json, isRecord: Json -> bool)
  {
    match v
    case JArray(items) => forall i :: 0 <= i < |items| ==> isRecord(items[i])
    case JObject(m) => m == map[]
    case JString(s) => s == ""
    case _ => false
  }

  /** An event the projection accepts: an object whose `markets` member, or the
      empty list when it is absent, is a list of objects. */
  predicate IsEventRecord(e: Json)
  {
    e.JObject? && IsRecordList(Get(e.fields, "markets", JArray([])), (m: Json) => m.JObject?)
  }

  /** `info` is the market record of the object `m`: each member is copied when
      the key is present, including a present `null`, and takes its default only
      when the key is absent. */
  predicate MarketProjected(m: Json, info: MarketInfo)
  {
    m.JObject?
    && info.marketId == (if "id" in m.fields then m.fields["id"] else JNull)
    && info.question == (if "question" in m.fields then m.fields["question"] else JString(NoQuestion))
    && info.description == (if "description" in m.fields then m.fields["description"] else JString(NoDescription))
  }

  /** `info` is the event record of the object `e`: id and title as for markets
      (an absent id becomes `None`, that is, `null`), and one market record per
      element of `markets`, in order, none when the key is absent. */
  predicate EventProjected(e: Json, info: EventInfo)
  {
    e.JObject?
    && info.eventId == (if "id" in e.fields then e.fields["id"] else JNull)
    && info.eventTitle == (if "title" in e.fields then e.fields["title"] else JString(NoTitle))
    && ("markets" !in e.fields ==> info.markets == [])
    && var ms := if "markets" in e.fields then Entries(e.fields["markets"]) else [];
       |info.markets| == |ms|
       && forall j :: 0 <= j < |ms| ==> MarketProjected(ms[j], info.markets[j])
  }

  // ---------------------------------------------------------------------------
  // Lemmas

  /** The loop succeeds exactly when every element succeeds, and then it yields
      one result per element, in order. */
  lemma {:induction false} TraverseOk<T>(f: Json -> Result<T>, xs: seq<Json>)
    ensures Traverse(f, xs).Ok? <==> forall i :: 0 <= i < |xs| ==> f(xs[i]).Ok?
    ensures Traverse(f, xs).Ok? ==>
              |Traverse(f, xs).value| == |xs|
              && forall i :: 0 <= i < |xs| ==> Traverse(f, xs).value[i] == f(xs[i]).value
  {
    if xs != [] {
      TraverseOk(f, xs[1..]);
      if f(xs[0]).Ok? && Traverse(f, xs[1..]).Ok? {
        forall i | 0 <= i < |xs| ensures Traverse(f, xs).value[i] == f(xs[i]).value {
          if i > 0 {
            assert xs[i] == xs[1..][i - 1];
          }
        }
      } else if f(xs[0]).Ok? {
        var i :| 0 <= i < |xs[1..]| && !f(xs[1..][i]).Ok?;
        assert xs[1..][i] == xs[i + 1];
      }
    }
  }

  /** A loop whose results so far are `ys`, one per element, produces exactly `ys`. */
  lemma {:induction false} TraverseAllOk<T>(f: Json -> Result<T>, xs: seq<Json>, ys: seq<T>)
    requires |ys| == |xs|
    requires forall i :: 0 <= i < |xs| ==> f(xs[i]) == Ok(ys[i])
    ensures Traverse(f, xs) == Ok(ys)
  {
    TraverseOk(f, xs);
    assert Traverse(f, xs).value == ys;
  }

  /** The loop fails with the failure of the first element that fails. */
  lemma {:induction false} TraverseFirstError<T>(f: Json -> Result<T>, xs: seq<Json>, k: nat)
    requires k < |xs|
    requires forall i :: 0 <= i < k ==> f(xs[i]).Ok?
    requires f(xs[k]).Err?
    ensures Traverse(f, xs) == Err(f(xs[k]).error)
  {
    if k > 0 {
      forall i | 0 <= i < k - 1 ensures f(xs[1..][i]).Ok? {
        assert xs[1..][i] == xs[i + 1];
      }
      assert xs[1..][k - 1] == xs[k];
      TraverseFirstError(f, xs[1..], k - 1);
    }
  }

  /** One event is projected exactly when it is an event record, and then its
      record is the one the reference description gives. */
  lemma EventOfSpec(e: Json)
    ensures EventOf(e).Ok? <==> IsEventRecord(e)
    ensures EventOf(e).Ok? ==> EventProjected(e, EventOf(e).value)
  {
    if e.JObject? {
      var mv := Get(e.fields, "markets", JArray([]));
      if LoopItems(mv).Ok? {
        var ms := LoopItems(mv).value;
        assert ms == Entries(mv);
        TraverseOk(MarketOf, ms);
        if mv.JArray? {
          assert (forall i :: 0 <= i < |ms| ==> MarketOf(ms[i]).Ok?) <==> IsRecordList(mv, (m: Json) => m.JObject?);
        }
        if Traverse(MarketOf, ms).Ok? {
          var infos := Traverse(MarketOf, ms).value;
          forall j | 0 <= j < |ms| ensures MarketProjected(ms[j], infos[j]) {
            assert MarketOf(ms[j]).Ok?;
          }
        }
      }
    }
  }

  /** The projection succeeds exactly when the cache is a list of event records
      (or an empty dict or string), and then it holds one record per cached event,
      in the same order, each as the reference description gives it. */
  lemma ProjectEventsSpec(events: Json)
    ensures ProjectEvents(events).Ok? <==> IsRecordList(events, IsEventRecord)
    ensures ProjectEvents(events).Ok? ==>
              |ProjectEvents(events).value| == |Entries(events)|
              && forall i :: 0 <= i < |Entries(events)| ==>
                   EventProjected(Entries(events)[i], ProjectEvents(events).value[i])
  {
    if LoopItems(events).Ok? {
      var items := LoopItems(events).value;
      assert items == Entries(events);
      TraverseOk(EventOf, items);
      forall i | 0 <= i < |items| ensures EventOf(items[i]).Ok? <==> IsEventRecord(items[i]) {
        EventOfSpec(items[i]);
      }
      if Traverse(EventOf, items).Ok? {
        forall i | 0 <= i < |items| ensures EventProjected(items[i], ProjectEvents(events).value[i]) {
          EventOfSpec(items[i]);
        }
      }
    }
  }

  /** A cache that is not a list, dict or string (in particular `null`) fails with
      TypeError; one that is a list fails, if at all, with the failure of its first
      event that cannot be projected. */
  lemma ProjectEventsFailure(events: Json, k: nat)
    ensures !(events.JArray? || events.JObject? || events.JString?) ==> ProjectEvents(events) == Err(NotIterable)
    ensures events.JArray? && k < |events.items|
            && (forall i :: 0 <= i < k ==> EventOf(events.items[i]).Ok?)
            && EventOf(events.items[k]).Err?
            ==> ProjectEvents(events) == Err(EventOf(events.items[k]).error)
  {
    if events.JArray? && k < |events.items|
       && (forall i :: 0 <= i < k ==> EventOf(events.items[i]).Ok?)
       && EventOf(events.items[k]).Err? {
      TraverseFirstError(EventOf, events.items, k);
    }
  }
}
