# Polymarket client: event pagination and event/market projection

A model of the two pieces of logic in the `PolymarketAPI` client class of
`polymarket.py`:

- **The event fetch loop** (`get_and_save_all_events`). It asks the public
  events listing endpoint for pages at offsets 0, `limit`, 2·`limit`, … and
  appends every page whose body is a JSON list. It stops on a status other
  than 200, a body that does not decode as JSON, a decoded value that is not
  a list, or a short page (fewer than `limit` events). A short page is
  appended before the loop ends. No error is raised: every way out of the
  loop reaches the code that saves the accumulation so far.
- **The projection** (`extract_event_and_markets_polymarket`). It maps each
  cached event onto `{event_id, event_title, markets}` and each of its markets
  onto `{market_id, question, description}`. A default is used only when a
  key is absent: no title gives `"No title provided"`, no question gives
  `"N/A"`, no description gives `"No description provided"`, and no id gives
  `None`. A key that is present with the value `null` keeps `null`. The result
  is stored in the `relevantInfo` field and returned.

Files:

- `json.dfy` (module `Json`): decoded JSON values. An object is a
  `map<string, Json>`, so an absent key and a key with a `null` value are
  different. `Get` is Python's `dict.get` with a default.
- `pagination.dfy` (module `Pagination`): the server, modelled as an oracle
  `server: nat -> Response` from offset to response. A response has a status
  code and a body that is either undecodable or a decoded `Json` value. The
  module also gives the loop's stop condition (`Stops`) and what one response
  adds to the accumulation (`Received`). `Appended(server, limit, n)` is the
  in-order concatenation of what the first `n` requests added.
  `OffsetOf(limit, k)` is the offset of page `k`, and `Offsets(limit, n)` is
  the offsets of the first `n` requests. `FullPages` says that none of the
  first `n` responses stopped the loop. Lemmas about these functions follow.
- `projection.dfy` (module `Projection`): the projection as functions.
  `LoopItems` models Python's `for` over a decoded value. `Traverse` applies
  a projection to each element with first-failure semantics. `MarketOf`,
  `EventOf` and `ProjectEvents` build the records. The module also holds an
  independent reference description of the projection (`IsRecordList`,
  `IsEventRecord`, `MarketProjected`, `EventProjected`) and lemmas that tie
  the two descriptions together.
- `polymarket.dfy` (module `Polymarket`): the class `PolymarketApi`, with
  fields `limit` and `relevantInfo`. Its two methods are written as loops,
  as in the source, and are proved against the functions above.

A malformed cache makes Python raise, and the model keeps that error path.
A `for` over a value that cannot be iterated (for example, a `markets`
member that is present with the value `null`) raises TypeError, modelled as
`NotIterable`. Calling `.get` on an element that is not an object (for
example, a string element, or any key of a non-empty dict) raises
AttributeError, modelled as `NoGetMethod`. The extraction then returns that
failure, and `relevantInfo` keeps its old value.

## Model

| member | source | states |
|---|---|---|
| `Polymarket.PolymarketApi.constructor` | polymarket.py:14-18 | a new client has page size `limit == 100` and an empty `relevantInfo` |
| `Polymarket.PolymarketApi.GetAndSaveAllEvents` | polymarket.py:20-59 | the offsets requested are 0, limit, 2·limit, …, each one `limit` after the last; every request except the last got a full list page, and the last got an error shape or a short page; the saved list is the in-order concatenation of every list page received, including a short last page; when the last response is an error, nothing is appended for it and the earlier pages are kept; no error is surfaced |
| `Polymarket.PolymarketApi.ExtractEventAndMarkets` | polymarket.py:93-116 | the nested loops compute exactly `ProjectEvents` of the decoded cache; on success `relevantInfo` equals the returned list; on a raised error `relevantInfo` is unchanged |
| `Pagination.OffsetOfIsMultiple` | polymarket.py:22-57 | the offset of page k, reached from 0 by adding `limit` once per full page, is k·limit |
| `Pagination.OffsetsRun` | polymarket.py:22-57 | a run of n requests asks for offsets 0, limit, 2·limit, …, (n−1)·limit, in increasing order, each `limit` past the one before |
| `Pagination.FullPagesEach` | polymarket.py:48-57 | a run continues past n requests exactly when each of the first n responses was a list page of at least `limit` events |
| `Pagination.AppendedPrefix` | polymarket.py:31-48 | what earlier requests accumulated stays, unchanged and in front, after any later request, so a run that stops at page n keeps all pages before n |
| `Pagination.AppendedFromPages` | polymarket.py:48 | every saved event comes from the list page of some request made before the loop stopped |
| `Pagination.PagesInAppended` | polymarket.py:48 | every event of every list page received before the stop is in the accumulation |
| `Pagination.AppendedOfFullPages` | polymarket.py:48-57 | when none of the first n responses stopped the loop, the accumulation holds at least n·limit events |
| `Pagination.StopIndexUnique` | polymarket.py:24-57 | the page at which the loop stops is determined by the server's answers, so the number of requests and the saved list are too |
| `Projection.TraverseOk` | polymarket.py:98-113 | a `for` loop that builds one record per element succeeds exactly when every element succeeds, and then yields one record per element, in order |
| `Projection.TraverseAllOk` | polymarket.py:98-113 | a loop whose records so far match the elements one by one yields exactly those records |
| `Projection.TraverseFirstError` | polymarket.py:98-113 | the error raised by the loop is the error of the first element, in order, that fails |
| `Projection.EventOfSpec` | polymarket.py:99-111 | one event is projected exactly when it is an object whose `markets` (an empty list when absent) is a list of objects; its id and title are copied when present (a present `null` included), and otherwise take `null` and "No title provided"; its markets list has one record per source market, in order, and is empty when `markets` is absent; each market copies id, question and description when present, and otherwise takes `null`, "N/A" and "No description provided" |
| `Projection.ProjectEventsSpec` | polymarket.py:97-116 | the projection succeeds exactly when the cache is a list of such events (or an empty dict or string), and then returns exactly one record per cached event, in the same order, each as `EventOfSpec` describes |
| `Projection.ProjectEventsFailure` | polymarket.py:98-105 | a cache that cannot be iterated (null, a boolean, a number) raises TypeError; a list cache raises the error of its first event that cannot be projected |

## Left out

- HTTP (`requests.get`), URL formatting and all `print` logging
  (polymarket.py:26-29 and elsewhere). The server is the oracle `server`,
  which gives one fixed response per offset. Exceptions raised by
  `requests.get` itself, such as a connection error, are not modelled.
- Deleting, writing and reading the cache file, and JSON encoding and
  decoding (polymarket.py:62-69, polymarket.py:94-95).
  `GetAndSaveAllEvents` returns the list that gets written.
  `ExtractEventAndMarkets` takes the decoded file content as its argument.
  The model does not prove that `json.load` after `json.dump` gives back the
  same list.
- Polymarket.PolymarketApi.GetAndSaveAllEvents: terminates only for servers
  that stop the loop at some page. The ghost `bound` must be such a page.
  A server that always returns full pages makes the source loop for ever,
  and the model does not describe that run.
- Every JSON decode failure of the response body is treated as caught at
  polymarket.py:37. The model does not cover the case where the HTTP library
  raises a decode exception that is not a `json.JSONDecodeError`.
- `limit` is a natural number. The source only ever sets it to 100.
- JSON numbers are kept as their literal text. Neither piece looks at them.
- Dict iteration order is not modelled. The projection only iterates a dict
  to fail on its first key, whichever key that is.
- `generate_api_key` (polymarket.py:71-91): vendor SDK credential derivation
  and an append to a `.env` file.
- `excecute_BUY_trade` (polymarket.py:125-145): vendor SDK order signing and
  submission, with a floating-point price.
- The environment lookups and fixed endpoint strings of `__init__`,
  `load_dotenv`, and the `__main__` block (polymarket.py:8, polymarket.py:11-17,
  polymarket.py:148-153). They are configuration and script wiring.
