/** The listing endpoint's paging contract, as the event fetch loop sees it. */
module Pagination {
  import opened Json

  /** The body of an HTTP response: either it does not decode as JSON, or it is a decoded value. */
  datatype Body = Undecodable | Decoded(value: Json)

  /** One HTTP response of the listing endpoint: its status code and its body. */
  datatype Response = Response(status: int, body: Body)

  /** The offset of page `k`: the loop starts at 0 and adds `limit` after each full page. */
  function OffsetOf(limit: nat, k: nat): nat
  {
    if k == 0 then 0 else OffsetOf(limit, k - 1) + limit
  }

  /** Page `k` starts at offset `k * limit`. */
  lemma {:induction false} OffsetOfIsMultiple(limit: nat, k: nat)
    ensures OffsetOf(limit, k) == k * limit
  {
    if k > 0 {
      OffsetOfIsMultiple(limit, k - 1);
      assert k * limit == (k - 1) * limit + limit;
    }
  }

  /** The response the server gives to the request for page `k`. */
  function ResponseAt(server: nat -> Response, limit: nat, k: nat): Response
  {
    server(OffsetOf(limit, k))
  }

  /** A response the loop accepts: status 200, a body that decodes, and a decoded value that is a list. */
  predicate IsListPage(r: Response)
  {
    r.status == 200 && r.body.Decoded? && r.body.value.JArray?
  }

  /** What the loop appends to its accumulation for one response: the page's events, or nothing. */
  function Received(r: Response): seq<Json>
  {
    if IsListPage(r) then r.body.value.items else []
  }

  /** The loop stops after this response: it is one of the three error shapes, or a short page. */
  predicate Stops(r: Response, limit: nat)
  {
    !IsListPage(r) || |r.body.value.items| < limit
  }

  /** Everything appended by the requests for pages 0 .. n-1, in the order they were requested. */
  function Appended(server: nat -> Response, limit: nat, n: nat): seq<Json>
  {
    if n == 0 then [] else Appended(server, limit, n - 1) + Received(ResponseAt(server, limit, n - 1))
  }

  /** The offsets requested by a run of `n` requests, in order. */
  function Offsets(limit: nat, n: nat): seq<nat>
  {
    if n == 0 then [] else Offsets(limit, n - 1) + [OffsetOf(limit, n - 1)]
  }

  /** The requests of a run ask for offsets 0, limit, 2 * limit, ..., in order,
      each `limit` past the one before. */
  lemma {:induction false} OffsetsRun(limit: nat, n: nat)
    ensures |Offsets(limit, n)| == n
    ensures forall i :: 0 <= i < n ==> Offsets(limit, n)[i] == OffsetOf(limit, i) == i * limit
    ensures forall i :: 0 < i < n ==> Offsets(limit, n)[i] == Offsets(limit, n)[i - 1] + limit
  {
    if n > 0 {
      OffsetsRun(limit, n - 1);
      OffsetOfIsMultiple(limit, n - 1);
    }
  }

  /** None of the first `n` responses stopped the loop: each was a list page of at least `limit` events. */
  predicate FullPages(server: nat -> Response, limit: nat, n: nat)
  {
    n == 0 || (FullPages(server, limit, n - 1) && !Stops(ResponseAt(server, limit, n - 1), limit))
  }

  /** `FullPages` says of each of the first `n` responses that it did not stop the loop. */
  lemma {:induction false} FullPagesEach(server: nat -> Response, limit: nat, n: nat)
    ensures FullPages(server, limit, n) <==> forall k :: 0 <= k < n ==> !Stops(ResponseAt(server, limit, k), limit)
  {
    if n > 0 {
      FullPagesEach(server, limit, n - 1);
    }
  }

  /** One more request: it asks for the offset `limit` past the last, extends the
      accumulation by what its response adds, and keeps the run going only on a full page. */
  lemma NextRequest(server: nat -> Response, limit: nat, n: nat)
    ensures OffsetOf(limit, n + 1) == OffsetOf(limit, n) + limit
    ensures Offsets(limit, n + 1) == Offsets(limit, n) + [OffsetOf(limit, n)]
    ensures Appended(server, limit, n + 1) == Appended(server, limit, n) + Received(ResponseAt(server, limit, n))
    ensures FullPages(server, limit, n + 1) <==> FullPages(server, limit, n) && !Stops(ResponseAt(server, limit, n), limit)
  {
  }

  /** What a run of `n` requests that stopped at its last one has done. */
  lemma RunEnds(server: nat -> Response, limit: nat, n: nat)
    requires 0 < n && FullPages(server, limit, n - 1) && Stops(ResponseAt(server, limit, n - 1), limit)
    ensures var offsets := Offsets(limit, n);
      |offsets| == n && offsets[0] == 0
      && (forall i :: 0 <= i < |offsets| ==> offsets[i] == i * limit)
      && (forall i :: 0 < i < |offsets| ==> offsets[i] == offsets[i - 1] + limit)
      && (forall i :: 0 <= i < |offsets| - 1 ==> !Stops(ResponseAt(server, limit, i), limit))
  {
    OffsetsRun(limit, n);
    FullPagesEach(server, limit, n - 1);
  }

  /** The accumulation only grows: what the first `j` requests gathered is kept, unchanged and
      at the front, by every later request. So a run that stops at page `n` keeps all pages before it. */
  lemma {:induction false} AppendedPrefix(server: nat -> Response, limit: nat, j: nat, n: nat)
    requires j <= n
    ensures Appended(server, limit, j) <= Appended(server, limit, n)
    decreases n - j
  {
    if j < n {
      AppendedPrefix(server, limit, j, n - 1);
    }
  }

  /** Every event in the accumulation comes from the list page of some earlier request. */
  lemma {:induction false} AppendedFromPages(server: nat -> Response, limit: nat, n: nat, x: Json)
    requires x in Appended(server, limit, n)
    ensures exists k :: 0 <= k < n && x in Received(ResponseAt(server, limit, k))
  {
    if x !in Received(ResponseAt(server, limit, n - 1)) {
      AppendedFromPages(server, limit, n - 1, x);
    }
  }

  /** Every event of every list page received is in the accumulation. */
  lemma {:induction false} PagesInAppended(server: nat -> Response, limit: nat, n: nat, k: nat, x: Json)
    requires k < n && x in Received(ResponseAt(server, limit, k))
    ensures x in Appended(server, limit, n)
  {
    if k < n - 1 {
      PagesInAppended(server, limit, n - 1, k, x);
    }
  }

  /** When none of the first `n` responses stopped the loop, each of them was a full page,
      so the accumulation holds at least `n * limit` events. */
  lemma {:induction false} AppendedOfFullPages(server: nat -> Response, limit: nat, n: nat)
    requires forall k :: 0 <= k < n ==> !Stops(ResponseAt(server, limit, k), limit)
    ensures |Appended(server, limit, n)| >= n * limit
  {
    if n > 0 {
      AppendedOfFullPages(server, limit, n - 1);
      assert !Stops(ResponseAt(server, limit, n - 1), limit);
      assert n * limit == (n - 1) * limit + limit;
    }
  }

  /** The page at which a run stops is determined by the server: two indices that each
      stop while no earlier page does are the same index. */
  lemma StopIndexUnique(server: nat -> Response, limit: nat, n1: nat, n2: nat)
    requires Stops(ResponseAt(server, limit, n1), limit)
    requires forall k :: 0 <= k < n1 ==> !Stops(ResponseAt(server, limit, k), limit)
    requires Stops(ResponseAt(server, limit, n2), limit)
    requires forall k :: 0 <= k < n2 ==> !Stops(ResponseAt(server, limit, k), limit)
    ensures n1 == n2
  {
  }
}
