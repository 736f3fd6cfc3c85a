/**
 * The batch fetcher: split the net-new IDs into consecutive batches of at
 * most 100, POST one batch-read request per batch, flatten every result item
 * into a row, and stop at the first batch that does not answer 200.
 */
module BatchFetch {
  import opened Basics
  import opened Slicing
  import opened Dicts

  const BatchSize: nat := 100

  /** The properties every batch-read request asks for. */
  const Properties: seq<string> := [
    "hs_createdate", "company_name", "email_address", "email_name", "engagement_date",
    "first_name", "last_name", "form_name", "hubspot_contact_record_id",
    "icapture_lead_rating", "lead_source___most_recent", "marketing_engagement_type",
    "partner_of_interest", "salesforce_account_id", "salesforce_campaign_id",
    "salesforce_campaign_name", "salesforce_contact_id", "salesforce_lead_id", "url"]

  /** The JSON body `{"properties": ..., "inputs": [{"id": ...}, ...]}`. */
  datatype BatchRequest = BatchRequest(properties: seq<string>, inputs: seq<int>)

  /** One result item; either key may be missing from the payload. */
  datatype Item = Item(id: Option<Value>, properties: Option<Dict<Value>>)

  datatype BatchResponse = BatchResponse(status: int, results: Option<seq<Item>>)

  /** The batch-read endpoint: the answer to the k-th request sent. */
  type Server = (nat, BatchRequest) -> BatchResponse

  function RequestFor(ids: seq<int>): BatchRequest
  {
    BatchRequest(Properties, ids)
  }

  /**
   * `row = {'id': item['id']}; row.update(item['properties'])`: an item
   * gives a row exactly when it has both keys, and the missing 'id' is
   * reported before the missing 'properties'.
   */
  function RowOf(item: Item): (r: Result<Dict<Value>, RunError>)
    ensures r.Success? <==> item.id.Some? && item.properties.Some?
    ensures item.id.None? ==> r == Failure(MissingItemId)
    ensures item.id.Some? && item.properties.None? ==> r == Failure(MissingItemProperties)
  {
    match item.id
    case None => Failure(MissingItemId)
    case Some(id) =>
      match item.properties
      case None => Failure(MissingItemProperties)
      case Some(props) => Success(Update([("id", id)], props))
  }

  /**
   * A row holds 'id' first and then the item's other property names in
   * their order, each once; a property named 'id' keeps the first position
   * but overrides the item's id, because the update runs after 'id' is set.
   */
  lemma RowShape(id: Value, props: Dict<Value>)
    requires Distinct(Keys(props))
    ensures var row := Update([("id", id)], props);
      && Distinct(Keys(row))
      && Keys(row) == ["id"] + Without(Keys(props), ["id"])
      && ("id" !in Keys(props) ==> Keys(row) == ["id"] + Keys(props))
      && (forall k :: k in Keys(row) <==> k == "id" || k in Keys(props))
      && (forall k :: Get(row, k) == if k in Keys(props) then Get(props, k)
                                    else if k == "id" then Some(id) else None)
  {
    var row := Update([("id", id)], props);
    UpdateLaws([("id", id)], props);
    assert Keys([("id", id)]) == ["id"];
    AddKeysShape(["id"], Keys(props));
    AddKeysOrder(["id"], Keys(props));
    if "id" !in Keys(props) {
      WithoutNoop(Keys(props), ["id"]);
    }
    forall k
      ensures Get([("id", id)], k) == if k == "id" then Some(id) else None
    {
      assert [("id", id)][1..] == [];
    }
  }

  /** The rows of one batch's items in order, or the error of the first bad item. */
  function RowsOf(items: seq<Item>): (r: Result<seq<Dict<Value>>, RunError>)
    ensures r.Success? <==> forall i :: 0 <= i < |items| ==> RowOf(items[i]).Success?
    ensures r.Success? ==>
              && |r.value| == |items|
              && forall i :: 0 <= i < |items| ==> RowOf(items[i]) == Success(r.value[i])
    ensures r.Failure? ==>
              exists i :: && 0 <= i < |items|
                          && RowOf(items[i]).Failure?
                          && r.error == RowOf(items[i]).error
                          && forall j :: 0 <= j < i ==> RowOf(items[j]).Success?
  {
    if items == [] then Success([])
    else match RowOf(items[0])
      case Failure(e) => Failure(e)
      case Success(row) =>
        assert forall i :: 0 < i < |items| ==> items[i] == items[1..][i - 1];
        Prefixed([row], RowsOf(items[1..]))
  }

  /** The rows of a 200 answer; `detailed_data['results']` raises when absent. */
  function BatchRows(response: BatchResponse): Result<seq<Dict<Value>>, RunError>
  {
    match response.results
    case None => Failure(MissingBatchResults)
    case Some(items) => RowsOf(items)
  }

  function Respond(batches: seq<seq<int>>, server: Server, k: nat): BatchResponse
    requires k < |batches|
  {
    server(k, RequestFor(batches[k]))
  }

  /** A batch answered 200 with rows for all its items. */
  predicate Succeeds(response: BatchResponse)
  {
    response.status == StatusOk && BatchRows(response).Success?
  }

  /** What the fetch loop leaves behind: its rows or the error, and how many requests it sent. */
  datatype Fetch = Fetch(result: Result<seq<Dict<Value>>, RunError>, requests: nat)

  /** The fetch loop from batch k on. */
  function FetchFrom(batches: seq<seq<int>>, server: Server, k: nat): (f: Fetch)
    requires k <= |batches|
    ensures k <= f.requests <= |batches|
    ensures k < |batches| ==> k < f.requests
    decreases |batches| - k
  {
    if k == |batches| then Fetch(Success([]), k)
    else
      var response := Respond(batches, server, k);
      if response.status != StatusOk then Fetch(Success([]), k + 1)
      else match BatchRows(response)
        case Failure(e) => Fetch(Failure(e), k + 1)
        case Success(rows) =>
          var rest := FetchFrom(batches, server, k + 1);
          Fetch(Prefixed(rows, rest.result), rest.requests)
  }

  /** The rows of batches lo..hi-1, all of which succeeded. */
  function Gathered(batches: seq<seq<int>>, server: Server, lo: nat, hi: nat): seq<Dict<Value>>
    requires lo <= hi <= |batches|
    requires forall i :: lo <= i < hi ==> Succeeds(Respond(batches, server, i))
    decreases hi - lo
  {
    if lo == hi then []
    else
      var response := Respond(batches, server, lo);
      assert Succeeds(response);
      BatchRows(response).value + Gathered(batches, server, lo + 1, hi)
  }

  /**
   * Fail-fast: when batch j is the first that does not succeed, exactly
   * j + 1 requests are sent; on a non-200 answer the rows of the batches
   * before it are kept, in order, and a 200 answer with a missing key ends
   * the run.
   */
  lemma {:induction false} FirstUnsuccessful(batches: seq<seq<int>>, server: Server, k: nat, j: nat)
    requires k <= j < |batches|
    requires forall i :: k <= i < j ==> Succeeds(Respond(batches, server, i))
    requires !Succeeds(Respond(batches, server, j))
    ensures FetchFrom(batches, server, k).requests == j + 1
    ensures FetchFrom(batches, server, k).result ==
              if Respond(batches, server, j).status != StatusOk
              then Success(Gathered(batches, server, k, j))
              else Prefixed(Gathered(batches, server, k, j), BatchRows(Respond(batches, server, j)))
    decreases j - k
  {
    if k < j {
      FirstUnsuccessful(batches, server, k + 1, j);
      var rows := BatchRows(Respond(batches, server, k)).value;
      PrefixedTwice(rows, Gathered(batches, server, k + 1, j), BatchRows(Respond(batches, server, j)));
    }
  }

  /** When every batch succeeds, every batch is requested and all rows are kept, in order. */
  lemma {:induction false} AllSucceed(batches: seq<seq<int>>, server: Server, k: nat)
    requires k <= |batches|
    requires forall i :: k <= i < |batches| ==> Succeeds(Respond(batches, server, i))
    ensures FetchFrom(batches, server, k) == Fetch(Success(Gathered(batches, server, k, |batches|)), |batches|)
    decreases |batches| - k
  {
    if k < |batches| {
      AllSucceed(batches, server, k + 1);
    }
  }

  /**
   * The batches are ceil(N / 100) consecutive slices non_matches[i:i + 100],
   * each non-empty and at most 100 long, that concatenate back to the
   * net-new IDs; with no net-new ID no request is sent.
   */
  lemma BatchPartition(ids: seq<int>, server: Server)
    ensures |Chunked(ids, BatchSize)| == CeilDiv(|ids|, BatchSize)
    ensures forall k :: 0 <= k < |Chunked(ids, BatchSize)| ==>
              0 < |Chunked(ids, BatchSize)[k]| <= BatchSize
    ensures Flatten(Chunked(ids, BatchSize)) == ids
    ensures ids == [] <==> FetchFrom(Chunked(ids, BatchSize), server, 0).requests == 0
  {
    ChunkedShape(ids, BatchSize);
    if ids == [] {
      assert CeilDiv(0, BatchSize) == 0;
    } else {
      assert CeilDiv(|ids|, BatchSize) > 0;
    }
  }

  /** One more batch that succeeds: its rows join the kept ones and the loop goes on. */
  lemma FetchAdvance(batches: seq<seq<int>>, server: Server, k: nat, rows: seq<Dict<Value>>)
    requires k < |batches| && Succeeds(Respond(batches, server, k))
    ensures var rest := FetchFrom(batches, server, k + 1);
      && FetchFrom(batches, server, k).requests == rest.requests
      && Prefixed(rows, FetchFrom(batches, server, k).result) ==
         Prefixed(rows + BatchRows(Respond(batches, server, k)).value, rest.result)
  {
    PrefixedTwice(rows, BatchRows(Respond(batches, server, k)).value, FetchFrom(batches, server, k + 1).result);
  }

  /** A batch that does not succeed: the loop stops after its request. */
  lemma FetchStops(batches: seq<seq<int>>, server: Server, k: nat, rows: seq<Dict<Value>>)
    requires k < |batches| && !Succeeds(Respond(batches, server, k))
    ensures FetchFrom(batches, server, k).requests == k + 1
    ensures Prefixed(rows, FetchFrom(batches, server, k).result) ==
              if Respond(batches, server, k).status != StatusOk then Success(rows)
              else Failure(BatchRows(Respond(batches, server, k)).error)
  {
    assert rows + [] == rows;
  }

  /** `for item in detailed_data['results']`: one row per item, in order. */
  method CollectRows(items: seq<Item>) returns (r: Result<seq<Dict<Value>>, RunError>)
    ensures r == RowsOf(items)
  {
    var rows: seq<Dict<Value>> := [];
    var j := 0;
    while j < |items|
      invariant j <= |items|
      invariant RowsOf(items) == Prefixed(rows, RowsOf(items[j..]))
    {
      assert items[j..][1..] == items[j + 1..];
      var row := RowOf(items[j]);
      if row.Failure? {
        r := Failure(row.error);
        return;
      }
      PrefixedTwice(rows, [row.value], RowsOf(items[j + 1..]));
      rows := rows + [row.value];
      j := j + 1;
    }
    assert items[j..] == [] && rows + [] == rows;
    r := Success(rows);
  }

  /** The requests sent so far carry batches 0..|sent|-1, in order. */
  predicate SentFor(sent: seq<BatchRequest>, batches: seq<seq<int>>)
  {
    |sent| <= |batches| && forall i :: 0 <= i < |sent| ==> sent[i] == RequestFor(batches[i])
  }

  lemma SentStep(sent: seq<BatchRequest>, batches: seq<seq<int>>)
    requires SentFor(sent, batches) && |sent| < |batches|
    ensures SentFor(sent + [RequestFor(batches[|sent|])], batches)
  {
  }

  /** `detailed_data['results']` of a 200 answer, then its item loop. */
  method AnswerRows(response: BatchResponse) returns (r: Result<seq<Dict<Value>>, RunError>)
    ensures r == BatchRows(response)
  {
    if response.results == None {
      return Failure(MissingBatchResults);
    }
    r := CollectRows(response.results.value);
  }

  /**
   * The batch loop: one request per slice of the net-new IDs, rows appended
   * item by item, break on the first non-200 answer.
   */
  method FetchDetails(ids: seq<int>, server: Server) returns (r: Result<seq<Dict<Value>>, RunError>, sent: seq<BatchRequest>)
    ensures var f := FetchFrom(Chunked(ids, BatchSize), server, 0);
      && r == f.result
      && |sent| == f.requests
      && forall k :: 0 <= k < |sent| ==> sent[k] == RequestFor(Chunked(ids, BatchSize)[k])
  {
    ghost var batches := Chunked(ids, BatchSize);
    ghost var whole := FetchFrom(batches, server, 0);
    var starts := Range(0, |ids|, BatchSize);
    var rows: seq<Dict<Value>> := [];
    sent := [];
    var k := 0;
    while k < |starts|
      invariant k <= |starts| == |batches|
      invariant |sent| == k && SentFor(sent, batches)
      invariant whole ==
                Fetch(Prefixed(rows, FetchFrom(batches, server, k).result), FetchFrom(batches, server, k).requests)
    {
      var batchIds := Slice(ids, starts[k], starts[k] + BatchSize);
      assert batchIds == batches[k];
      var request := BatchRequest(Properties, batchIds);
      var response := server(k, request);
      assert response == Respond(batches, server, k);
      SentStep(sent, batches);
      sent := sent + [request];
      if response.status == StatusOk {
        var batchRows := AnswerRows(response);
        if batchRows.Failure? {
          FetchStops(batches, server, k, rows);
          r := Failure(batchRows.error);
          return;
        }
        FetchAdvance(batches, server, k, rows);
        rows := rows + batchRows.value;
      } else {
        FetchStops(batches, server, k, rows);
        r := Success(rows);
        return;
      }
      k := k + 1;
    }
    assert rows + [] == rows;
    r := Success(rows);
  }
}
