/**
 * The whole run inside the script's single try block: list the segment's
 * members, read the IDs already in the warehouse table, fetch the net-new
 * engagements in batches, reshape their columns and append them to the
 * table in chunks. The first exception ends the run, and nothing after it
 * happens.
 */
module Sync {
  import opened Basics
  import opened Slicing
  import opened Dicts
  import opened Paging
  import opened IdDiff
  import opened BatchFetch
  import opened Columns
  import opened Loading

  /**
   * What a successful run leaves: the output column names, and the fetched
   * records sliced as appended (their cells are not reshaped).
   */
  datatype Loaded = Loaded(columns: seq<string>, writes: seq<seq<Dict<Value>>>)

  /**
   * The run, stage after stage; cells is the table's ID column. A non-empty
   * `next` object without `link` ends it before the table is read, and a successful run
   * writes under upper-case column names.
   */
  function Sync(pages: seq<Page>, cells: seq<Value>, server: Server): (r: Result<Loaded, RunError>)
    requires EndsWithin(pages)
    ensures Walk(pages).Failure? ==> r == Failure(MissingNextLink)
    ensures r.Success? ==> forall x :: x in r.value.columns ==> UpperName(x) == x
  {
    var all :- Walk(pages);
    var netNew :- Diff(all, cells);
    var rows :- FetchFrom(Chunked(netNew, BatchSize), server, 0).result;
    var columns :- Reshaped(ColumnsOf(rows));
    ReshapedUpper(ColumnsOf(rows));
    Success(Loaded(columns, Chunked(rows, ChunkSize)))
  }

  /**
   * A successful run appends exactly the fetched rows, in order, in
   * ceil(M / 10000) non-empty slices of at most 10000 rows, and the rows
   * fetched are those of the batches of the net-new IDs.
   */
  lemma SyncLoadsFetchedRows(pages: seq<Page>, cells: seq<Value>, server: Server)
    requires EndsWithin(pages)
    requires Sync(pages, cells, server).Success?
    ensures Walk(pages).Success? && Diff(Walk(pages).value, cells).Success?
    ensures var rows := FetchFrom(Chunked(Diff(Walk(pages).value, cells).value, BatchSize), server, 0).result;
      && rows.Success?
      && var writes := Sync(pages, cells, server).value.writes;
      && Flatten(writes) == rows.value
      && |writes| == CeilDiv(|rows.value|, ChunkSize)
      && (forall k :: 0 <= k < |writes| ==> 0 < |writes[k]| <= ChunkSize)
  {
    var rows := FetchFrom(Chunked(Diff(Walk(pages).value, cells).value, BatchSize), server, 0).result.value;
    ChunkedShape(rows, ChunkSize);
  }

  /**
   * When the table already holds every listed ID, no batch request is sent,
   * the DataFrame has no columns, and the run ends in the KeyError on
   * hs_createdate rather than in a load.
   */
  lemma NothingNewFails(pages: seq<Page>, cells: seq<Value>, server: Server)
    requires EndsWithin(pages)
    requires Walk(pages).Success? && Diff(Walk(pages).value, cells) == Success([])
    ensures FetchFrom(Chunked([], BatchSize), server, 0).requests == 0
    ensures Sync(pages, cells, server) == Failure(MissingColumn(CreateDate))
  {
    BatchPartition([], server);
    assert FetchFrom(Chunked([], BatchSize), server, 0).result == Success([]);
    EmptyFetchFails();
  }

  /** The properties every engagement of the sample run carries. */
  const SampleProperties: Dict<Value> :=
    [(CreateDate, Text("2024-01-02T03:04:05Z")), (LastModified, Text("2024-01-03T00:00:00Z")), (ObjectId, Text("7"))]

  /** A batch endpoint that answers every request with one item per requested ID. */
  const EchoServer: Server := (k: nat, req: BatchRequest) =>
    BatchResponse(StatusOk, Some(seq(|req.inputs|, i requires 0 <= i < |req.inputs| =>
      Item(Some(Num(req.inputs[i])), Some(SampleProperties)))))

  function SampleRow(id: int): Dict<Value>
  {
    Update([("id", Num(id))], SampleProperties)
  }

  /** The four column names of a sample row, all different. */
  lemma SampleKeysDistinct()
    ensures Distinct(["id", CreateDate, LastModified, ObjectId])
  {
    NamesDiffer();
  }

  /** A sample row has the columns id, hs_createdate, hs_lastmodifieddate, hs_object_id. */
  lemma SampleRowKeys(id: int)
    ensures Keys(SampleRow(id)) == ["id", CreateDate, LastModified, ObjectId]
  {
    var k := Keys(SampleProperties);
    assert k == [CreateDate, LastModified, ObjectId];
    SampleKeysDistinct();
    assert ["id", CreateDate, LastModified, ObjectId][1..] == k;
    UpdateLaws([("id", Num(id))], SampleProperties);
    assert Keys([("id", Num(id))]) == ["id"];
    AddKeysFresh(["id"], k);
  }

  /** The two sample rows make a DataFrame with the four columns of one of them. */
  lemma SampleColumns()
    ensures ColumnsOf([SampleRow(1), SampleRow(3)]) == ["id", CreateDate, LastModified, ObjectId]
  {
    var k := ["id", CreateDate, LastModified, ObjectId];
    SampleKeysDistinct();
    SampleRowKeys(1);
    SampleRowKeys(3);
    AddKeysFresh([], k);
    AddKeysKnown(k, k);
    assert [] + k == k;
    assert [SampleRow(1), SampleRow(3)][1..] == [SampleRow(3)];
    assert AllKeys([], [SampleRow(1), SampleRow(3)]) == AllKeys(k, [SampleRow(3)]);
    assert [SampleRow(3)][1..] == [];
  }

  /** The first drop leaves only the id column of a sample row. */
  lemma SampleDrop()
    ensures Without(["id", CreateDate, LastModified, ObjectId], [CreateDate, LastModified, ObjectId]) == ["id"]
  {
    var k := ["id", CreateDate, LastModified, ObjectId];
    var d := [CreateDate, LastModified, ObjectId];
    NamesDiffer();
    assert k[1..][1..][1..][1..] == [];
    assert Without(k[1..][1..][1..], d) == [];
    assert Without(k[1..][1..], d) == [];
    assert Without(k[1..], d) == [];
    assert ["id"] + [] == ["id"];
  }

  lemma SampleUpper()
    ensures UpperAll(["id", CreateDate]) == ["ID", "HS_CREATEDATE"]
  {
    assert UpperName("id") == "ID";
    assert UpperName(CreateDate) == "HS_CREATEDATE";
  }

  /** Those columns reshape to ID and HS_CREATEDATE. */
  lemma SampleReshape(k: seq<string>)
    requires k == ["id", CreateDate, LastModified, ObjectId]
    ensures Reshaped(k) == Success(["ID", "HS_CREATEDATE"])
  {
    NamesDiffer();
    SampleDrop();
    ReshapeIdOnly(k);
    SampleUpper();
  }

  /** Fresh columns that drop down to id alone reshape to ID and HS_CREATEDATE, before upper-casing. */
  lemma ReshapeIdOnly(k: seq<string>)
    requires CreateDate in k && LastModified in k && ObjectId in k
    requires CreateDateEst !in k && LastModifiedEst !in k
    requires CreateDateEstStr !in k && LastModifiedEstStr !in k
    requires Without(k, [CreateDate, LastModified, ObjectId]) == ["id"]
    ensures Reshaped(k) == Success(UpperAll(["id", CreateDate]))
  {
    NamesDiffer();
    var m := map[ContactRecordId := ContactId];
    assert "id" !in m;
    RenamedNoop(["id"], m);
    var names := Renamed(["id"], m) + [CreateDate];
    assert names == ["id", CreateDate];
    ReshapeOutput(k);
    assert Reshaped(k) == Success(UpperAll(names));
  }

  /** A batch of sample items gives the sample rows. */
  lemma SampleItems(a: int, b: int)
    ensures var items := [Item(Some(Num(a)), Some(SampleProperties)), Item(Some(Num(b)), Some(SampleProperties))];
      RowsOf(items) == Success([SampleRow(a), SampleRow(b)])
  {
    var items := [Item(Some(Num(a)), Some(SampleProperties)), Item(Some(Num(b)), Some(SampleProperties))];
    assert RowOf(items[0]) == Success(SampleRow(a));
    assert RowOf(items[1]) == Success(SampleRow(b));
    var r := RowsOf(items);
    assert r.Success? && |r.value| == 2;
    assert r.value == [SampleRow(a), SampleRow(b)];
  }

  /** The one batch [1, 3] is answered with the two sample rows. */
  lemma SampleFetch()
    ensures Chunked([1, 3], BatchSize) == [[1, 3]]
    ensures FetchFrom([[1, 3]], EchoServer, 0) == Fetch(Success([SampleRow(1), SampleRow(3)]), 1)
  {
    ChunkedShape([1, 3], BatchSize);
    assert CeilDiv(2, BatchSize) == 1;
    assert [1, 3][0..2] == [1, 3];
    var items := [Item(Some(Num(1)), Some(SampleProperties)), Item(Some(Num(3)), Some(SampleProperties))];
    var response := Respond([[1, 3]], EchoServer, 0);
    assert response.status == StatusOk && response.results.value == items;
    SampleItems(1, 3);
    assert BatchRows(response) == Success([SampleRow(1), SampleRow(3)]);
    assert FetchFrom([[1, 3]], EchoServer, 1) == Fetch(Success([]), 1);
    assert [SampleRow(1), SampleRow(3)] + [] == [SampleRow(1), SampleRow(3)];
  }

  /**
   * Listing [1, 2, 3] against a table holding "2": the one batch [1, 3] is
   * requested, two rows come back, the output columns are ID and
   * HS_CREATEDATE, and one slice with exactly those two rows is appended.
   */
  lemma SampleRun()
    ensures Sync([Page(StatusOk, Some([1, 2, 3]), Absent)], [Text("2")], EchoServer)
            == Success(Loaded(["ID", "HS_CREATEDATE"], [[SampleRow(1), SampleRow(3)]]))
  {
    var pages := [Page(StatusOk, Some([1, 2, 3]), Absent)];
    assert Walk(pages) == Success([1, 2, 3]);
    DiffExample();
    SampleFetch();
    SampleColumns();
    var rows := [SampleRow(1), SampleRow(3)];
    SampleReshape(ColumnsOf(rows));
    SampleLoad(rows);
    SyncStages(pages, [Text("2")], EchoServer, [1, 2, 3], [1, 3], rows, ["ID", "HS_CREATEDATE"]);
  }

  lemma SampleLoad(rows: seq<Dict<Value>>)
    requires |rows| == 2
    ensures Chunked(rows, ChunkSize) == [rows]
  {
    ChunkedShape(rows, ChunkSize);
    assert CeilDiv(2, ChunkSize) == 1;
    assert rows[0..2] == rows;
  }

  /** Sync once each stage's outcome is known. */
  lemma SyncStages(pages: seq<Page>, cells: seq<Value>, server: Server,
                   all: seq<int>, netNew: seq<int>, rows: seq<Dict<Value>>, columns: seq<string>)
    requires EndsWithin(pages) && Walk(pages) == Success(all) && Diff(all, cells) == Success(netNew)
    requires FetchFrom(Chunked(netNew, BatchSize), server, 0).result == Success(rows)
    requires Reshaped(ColumnsOf(rows)) == Success(columns)
    ensures Sync(pages, cells, server) == Success(Loaded(columns, Chunked(rows, ChunkSize)))
  {
  }

  /** The script, statement by statement, over the modelled stages. */
  method Run(pages: seq<Page>, cells: seq<Value>, server: Server) returns (r: Result<Loaded, RunError>)
    requires EndsWithin(pages)
    ensures r == Sync(pages, cells, server)
  {
    var all, urls := Paginate(pages);
    if all.Failure? {
      return Failure(all.error);
    }
    var netNew := Diff(all.value, cells);
    if netNew.Failure? {
      return Failure(netNew.error);
    }
    var rows, sent := FetchDetails(netNew.value, server);
    if rows.Failure? {
      return Failure(rows.error);
    }
    var frame := new Frame(rows.value);
    var out := frame.Reshape();
    if out.Fail? {
      return Failure(out.error);
    }
    var loaded, writes := Load([], frame.rows);
    r := Success(Loaded(frame.columns, writes));
  }
}
