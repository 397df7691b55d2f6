/**
 * The backfill script: for each monthly chunk, fetch the CDO data with the
 * retry loop and, when the response carries a non-empty `results` list,
 * process it and append the two tables to `all_station_data` and
 * `all_statewide_data`; otherwise skip the chunk.
 *
 * The network is a parameter: `net(q)(i)` is what the i-th HTTP call made
 * for query `q` yields.
 */
module Driver {
  import opened Wrappers
  import opened Calendar
  import opened Fetcher
  import opened Normalize

  /** The parsed JSON object of a CDO response: its `results` list, `None` when the key is missing. */
  datatype Body = Body(results: Option<seq<Observation>>)

  /** The query parameters of one chunk's request. */
  datatype Request = Request(datasetId: string, locationId: string, startDate: Date, endDate: Date,
                             dataTypeIds: seq<string>, units: string, limit: nat)

  type Network = Request -> nat -> Outcome<Body>

  const DatasetId: string := "GHCND"
  const LocationId: string := "FIPS:06"

  /** The `params` that `fetch_cdo_historical_data` sends: five datatypes, metric units, at most 1000 records. */
  function CdoRequest(datasetId: string, locationId: string, startDate: Date, endDate: Date): Request {
    Request(datasetId, locationId, startDate, endDate, ["TMAX", "TMIN", "PRCP", "AWND", "RHUM"], "metric", 1000)
  }

  /** `fetch_cdo_historical_data`: the retry loop with its defaults, five attempts and backoff factor 2. */
  method FetchCdoHistoricalData(net: Network, datasetId: string, locationId: string, startDate: Date, endDate: Date)
    returns (data: Option<Body>)
    ensures data == Fetch(net(CdoRequest(datasetId, locationId, startDate, endDate)), 5, 2).result
  {
    var response, attempts, sleeps := FetchWithRetries(net(CdoRequest(datasetId, locationId, startDate, endDate)), 5, 2);
    data := response;
  }

  /** `chunk_data and "results" in chunk_data and chunk_data["results"]`. */
  predicate HasResults(chunkData: Option<Body>) {
    chunkData.Some? && chunkData.value.results.Some? && chunkData.value.results.value != []
  }

  /** The `results` list of a response that has one. */
  function Results(chunkData: Option<Body>): seq<Observation>
    requires HasResults(chunkData)
  {
    chunkData.value.results.value
  }

  /** What the fetch of a chunk returns. */
  function ChunkResponse(net: Network, chunk: (Date, Date)): Option<Body> {
    Fetch(net(CdoRequest(DatasetId, LocationId, chunk.0, chunk.1)), 5, 2).result
  }

  /** The `results` lists of the chunks that had one, in chunk order: what the driver processes. */
  function Collected(net: Network, chunks: seq<(Date, Date)>): seq<seq<Observation>>
    decreases |chunks|
  {
    if chunks == [] then []
    else
      var response := ChunkResponse(net, chunks[|chunks| - 1]);
      Collected(net, chunks[..|chunks| - 1]) + (if HasResults(response) then [Results(response)] else [])
  }

  /** The chunk loop, returning `all_station_data` and `all_statewide_data`. */
  method Accumulate(net: Network, chunks: seq<(Date, Date)>)
    returns (allStationData: seq<StationTable>, allStatewideData: seq<StatewideTable>)
    ensures |allStationData| == |allStatewideData| == |Collected(net, chunks)|
    ensures forall j :: 0 <= j < |allStationData| ==>
      ProcessData(Collected(net, chunks)[j]) == (allStationData[j], allStatewideData[j])
  {
    allStationData, allStatewideData := [], [];
    for i := 0 to |chunks|
      invariant |allStationData| == |allStatewideData| == |Collected(net, chunks[..i])|
      invariant forall j :: 0 <= j < |allStationData| ==>
        ProcessData(Collected(net, chunks[..i])[j]) == (allStationData[j], allStatewideData[j])
    {
      var (startDate, endDate) := chunks[i];
      var chunkData := FetchCdoHistoricalData(net, DatasetId, LocationId, startDate, endDate);
      assert chunks[..i + 1][..i] == chunks[..i];
      if chunkData.Some? && chunkData.value.results.Some? && chunkData.value.results.value != [] {
        var (stationData, statewideData) := ProcessData(chunkData.value.results.value);
        allStationData := allStationData + [stationData];
        allStatewideData := allStatewideData + [statewideData];
      }
    }
    assert chunks[..|chunks|] == chunks;
  }

  /** The whole script: the chunk loop over the January 2023 to November 2024 schedule. */
  method Backfill(net: Network) returns (allStationData: seq<StationTable>, allStatewideData: seq<StatewideTable>)
    ensures |allStationData| == |allStatewideData| == |Collected(net, ChunkPairs())|
    ensures forall j :: 0 <= j < |allStationData| ==>
      ProcessData(Collected(net, ChunkPairs())[j]) == (allStationData[j], allStatewideData[j])
  {
    allStationData, allStatewideData := Accumulate(net, ChunkPairs());
  }

  /** At most one results list, and so one pair of tables, per chunk. */
  lemma {:induction false} CollectedBounded(net: Network, chunks: seq<(Date, Date)>)
    ensures |Collected(net, chunks)| <= |chunks|
    decreases |chunks|
  {
    if chunks != [] {
      CollectedBounded(net, chunks[..|chunks| - 1]);
    }
  }

  /** Chunks are processed independently and in order: a later batch of chunks only appends. */
  lemma {:induction false} CollectedAppend(net: Network, xs: seq<(Date, Date)>, ys: seq<(Date, Date)>)
    ensures Collected(net, xs + ys) == Collected(net, xs) + Collected(net, ys)
    decreases |ys|
  {
    if ys == [] {
      assert xs + ys == xs;
    } else {
      var init := ys[..|ys| - 1];
      assert (xs + ys)[..|xs + ys| - 1] == xs + init;
      CollectedAppend(net, xs, init);
    }
  }

  /** A chunk without results is skipped; a chunk with results adds its list, whose tables the loop appends. */
  lemma ChunkStep(net: Network, chunks: seq<(Date, Date)>, chunk: (Date, Date))
    ensures !HasResults(ChunkResponse(net, chunk)) ==> Collected(net, chunks + [chunk]) == Collected(net, chunks)
    ensures HasResults(ChunkResponse(net, chunk)) ==>
      Collected(net, chunks + [chunk]) == Collected(net, chunks) + [Results(ChunkResponse(net, chunk))]
  {
    assert (chunks + [chunk])[..|chunks|] == chunks;
  }

  /** When every chunk returns results, the j-th tables are those of the j-th chunk. */
  lemma {:induction false} CollectedAll(net: Network, chunks: seq<(Date, Date)>)
    requires forall i :: 0 <= i < |chunks| ==> HasResults(ChunkResponse(net, chunks[i]))
    ensures |Collected(net, chunks)| == |chunks|
    ensures forall j :: 0 <= j < |chunks| ==>
      Collected(net, chunks)[j] == Results(ChunkResponse(net, chunks[j]))
    decreases |chunks|
  {
    if chunks != [] {
      var init := chunks[..|chunks| - 1];
      CollectedAll(net, init);
      forall j | 0 <= j < |chunks|
        ensures Collected(net, chunks)[j] == Results(ChunkResponse(net, chunks[j]))
      {
        if j < |init| {
          assert chunks[j] == init[j];
        }
      }
    }
  }

  /** When no chunk returns results, nothing is collected. */
  lemma {:induction false} CollectedNone(net: Network, chunks: seq<(Date, Date)>)
    requires forall i :: 0 <= i < |chunks| ==> !HasResults(ChunkResponse(net, chunks[i]))
    ensures Collected(net, chunks) == []
    decreases |chunks|
  {
    if chunks != [] {
      CollectedNone(net, chunks[..|chunks| - 1]);
    }
  }

  /**
   * Two chunks: the first answers 200 with observations at once, the second
   * answers 503 to every attempt. Only the first chunk's tables are
   * collected; the second is skipped after five attempts.
   */
  lemma SecondChunkExhausted(net: Network, first: (Date, Date), second: (Date, Date), obs: seq<Observation>, busy: Body)
    requires obs != []
    requires net(CdoRequest(DatasetId, LocationId, first.0, first.1))(0) == Reply(200, Body(Some(obs)))
    requires forall j :: 0 <= j < 5 ==> net(CdoRequest(DatasetId, LocationId, second.0, second.1))(j) == Reply(503, busy)
    ensures Collected(net, [first, second]) == [obs]
  {
    FetchReturnsFirstOk(net(CdoRequest(DatasetId, LocationId, first.0, first.1)), 0, 5, 2);
    FetchExhausted(net(CdoRequest(DatasetId, LocationId, second.0, second.1)), 5, 2);
    ChunkStep(net, [first], second);
    ChunkStep(net, [], first);
    assert [first, second] == [first] + [second];
    assert [first] == [] + [first];
  }
}
