/** The metropolitan (Seoul) station record, its standard form and writing it
    to the station store. */
module Seoul {
  import opened OpenApi

  /** One metropolitan station (SeoulOpenAPIBusStation).  CRDNT_X is the
      longitude and CRDNT_Y the latitude. */
  datatype SeoulBusStation = SeoulBusStation(
    STTN_ID: string,
    STTN_NM: string,
    STTN_TYPE: string,
    STTN_NO: string,
    CRDNT_X: real,
    CRDNT_Y: real,
    BUSINFO_FCLT_INSTL_YN: string)

  /** The decoded success body (TbisMasterStation inside the response). */
  datatype TbisMasterStation = TbisMasterStation(
    List_total_count: int,
    Result: ResultCode,
    Row: seq<SeoulBusStation>)

  // ---------------------------------------------------------------------
  // Standardisation.

  /** ToBusStation: STTN_NO becomes the ArsId, CRDNT_Y the latitude and
      CRDNT_X the longitude; the other attributes are not carried over. */
  function ToBusStation(s: SeoulBusStation): (r: StandardBusStation)
    ensures r.StationName == s.STTN_NM && r.StationId == s.STTN_ID && r.ArsId == s.STTN_NO
    ensures r.Latitude == s.CRDNT_Y && r.Longitude == s.CRDNT_X
  {
    StandardBusStation(s.STTN_NM, s.STTN_ID, s.STTN_NO, s.CRDNT_Y, s.CRDNT_X)
  }

  /** The record a standard station and the two attributes the standard form
      drops stand for. */
  function FromBusStation(r: StandardBusStation, stationType: string, installed: string): SeoulBusStation
  {
    SeoulBusStation(r.StationId, r.StationName, stationType, r.ArsId, r.Longitude, r.Latitude, installed)
  }

  /** The standard form loses exactly STTN_TYPE and BUSINFO_FCLT_INSTL_YN:
      with those two, the record is recovered, coordinates unswapped. */
  lemma ToBusStationRoundTrip(s: SeoulBusStation)
    ensures FromBusStation(ToBusStation(s), s.STTN_TYPE, s.BUSINFO_FCLT_INSTL_YN) == s
    ensures ToBusStation(FromBusStation(ToBusStation(s), "", "")) == ToBusStation(s)
  {
  }

  /** ConvertSeoulBusStationsToStandard: every record, none filtered, each
      mapped to its standard form in order.  Its error result is always nil,
      so the model has no error channel. */
  method ConvertSeoulBusStationsToStandard(stations: seq<SeoulBusStation>)
    returns (busStations: seq<StandardBusStation>)
    ensures |busStations| == |stations|
    ensures forall i :: 0 <= i < |stations| ==>
      && busStations[i].StationId == stations[i].STTN_ID
      && busStations[i].StationName == stations[i].STTN_NM
      && busStations[i].ArsId == stations[i].STTN_NO
      && busStations[i].Latitude == stations[i].CRDNT_Y
      && busStations[i].Longitude == stations[i].CRDNT_X
  {
    busStations := [];
    for i := 0 to |stations|
      invariant |busStations| == i
      invariant forall j :: 0 <= j < i ==> busStations[j] == ToBusStation(stations[j])
    {
      busStations := busStations + [ToBusStation(stations[i])];
    }
  }

  // ---------------------------------------------------------------------
  // Store.

  /** The 7 arguments of one CreateBusStations call, in the record's order. */
  function SeoulStoreArgs(s: SeoulBusStation): (args: seq<StoreValue>)
    ensures |args| == 7
  {
    [ TextArg(s.STTN_ID), TextArg(s.STTN_NM), TextArg(s.STTN_TYPE), TextArg(s.STTN_NO),
      NumberArg(s.CRDNT_X), NumberArg(s.CRDNT_Y), TextArg(s.BUSINFO_FCLT_INSTL_YN) ]
  }

  /** Argument lists of the shape CreateBusStations receives. */
  predicate WellShaped(args: seq<StoreValue>)
  {
    |args| == 7 && forall i :: 0 <= i < 7 ==> (args[i].NumberArg? <==> i == 4 || i == 5)
  }

  /** The record an argument list stands for: the store side's reading of a call. */
  function FromSeoulStoreArgs(args: seq<StoreValue>): Option<SeoulBusStation>
  {
    if !WellShaped(args) then None
    else Some(SeoulBusStation(args[0].text, args[1].text, args[2].text, args[3].text,
                              args[4].number, args[5].number, args[6].text))
  }

  /** Every attribute of the record reaches the store in its own argument. */
  lemma SeoulStoreArgsRoundTrip(s: SeoulBusStation)
    ensures WellShaped(SeoulStoreArgs(s))
    ensures FromSeoulStoreArgs(SeoulStoreArgs(s)) == Some(s)
  {
    var args := SeoulStoreArgs(s);
    assert forall i :: 0 <= i < 7 ==> (args[i].NumberArg? <==> i == 4 || i == 5);
  }

  /** The calls that writing every record makes, one per record. */
  function SeoulStoreRows(stations: seq<SeoulBusStation>): (rows: seq<seq<StoreValue>>)
    ensures |rows| == |stations|
    ensures forall i :: 0 <= i < |stations| ==> rows[i] == SeoulStoreArgs(stations[i])
  {
    seq(|stations|, i requires 0 <= i < |stations| => SeoulStoreArgs(stations[i]))
  }

  /** InsertSeoulBusStations: one CreateBusStations call per record, in order,
      returning the first error.  `calls` are the calls made. */
  method InsertSeoulBusStations(stations: seq<SeoulBusStation>, store: Store)
    returns (err: Option<StoreError>, calls: seq<seq<StoreValue>>)
    ensures StoredInOrder(SeoulStoreRows(stations), store, calls, err)
  {
    ghost var rows := SeoulStoreRows(stations);
    calls := [];
    for i := 0 to |stations|
      invariant calls == rows[..i]
      invariant forall n :: 1 <= n <= i ==> store(rows[..n]).None?
    {
      calls := calls + [SeoulStoreArgs(stations[i])];
      assert calls == rows[..i + 1];
      err := store(calls);
      if err.Some? {
        assert i + 1 == |rows| ==> calls == rows;
        return;
      }
    }
    assert rows[..|stations|] == rows;
    err := None;
  }
}
