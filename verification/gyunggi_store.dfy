/** Writing provincial records to the station store (InsertGyunggiBusStations). */
module GyunggiStore {
  import opened OpenApi
  import opened GyunggiRecord

  /** The 28 arguments of one CreateBusStations call, in the order the call
      passes them: note CoordinateX before CoordinateY and GpsCoordinateX
      before GpsCoordinateY, the reverse of the record's field order. */
  function GyunggiStoreArgs(s: GyunggiBusStation): (args: seq<StoreValue>)
    ensures |args| == 28
  {
    [ TextArg(s.StationId), TextArg(s.StationName),
      NumberArg(s.CoordinateX), NumberArg(s.CoordinateY),
      NumberArg(s.GpsCoordinateX), NumberArg(s.GpsCoordinateY),
      TextArg(s.RinkId), TextArg(s.StationType), TextArg(s.TransferStationExtNo),
      TextArg(s.MedianBusLaneYn), TextArg(s.StationEnglishName), TextArg(s.ArsId),
      TextArg(s.InstitutionCode), TextArg(s.DataDisplayYn), TextArg(s.RegisteredBy),
      TextArg(s.RegisteredAt), TextArg(s.Memo), TextArg(s.SignPostType),
      TextArg(s.DongCode), TextArg(s.RegionCode), TextArg(s.UseYn),
      TextArg(s.StationChineseName), TextArg(s.StationJapaneseName),
      TextArg(s.StationVietnamName), TextArg(s.DrtYn), TextArg(s.StationTypeName),
      TextArg(s.TransferStationTypeName), TextArg(s.SignPostTypeName) ]
  }

  /** The positions of the numeric arguments. */
  predicate IsNumberPosition(i: int) { 2 <= i < 6 }

  /** Argument lists of the shape CreateBusStations receives. */
  predicate WellShaped(args: seq<StoreValue>)
  {
    |args| == 28 && forall i :: 0 <= i < 28 ==> (args[i].NumberArg? <==> IsNumberPosition(i))
  }

  /** The record an argument list stands for: the store side's reading of a call. */
  function FromGyunggiStoreArgs(args: seq<StoreValue>): Option<GyunggiBusStation>
  {
    if !WellShaped(args) then None
    else Some(GyunggiBusStation(
      args[0].text, args[1].text,
      args[3].number, args[2].number, args[5].number, args[4].number,
      args[6].text, args[7].text, args[8].text, args[9].text, args[10].text,
      args[11].text, args[12].text, args[13].text, args[14].text, args[15].text,
      args[16].text, args[17].text, args[18].text, args[19].text, args[20].text,
      args[21].text, args[22].text, args[23].text, args[24].text, args[25].text,
      args[26].text, args[27].text))
  }

  /** Every attribute of the record reaches the store, each in its own
      argument: the record can be read back from the call. */
  lemma GyunggiStoreArgsRoundTrip(s: GyunggiBusStation)
    ensures WellShaped(GyunggiStoreArgs(s))
    ensures FromGyunggiStoreArgs(GyunggiStoreArgs(s)) == Some(s)
  {
    var args := GyunggiStoreArgs(s);
    assert forall i :: 0 <= i < 28 ==> (args[i].NumberArg? <==> IsNumberPosition(i));
  }

  /** The calls that writing every record makes, one per record. */
  function GyunggiStoreRows(stations: seq<GyunggiBusStation>): (rows: seq<seq<StoreValue>>)
    ensures |rows| == |stations|
    ensures forall i :: 0 <= i < |stations| ==> rows[i] == GyunggiStoreArgs(stations[i])
  {
    seq(|stations|, i requires 0 <= i < |stations| => GyunggiStoreArgs(stations[i]))
  }

  /** InsertGyunggiBusStations: one CreateBusStations call per record, in
      order, returning the first error.  `calls` are the calls made. */
  method InsertGyunggiBusStations(stations: seq<GyunggiBusStation>, store: Store)
    returns (err: Option<StoreError>, calls: seq<seq<StoreValue>>)
    ensures StoredInOrder(GyunggiStoreRows(stations), store, calls, err)
  {
    ghost var rows := GyunggiStoreRows(stations);
    calls := [];
    for i := 0 to |stations|
      invariant calls == rows[..i]
      invariant forall n :: 1 <= n <= i ==> store(rows[..n]).None?
    {
      calls := calls + [GyunggiStoreArgs(stations[i])];
      assert calls == rows[..i + 1];
      err := store(calls);
      if err.Some? {
        assert i + 1 == |rows| ==> calls == rows;
        return;
      }
    }
    assert rows[..|stations|] == rows;
    err := None;
  }
}
