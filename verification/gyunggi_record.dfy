/** The provincial (Gyeonggi) raw station record, the JSON key each of its
    attributes is decoded from, and the positional extraction of the head and
    the rows from the provincial response body. */
module GyunggiRecord {
  import opened OpenApi

  /** One raw provincial station (GyunggiOpenAPIBusStation). */
  datatype GyunggiBusStation = GyunggiBusStation(
    StationId: string,
    StationName: string,
    CoordinateY: real,
    CoordinateX: real,
    GpsCoordinateY: real,
    GpsCoordinateX: real,
    RinkId: string,
    StationType: string,
    TransferStationExtNo: string,
    MedianBusLaneYn: string,
    StationEnglishName: string,
    ArsId: string,
    InstitutionCode: string,
    DataDisplayYn: string,
    RegisteredBy: string,
    RegisteredAt: string,
    Memo: string,
    SignPostType: string,
    DongCode: string,
    RegionCode: string,
    UseYn: string,
    StationChineseName: string,
    StationJapaneseName: string,
    StationVietnamName: string,
    DrtYn: string,
    StationTypeName: string,
    TransferStationTypeName: string,
    SignPostTypeName: string)

  /** The zero record, which decoding yields for a JSON null row. */
  const ZeroStation := GyunggiBusStation(
    "", "", 0.0, 0.0, 0.0, 0.0, "", "", "", "", "", "", "", "",
    "", "", "", "", "", "", "", "", "", "", "", "", "", "")

  // The tag table: the JSON key each attribute is decoded from.  The keys of
  // the two GPS attributes are crossed: GPS_X_CRDNT feeds GpsCoordinateY and
  // GPS_Y_CRDNT feeds GpsCoordinateX.
  const TagStationId := "STTN_ID"
  const TagStationName := "STTN_NM"
  const TagCoordinateY := "Y_CRDNT"
  const TagCoordinateX := "X_CRDNT"
  const TagGpsCoordinateY := "GPS_X_CRDNT"
  const TagGpsCoordinateX := "GPS_Y_CRDNT"
  const TagRinkId := "RINK_ID"
  const TagStationType := "STTN_TYPE"
  const TagTransferStationExtNo := "TRANSIT_STTN_EXTNO"
  const TagMedianBusLaneYn := "CNTR_CARTRK_YN"
  const TagStationEnglishName := "STTN_ENG_NM"
  const TagArsId := "ARS_ID"
  const TagInstitutionCode := "INST_CD"
  const TagDataDisplayYn := "DATA_EXPRS_EXTNO"
  const TagRegisteredBy := "REGIST_ID"
  const TagRegisteredAt := "REGIST_DE"
  const TagMemo := "RM"
  const TagSignPostType := "SIGNPOST_TYPE"
  const TagDongCode := "ADMINIST_DONG_CD"
  const TagRegionCode := "VOLM_STATN_CD"
  const TagUseYn := "USE_DIV"
  const TagStationChineseName := "STTN_CHN_NM"
  const TagStationJapaneseName := "STTN_JPNLANG_NM"
  const TagStationVietnamName := "STTN_VIETNAM_NM"
  const TagDrtYn := "DRT_EXTNO"
  const TagStationTypeName := "STATION_TP_NM"
  const TagTransferStationTypeName := "CHNG_STATION_YN_NM"
  const TagSignPostTypeName := "MARK_TYPE_NM"

  /** Decoding of one string attribute: a missing key or a null leaves the
      zero value, a string is taken, any other JSON value is a decoding error. */
  function TextField(row: map<string, Json>, key: string): Option<string>
  {
    if key !in row then Some("")
    else match row[key]
      case JString(s) => Some(s)
      case JNull => Some("")
      case _ => None
  }

  /** Decoding of one float64 attribute, as TextField for numbers. */
  function NumberField(row: map<string, Json>, key: string): Option<real>
  {
    if key !in row then Some(0.0)
    else match row[key]
      case JNumber(n) => Some(n)
      case JNull => Some(0.0)
      case _ => None
  }

  /** Every attribute of the row decodes. */
  predicate Decodable(m: map<string, Json>)
  {
    && NumberField(m, TagCoordinateY).Some? && NumberField(m, TagCoordinateX).Some?
    && NumberField(m, TagGpsCoordinateY).Some? && NumberField(m, TagGpsCoordinateX).Some?
    && TextField(m, TagStationId).Some? && TextField(m, TagStationName).Some?
    && TextField(m, TagRinkId).Some? && TextField(m, TagStationType).Some?
    && TextField(m, TagTransferStationExtNo).Some? && TextField(m, TagMedianBusLaneYn).Some?
    && TextField(m, TagStationEnglishName).Some? && TextField(m, TagArsId).Some?
    && TextField(m, TagInstitutionCode).Some? && TextField(m, TagDataDisplayYn).Some?
    && TextField(m, TagRegisteredBy).Some? && TextField(m, TagRegisteredAt).Some?
    && TextField(m, TagMemo).Some? && TextField(m, TagSignPostType).Some?
    && TextField(m, TagDongCode).Some? && TextField(m, TagRegionCode).Some?
    && TextField(m, TagUseYn).Some? && TextField(m, TagStationChineseName).Some?
    && TextField(m, TagStationJapaneseName).Some? && TextField(m, TagStationVietnamName).Some?
    && TextField(m, TagDrtYn).Some? && TextField(m, TagStationTypeName).Some?
    && TextField(m, TagTransferStationTypeName).Some? && TextField(m, TagSignPostTypeName).Some?
  }

  function Text(m: map<string, Json>, key: string): string
  {
    match TextField(m, key)
    case Some(s) => s
    case None => ""
  }

  function Number(m: map<string, Json>, key: string): real
  {
    match NumberField(m, key)
    case Some(n) => n
    case None => 0.0
  }

  /** Decoding of one element of the `row` array through the tag table: a null
      element is the zero record, an object is decoded attribute by attribute,
      anything else is a decoding error. */
  function DecodeRow(row: Json): (decoded: Option<GyunggiBusStation>)
    ensures decoded.Some? <==> row.JNull? || (row.JObject? && Decodable(row.fields))
    ensures row.JNull? ==> decoded == Some(ZeroStation)
  {
    match row
    case JNull => Some(ZeroStation)
    case JObject(m) =>
      if !Decodable(m) then None
      else Some(GyunggiBusStation(
        Text(m, TagStationId), Text(m, TagStationName),
        Number(m, TagCoordinateY), Number(m, TagCoordinateX),
        Number(m, TagGpsCoordinateY), Number(m, TagGpsCoordinateX),
        Text(m, TagRinkId), Text(m, TagStationType), Text(m, TagTransferStationExtNo),
        Text(m, TagMedianBusLaneYn), Text(m, TagStationEnglishName), Text(m, TagArsId),
        Text(m, TagInstitutionCode), Text(m, TagDataDisplayYn), Text(m, TagRegisteredBy),
        Text(m, TagRegisteredAt), Text(m, TagMemo), Text(m, TagSignPostType),
        Text(m, TagDongCode), Text(m, TagRegionCode), Text(m, TagUseYn),
        Text(m, TagStationChineseName), Text(m, TagStationJapaneseName),
        Text(m, TagStationVietnamName), Text(m, TagDrtYn), Text(m, TagStationTypeName),
        Text(m, TagTransferStationTypeName), Text(m, TagSignPostTypeName)))
    case _ => None
  }

  /** The JSON object the service sends for a station, keyed by the tag table. */
  function EncodeRow(s: GyunggiBusStation): Json
  {
    JObject(map[
      TagStationId := JString(s.StationId),
      TagStationName := JString(s.StationName),
      TagCoordinateY := JNumber(s.CoordinateY),
      TagCoordinateX := JNumber(s.CoordinateX),
      TagGpsCoordinateY := JNumber(s.GpsCoordinateY),
      TagGpsCoordinateX := JNumber(s.GpsCoordinateX),
      TagRinkId := JString(s.RinkId),
      TagStationType := JString(s.StationType),
      TagTransferStationExtNo := JString(s.TransferStationExtNo),
      TagMedianBusLaneYn := JString(s.MedianBusLaneYn),
      TagStationEnglishName := JString(s.StationEnglishName),
      TagArsId := JString(s.ArsId),
      TagInstitutionCode := JString(s.InstitutionCode),
      TagDataDisplayYn := JString(s.DataDisplayYn),
      TagRegisteredBy := JString(s.RegisteredBy),
      TagRegisteredAt := JString(s.RegisteredAt),
      TagMemo := JString(s.Memo),
      TagSignPostType := JString(s.SignPostType),
      TagDongCode := JString(s.DongCode),
      TagRegionCode := JString(s.RegionCode),
      TagUseYn := JString(s.UseYn),
      TagStationChineseName := JString(s.StationChineseName),
      TagStationJapaneseName := JString(s.StationJapaneseName),
      TagStationVietnamName := JString(s.StationVietnamName),
      TagDrtYn := JString(s.DrtYn),
      TagStationTypeName := JString(s.StationTypeName),
      TagTransferStationTypeName := JString(s.TransferStationTypeName),
      TagSignPostTypeName := JString(s.SignPostTypeName)
    ])
  }

  /** Where EncodeRow puts the two map coordinates. */
  lemma EncodedCoordinates(s: GyunggiBusStation)
    ensures TagCoordinateY in EncodeRow(s).fields && EncodeRow(s).fields[TagCoordinateY] == JNumber(s.CoordinateY)
    ensures TagCoordinateX in EncodeRow(s).fields && EncodeRow(s).fields[TagCoordinateX] == JNumber(s.CoordinateX)
  {
  }

  /** Where EncodeRow puts the two GPS coordinates. */
  lemma EncodedGpsCoordinates(s: GyunggiBusStation)
    ensures TagGpsCoordinateY in EncodeRow(s).fields && EncodeRow(s).fields[TagGpsCoordinateY] == JNumber(s.GpsCoordinateY)
    ensures TagGpsCoordinateX in EncodeRow(s).fields && EncodeRow(s).fields[TagGpsCoordinateX] == JNumber(s.GpsCoordinateX)
  {
  }

  /** Where EncodeRow puts the first four string attributes. */
  lemma EncodedTextsA(s: GyunggiBusStation)
    ensures TagStationId in EncodeRow(s).fields && EncodeRow(s).fields[TagStationId] == JString(s.StationId)
    ensures TagStationName in EncodeRow(s).fields && EncodeRow(s).fields[TagStationName] == JString(s.StationName)
    ensures TagRinkId in EncodeRow(s).fields && EncodeRow(s).fields[TagRinkId] == JString(s.RinkId)
    ensures TagStationType in EncodeRow(s).fields && EncodeRow(s).fields[TagStationType] == JString(s.StationType)
  {
  }

  /** Where EncodeRow puts the second four string attributes. */
  lemma EncodedTextsB(s: GyunggiBusStation)
    ensures TagTransferStationExtNo in EncodeRow(s).fields && EncodeRow(s).fields[TagTransferStationExtNo] == JString(s.TransferStationExtNo)
    ensures TagMedianBusLaneYn in EncodeRow(s).fields && EncodeRow(s).fields[TagMedianBusLaneYn] == JString(s.MedianBusLaneYn)
    ensures TagStationEnglishName in EncodeRow(s).fields && EncodeRow(s).fields[TagStationEnglishName] == JString(s.StationEnglishName)
    ensures TagArsId in EncodeRow(s).fields && EncodeRow(s).fields[TagArsId] == JString(s.ArsId)
  {
  }

  /** Where EncodeRow puts the third four string attributes. */
  lemma EncodedTextsC(s: GyunggiBusStation)
    ensures TagInstitutionCode in EncodeRow(s).fields && EncodeRow(s).fields[TagInstitutionCode] == JString(s.InstitutionCode)
    ensures TagDataDisplayYn in EncodeRow(s).fields && EncodeRow(s).fields[TagDataDisplayYn] == JString(s.DataDisplayYn)
    ensures TagRegisteredBy in EncodeRow(s).fields && EncodeRow(s).fields[TagRegisteredBy] == JString(s.RegisteredBy)
    ensures TagRegisteredAt in EncodeRow(s).fields && EncodeRow(s).fields[TagRegisteredAt] == JString(s.RegisteredAt)
  {
  }

  /** Where EncodeRow puts the fourth four string attributes. */
  lemma EncodedTextsD(s: GyunggiBusStation)
    ensures TagMemo in EncodeRow(s).fields && EncodeRow(s).fields[TagMemo] == JString(s.Memo)
    ensures TagSignPostType in EncodeRow(s).fields && EncodeRow(s).fields[TagSignPostType] == JString(s.SignPostType)
    ensures TagDongCode in EncodeRow(s).fields && EncodeRow(s).fields[TagDongCode] == JString(s.DongCode)
    ensures TagRegionCode in EncodeRow(s).fields && EncodeRow(s).fields[TagRegionCode] == JString(s.RegionCode)
  {
  }

  /** Where EncodeRow puts the fifth four string attributes. */
  lemma EncodedTextsE(s: GyunggiBusStation)
    ensures TagUseYn in EncodeRow(s).fields && EncodeRow(s).fields[TagUseYn] == JString(s.UseYn)
    ensures TagStationChineseName in EncodeRow(s).fields && EncodeRow(s).fields[TagStationChineseName] == JString(s.StationChineseName)
    ensures TagStationJapaneseName in EncodeRow(s).fields && EncodeRow(s).fields[TagStationJapaneseName] == JString(s.StationJapaneseName)
    ensures TagStationVietnamName in EncodeRow(s).fields && EncodeRow(s).fields[TagStationVietnamName] == JString(s.StationVietnamName)
  {
  }

  /** Where EncodeRow puts the last four string attributes. */
  lemma EncodedTextsF(s: GyunggiBusStation)
    ensures TagDrtYn in EncodeRow(s).fields && EncodeRow(s).fields[TagDrtYn] == JString(s.DrtYn)
    ensures TagStationTypeName in EncodeRow(s).fields && EncodeRow(s).fields[TagStationTypeName] == JString(s.StationTypeName)
    ensures TagTransferStationTypeName in EncodeRow(s).fields && EncodeRow(s).fields[TagTransferStationTypeName] == JString(s.TransferStationTypeName)
    ensures TagSignPostTypeName in EncodeRow(s).fields && EncodeRow(s).fields[TagSignPostTypeName] == JString(s.SignPostTypeName)
  {
  }

  /** A string stored under `key` is what TextField decodes there. */
  lemma TextAt(m: map<string, Json>, key: string, v: string)
    requires key in m && m[key] == JString(v)
    ensures TextField(m, key) == Some(v) && Text(m, key) == v
  {
  }

  /** A number stored under `key` is what NumberField decodes there. */
  lemma NumberAt(m: map<string, Json>, key: string, v: real)
    requires key in m && m[key] == JNumber(v)
    ensures NumberField(m, key) == Some(v) && Number(m, key) == v
  {
  }

  /** An object holding every attribute of `s` under its tag decodes to `s`. */
  lemma DecodeTaggedObject(m: map<string, Json>, s: GyunggiBusStation)
    requires TagStationId in m && m[TagStationId] == JString(s.StationId)
    requires TagStationName in m && m[TagStationName] == JString(s.StationName)
    requires TagCoordinateY in m && m[TagCoordinateY] == JNumber(s.CoordinateY)
    requires TagCoordinateX in m && m[TagCoordinateX] == JNumber(s.CoordinateX)
    requires TagGpsCoordinateY in m && m[TagGpsCoordinateY] == JNumber(s.GpsCoordinateY)
    requires TagGpsCoordinateX in m && m[TagGpsCoordinateX] == JNumber(s.GpsCoordinateX)
    requires TagRinkId in m && m[TagRinkId] == JString(s.RinkId)
    requires TagStationType in m && m[TagStationType] == JString(s.StationType)
    requires TagTransferStationExtNo in m && m[TagTransferStationExtNo] == JString(s.TransferStationExtNo)
    requires TagMedianBusLaneYn in m && m[TagMedianBusLaneYn] == JString(s.MedianBusLaneYn)
    requires TagStationEnglishName in m && m[TagStationEnglishName] == JString(s.StationEnglishName)
    requires TagArsId in m && m[TagArsId] == JString(s.ArsId)
    requires TagInstitutionCode in m && m[TagInstitutionCode] == JString(s.InstitutionCode)
    requires TagDataDisplayYn in m && m[TagDataDisplayYn] == JString(s.DataDisplayYn)
    requires TagRegisteredBy in m && m[TagRegisteredBy] == JString(s.RegisteredBy)
    requires TagRegisteredAt in m && m[TagRegisteredAt] == JString(s.RegisteredAt)
    requires TagMemo in m && m[TagMemo] == JString(s.Memo)
    requires TagSignPostType in m && m[TagSignPostType] == JString(s.SignPostType)
    requires TagDongCode in m && m[TagDongCode] == JString(s.DongCode)
    requires TagRegionCode in m && m[TagRegionCode] == JString(s.RegionCode)
    requires TagUseYn in m && m[TagUseYn] == JString(s.UseYn)
    requires TagStationChineseName in m && m[TagStationChineseName] == JString(s.StationChineseName)
    requires TagStationJapaneseName in m && m[TagStationJapaneseName] == JString(s.StationJapaneseName)
    requires TagStationVietnamName in m && m[TagStationVietnamName] == JString(s.StationVietnamName)
    requires TagDrtYn in m && m[TagDrtYn] == JString(s.DrtYn)
    requires TagStationTypeName in m && m[TagStationTypeName] == JString(s.StationTypeName)
    requires TagTransferStationTypeName in m && m[TagTransferStationTypeName] == JString(s.TransferStationTypeName)
    requires TagSignPostTypeName in m && m[TagSignPostTypeName] == JString(s.SignPostTypeName)
    ensures DecodeRow(JObject(m)) == Some(s)
  {
    TextAt(m, TagStationId, s.StationId);
    TextAt(m, TagStationName, s.StationName);
    NumberAt(m, TagCoordinateY, s.CoordinateY);
    NumberAt(m, TagCoordinateX, s.CoordinateX);
    NumberAt(m, TagGpsCoordinateY, s.GpsCoordinateY);
    NumberAt(m, TagGpsCoordinateX, s.GpsCoordinateX);
    TextAt(m, TagRinkId, s.RinkId);
    TextAt(m, TagStationType, s.StationType);
    TextAt(m, TagTransferStationExtNo, s.TransferStationExtNo);
    TextAt(m, TagMedianBusLaneYn, s.MedianBusLaneYn);
    TextAt(m, TagStationEnglishName, s.StationEnglishName);
    TextAt(m, TagArsId, s.ArsId);
    TextAt(m, TagInstitutionCode, s.InstitutionCode);
    TextAt(m, TagDataDisplayYn, s.DataDisplayYn);
    TextAt(m, TagRegisteredBy, s.RegisteredBy);
    TextAt(m, TagRegisteredAt, s.RegisteredAt);
    TextAt(m, TagMemo, s.Memo);
    TextAt(m, TagSignPostType, s.SignPostType);
    TextAt(m, TagDongCode, s.DongCode);
    TextAt(m, TagRegionCode, s.RegionCode);
    TextAt(m, TagUseYn, s.UseYn);
    TextAt(m, TagStationChineseName, s.StationChineseName);
    TextAt(m, TagStationJapaneseName, s.StationJapaneseName);
    TextAt(m, TagStationVietnamName, s.StationVietnamName);
    TextAt(m, TagDrtYn, s.DrtYn);
    TextAt(m, TagStationTypeName, s.StationTypeName);
    TextAt(m, TagTransferStationTypeName, s.TransferStationTypeName);
    TextAt(m, TagSignPostTypeName, s.SignPostTypeName);
    assert Decodable(m);
  }

  /** The tag table is injective: decoding the object sent for a station gives
      back that station, every attribute from its own key. */
  lemma DecodeEncodedRow(s: GyunggiBusStation)
    ensures DecodeRow(EncodeRow(s)) == Some(s)
  {
    EncodedCoordinates(s);
    EncodedGpsCoordinates(s);
    EncodedTextsA(s);
    EncodedTextsB(s);
    EncodedTextsC(s);
    EncodedTextsD(s);
    EncodedTextsE(s);
    EncodedTextsF(s);
    DecodeTaggedObject(EncodeRow(s).fields, s);
  }

  /** The crossed GPS keys: a decoded row's GpsCoordinateY is the number sent
      under GPS_X_CRDNT and its GpsCoordinateX the one under GPS_Y_CRDNT. */
  lemma GpsKeysCrossed(m: map<string, Json>, x: real, y: real)
    requires "GPS_X_CRDNT" in m && m["GPS_X_CRDNT"] == JNumber(x)
    requires "GPS_Y_CRDNT" in m && m["GPS_Y_CRDNT"] == JNumber(y)
    requires DecodeRow(JObject(m)).Some?
    ensures DecodeRow(JObject(m)).value.GpsCoordinateY == x
    ensures DecodeRow(JObject(m)).value.GpsCoordinateX == y
  {
  }

  /** Decoding of the whole `row` array: it fails as soon as one element fails. */
  function DecodeRows(rows: seq<Json>): (decoded: Option<seq<GyunggiBusStation>>)
    ensures decoded.Some? <==> forall i :: 0 <= i < |rows| ==> DecodeRow(rows[i]).Some?
    ensures decoded.Some? ==> |decoded.value| == |rows|
    ensures decoded.Some? ==> forall i :: 0 <= i < |rows| ==> DecodeRow(rows[i]) == Some(decoded.value[i])
  {
    if rows == [] then Some([])
    else match (DecodeRow(rows[0]), DecodeRows(rows[1..]))
      case (Some(first), Some(rest)) => Some([first] + rest)
      case _ => None
  }

  function EncodeRows(stations: seq<GyunggiBusStation>): (rows: seq<Json>)
    ensures |rows| == |stations|
    ensures forall i :: 0 <= i < |stations| ==> rows[i] == EncodeRow(stations[i])
  {
    seq(|stations|, i requires 0 <= i < |stations| => EncodeRow(stations[i]))
  }

  lemma {:induction false} DecodeRowsOf(rows: seq<Json>, stations: seq<GyunggiBusStation>)
    requires |rows| == |stations|
    requires forall i :: 0 <= i < |rows| ==> DecodeRow(rows[i]) == Some(stations[i])
    ensures DecodeRows(rows) == Some(stations)
  {
    if rows != [] {
      assert DecodeRow(rows[0]) == Some(stations[0]);
      assert forall i :: 0 <= i < |rows[1..]| ==> DecodeRow(rows[1..][i]) == Some(stations[1..][i]);
      DecodeRowsOf(rows[1..], stations[1..]);
      assert stations == [stations[0]] + stations[1..];
    }
  }

  lemma DecodeEncodedRows(stations: seq<GyunggiBusStation>)
    ensures DecodeRows(EncodeRows(stations)) == Some(stations)
  {
    var rows := EncodeRows(stations);
    forall i | 0 <= i < |stations| ensures DecodeRow(rows[i]) == Some(stations[i]) {
      DecodeEncodedRow(stations[i]);
    }
    DecodeRowsOf(rows, stations);
  }

  /** The decoded provincial body: the TBBMSSTATIONM list, element 0 carrying
      the head and element 1 the rows. */
  datatype GyunggiResponse = GyunggiResponse(TBBMSSTATIONM: seq<Json>)

  /** What the head of a provincial response holds. */
  datatype GyunggiHead = GyunggiHead(TotalCount: int, ResultCode: ResultCode, ApiVersion: string)

  /** Go's int(f) for a float64 f: truncation toward zero. */
  function TruncateToInt(x: real): (n: int)
    ensures 0.0 <= x ==> n as real <= x < n as real + 1.0
    ensures x < 0.0 ==> n as real - 1.0 < x <= n as real
  {
    if 0.0 <= x then x.Floor else -((-x).Floor)
  }

  /** `v.(map[string]interface{})[key]` followed by a type assertion on the
      member: None when v is not an object or the key is missing (the later
      assertion on a nil member fails as well). */
  function Member(v: Json, key: string): Option<Json>
  {
    if v.JObject? && key in v.fields then Some(v.fields[key]) else None
  }

  /** Positional extraction of the head: list_total_count from head[0],
      RESULT.CODE and RESULT.MESSAGE from head[1], api_version from head[2],
      head being the `head` array of element 0.  Every other shape is a failed
      type assertion or index, that is a panic, here None. */
  function ExtractHead(response: GyunggiResponse): (head: Option<GyunggiHead>)
    ensures head.Some? ==>
      && |response.TBBMSSTATIONM| > 0
      && Member(response.TBBMSSTATIONM[0], "head").Some?
      && Member(response.TBBMSSTATIONM[0], "head").value.JArray?
      && |Member(response.TBBMSSTATIONM[0], "head").value.items| >= 3
  {
    var items := response.TBBMSSTATIONM;
    var head := if |items| == 0 then None else Member(items[0], "head");
    if !(head.Some? && head.value.JArray? && |head.value.items| >= 3) then None
    else
      var heads := head.value.items;
      var count := Member(heads[0], "list_total_count");
      var result := Member(heads[1], "RESULT");
      var code := if result.Some? then Member(result.value, "CODE") else None;
      var message := if result.Some? then Member(result.value, "MESSAGE") else None;
      var version := Member(heads[2], "api_version");
      if && count.Some? && count.value.JNumber?
         && code.Some? && code.value.JString?
         && message.Some? && message.value.JString?
         && version.Some? && version.value.JString?
      then Some(GyunggiHead(
        TruncateToInt(count.value.n),
        ResultCode(code.value.s, message.value.s),
        version.value.s))
      else None
  }

  /** Where an extracted head comes from: head[0].list_total_count (a number,
      truncated), head[1].RESULT.CODE and .MESSAGE, head[2].api_version. */
  lemma ExtractHeadPositions(response: GyunggiResponse)
    requires ExtractHead(response).Some?
    ensures var h := ExtractHead(response).value;
      var heads := Member(response.TBBMSSTATIONM[0], "head").value.items;
      && (exists n :: Member(heads[0], "list_total_count") == Some(JNumber(n)) && h.TotalCount == TruncateToInt(n))
      && Member(heads[1], "RESULT").Some?
      && Member(Member(heads[1], "RESULT").value, "CODE") == Some(JString(h.ResultCode.code))
      && Member(Member(heads[1], "RESULT").value, "MESSAGE") == Some(JString(h.ResultCode.message))
      && Member(heads[2], "api_version") == Some(JString(h.ApiVersion))
  {
    var heads := Member(response.TBBMSSTATIONM[0], "head").value.items;
    var count := Member(heads[0], "list_total_count");
    assert count == Some(JNumber(count.value.n));
  }

  /** Extraction of the rows: the `row` array of element 1, decoded through the
      tag table (mapstructure.Decode); a missing element, a wrong shape or a
      decoding error is a panic, here None. */
  function ExtractRows(response: GyunggiResponse): (rows: Option<seq<GyunggiBusStation>>)
    ensures rows.Some? ==>
      && |response.TBBMSSTATIONM| >= 2
      && Member(response.TBBMSSTATIONM[1], "row").Some?
      && Member(response.TBBMSSTATIONM[1], "row").value.JArray?
      && var elements := Member(response.TBBMSSTATIONM[1], "row").value.items;
         && |rows.value| == |elements|
         && forall i :: 0 <= i < |elements| ==> DecodeRow(elements[i]) == Some(rows.value[i])
    ensures (&& |response.TBBMSSTATIONM| >= 2
             && Member(response.TBBMSSTATIONM[1], "row").Some?
             && Member(response.TBBMSSTATIONM[1], "row").value.JArray?
             && forall e :: e in Member(response.TBBMSSTATIONM[1], "row").value.items ==> DecodeRow(e).Some?)
            ==> rows.Some?
  {
    var items := response.TBBMSSTATIONM;
    if |items| < 2 then None
    else
      var rows := Member(items[1], "row");
      if rows.Some? && rows.value.JArray? then DecodeRows(rows.value.items) else None
  }

  /** The body the service sends for a page with head `h` and rows `stations`. */
  function EncodeResponse(h: GyunggiHead, stations: seq<GyunggiBusStation>): GyunggiResponse
  {
    var headList := [
      JObject(map["list_total_count" := JNumber(h.TotalCount as real)]),
      JObject(map["RESULT" := JObject(map["CODE" := JString(h.ResultCode.code), "MESSAGE" := JString(h.ResultCode.message)])]),
      JObject(map["api_version" := JString(h.ApiVersion)])];
    GyunggiResponse([JObject(map["head" := JArray(headList)]), JObject(map["row" := JArray(EncodeRows(stations))])])
  }

  /** The head is recovered from the body that carries it, whatever the rows. */
  lemma ExtractEncodedHead(h: GyunggiHead, stations: seq<GyunggiBusStation>)
    ensures ExtractHead(EncodeResponse(h, stations)) == Some(h)
  {
    var items := EncodeResponse(h, stations).TBBMSSTATIONM;
    assert Member(items[0], "head").Some?;
  }

  /** The rows are recovered from the body that carries them. */
  lemma ExtractEncodedRows(h: GyunggiHead, stations: seq<GyunggiBusStation>)
    ensures ExtractRows(EncodeResponse(h, stations)) == Some(stations)
  {
    var items := EncodeResponse(h, stations).TBBMSSTATIONM;
    assert Member(items[1], "row") == Some(JArray(EncodeRows(stations)));
    DecodeEncodedRows(stations);
  }
}
