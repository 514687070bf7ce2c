/** Standardisation of the provincial records: the normalisation of the
    rider-facing code (ArsId), the correction pass (three filters and the
    coordinate reprojection) and the mapping to the standard record. */
module GyunggiStandard {
  import opened OpenApi
  import opened GyunggiRecord

  // ---------------------------------------------------------------------
  // ArsId normalisation: the first match of the regular expression [0-9]+.

  predicate IsDigit(c: char) { '0' <= c <= '9' }

  predicate AllDigits(s: string) { forall i :: 0 <= i < |s| ==> IsDigit(s[i]) }

  predicate HasDigit(s: string) { exists i :: 0 <= i < |s| && IsDigit(s[i]) }

  /** The longest prefix of `s` made of digits. */
  function LeadingDigits(s: string): (d: string)
    ensures d <= s && AllDigits(d)
    ensures |d| < |s| ==> !IsDigit(s[|d|])
    ensures |s| > 0 && IsDigit(s[0]) ==> |d| > 0
  {
    if |s| == 0 || !IsDigit(s[0]) then [] else [s[0]] + LeadingDigits(s[1..])
  }

  /** The index of the first digit of `s`; |s| when it has none. */
  function FirstDigitIndex(s: string): (k: nat)
    ensures k <= |s|
    ensures forall j :: 0 <= j < k ==> !IsDigit(s[j])
    ensures k < |s| ==> IsDigit(s[k])
  {
    if |s| == 0 || IsDigit(s[0]) then 0 else 1 + FirstDigitIndex(s[1..])
  }

  /** What FindAllString("[0-9]+") yields first: None when it finds nothing. */
  function FirstDigitRun(s: string): Option<string>
  {
    var k := FirstDigitIndex(s);
    if k == |s| then None else Some(LeadingDigits(s[k..]))
  }

  /** The rider-facing code of a provincial station: its first run of digits,
      or the code unchanged when it has no digit. */
  function NormalizeArsId(arsId: string): (normalized: string)
    ensures arsId != "" ==> normalized != ""
    ensures AllDigits(normalized) || normalized == arsId
  {
    match FirstDigitRun(arsId)
    case Some(run) => run
    case None => arsId
  }

  /** `run` is the first maximal run of digits of `s`, and it starts at `k`. */
  ghost predicate IsFirstDigitRun(s: string, k: int, run: string)
  {
    && 0 <= k && k + |run| <= |s|
    && run == s[k..k + |run|]
    && |run| > 0 && AllDigits(run)
    && (forall j :: 0 <= j < k ==> !IsDigit(s[j]))
    && (k + |run| == |s| || !IsDigit(s[k + |run|]))
  }

  /** A digit prefix that is followed by a non-digit (or by nothing) is the
      longest digit prefix. */
  lemma {:induction false} LeadingDigitsOfRun(t: string, run: string)
    requires run <= t && AllDigits(run)
    requires |run| == |t| || !IsDigit(t[|run|])
    ensures LeadingDigits(t) == run
  {
    if run != [] {
      LeadingDigitsOfRun(t[1..], run[1..]);
    }
  }

  /** Normalisation extracts the first maximal run of digits when there is a
      digit, and leaves a code without digits unchanged. */
  lemma NormalizeArsIdIsFirstDigitRun(arsId: string)
    ensures HasDigit(arsId) ==> exists k :: IsFirstDigitRun(arsId, k, NormalizeArsId(arsId))
    ensures !HasDigit(arsId) ==> NormalizeArsId(arsId) == arsId
  {
    var k := FirstDigitIndex(arsId);
    if k < |arsId| {
      var run := LeadingDigits(arsId[k..]);
      assert run == arsId[k..][..|run|] == arsId[k..k + |run|];
      assert NormalizeArsId(arsId) == run;
      assert IsFirstDigitRun(arsId, k, run);
    }
  }

  /** The first maximal run of digits determines the normalised code. */
  lemma FirstDigitRunIsNormalized(arsId: string, k: int, run: string)
    requires IsFirstDigitRun(arsId, k, run)
    ensures NormalizeArsId(arsId) == run
  {
    var f := FirstDigitIndex(arsId);
    assert IsDigit(run[0]);
    assert f == k;
    assert run <= arsId[k..];
    LeadingDigitsOfRun(arsId[k..], run);
  }

  // ---------------------------------------------------------------------
  // Correction.

  /** The marker of a station that the metropolitan data set already holds. */
  const SeoulMarker: string := "서울"

  /** The three filters: not a metropolitan station, a name, an ArsId. */
  predicate Kept(s: GyunggiBusStation)
  {
    !Contains(s.ArsId, SeoulMarker) && s.StationName != "" && s.ArsId != ""
  }

  /** The reprojection from the Bessel-based planar system (EPSG:5174) to
      WGS84 (EPSG:4326), applied to (X, Y).  The first component of its result
      is the latitude, the second the longitude; None is a failure. */
  type Transform = (real, real) -> Option<(real, real)>

  /** A kept record after reprojection to `c` = (latitude, longitude). */
  function Reprojected(s: GyunggiBusStation, c: (real, real)): GyunggiBusStation
  {
    s.(CoordinateX := c.1, CoordinateY := c.0)
  }

  /** The records that pass the three filters, in input order. */
  function Filtered(stations: seq<GyunggiBusStation>): seq<GyunggiBusStation>
  {
    if stations == [] then []
    else
      var last := stations[|stations| - 1];
      Filtered(stations[..|stations| - 1]) + if Kept(last) then [last] else []
  }

  /** The positions of the records that pass the filters, in increasing order. */
  function KeptIndices(stations: seq<GyunggiBusStation>): seq<nat>
  {
    if stations == [] then []
    else
      var n := |stations| - 1;
      KeptIndices(stations[..n]) + if Kept(stations[n]) then [n] else []
  }

  /** The specification of the correction pass: the filtered records with
      their coordinates reprojected, None when the transform fails on one of
      them (a panic aborting the whole pass). */
  function Corrected(stations: seq<GyunggiBusStation>, transform: Transform): Option<seq<GyunggiBusStation>>
  {
    if stations == [] then Some([])
    else
      var s := stations[|stations| - 1];
      match Corrected(stations[..|stations| - 1], transform)
      case None => None
      case Some(prefix) =>
        if !Kept(s) then Some(prefix)
        else match transform(s.CoordinateX, s.CoordinateY)
          case None => None
          case Some(c) => Some(prefix + [Reprojected(s, c)])
  }

  /** Once the pass has failed on a prefix, it fails on the whole input. */
  lemma {:induction false} CorrectedFailurePersists(stations: seq<GyunggiBusStation>, i: nat, transform: Transform)
    requires i <= |stations| && Corrected(stations[..i], transform).None?
    ensures Corrected(stations, transform).None?
    decreases |stations| - i
  {
    if i < |stations| {
      assert stations[..i + 1][..i] == stations[..i];
      CorrectedFailurePersists(stations, i + 1, transform);
    } else {
      assert stations[..i] == stations;
    }
  }

  /** correctGyunggiBusStations: drop the records that fail a filter, reproject
      the others in place and append them; a transform failure panics. */
  method CorrectGyunggiBusStations(stations: seq<GyunggiBusStation>, transform: Transform)
    returns (corrected: Option<seq<GyunggiBusStation>>)
    ensures corrected == Corrected(stations, transform)
  {
    var kept: seq<GyunggiBusStation> := [];
    for i := 0 to |stations|
      invariant Corrected(stations[..i], transform) == Some(kept)
    {
      assert stations[..i + 1][..i] == stations[..i];
      var station := stations[i];
      if Contains(station.ArsId, SeoulMarker) {
        continue;
      }
      if station.StationName == "" {
        continue;
      }
      if station.ArsId == "" {
        continue;
      }
      var converted := transform(station.CoordinateX, station.CoordinateY);
      if converted.None? {
        CorrectedFailurePersists(stations, i + 1, transform);
        return None;
      }
      var latitude, longitude := converted.value.0, converted.value.1;
      station := station.(CoordinateX := longitude, CoordinateY := latitude);
      kept := kept + [station];
    }
    assert stations[..|stations|] == stations;
    return Some(kept);
  }

  /** The filter keeps exactly the records that pass the three filters, in
      input order: Filtered(stations) is the subsequence of `stations` at the
      strictly increasing positions KeptIndices(stations), and a position is
      among them exactly when its record passes. */
  lemma {:induction false} FilteredIsKeptSubsequence(stations: seq<GyunggiBusStation>)
    ensures |KeptIndices(stations)| == |Filtered(stations)|
    ensures forall j :: 0 <= j < |KeptIndices(stations)| ==>
      KeptIndices(stations)[j] < |stations| && Filtered(stations)[j] == stations[KeptIndices(stations)[j]]
    ensures forall j, l :: 0 <= j < l < |KeptIndices(stations)| ==> KeptIndices(stations)[j] < KeptIndices(stations)[l]
    ensures forall i :: 0 <= i < |stations| ==> (Kept(stations[i]) <==> i in KeptIndices(stations))
  {
    if stations != [] {
      var n := |stations| - 1;
      var prefix := stations[..n];
      FilteredIsKeptSubsequence(prefix);
      forall i | 0 <= i < n ensures stations[i] == prefix[i] { }
      if Kept(stations[n]) {
        assert KeptIndices(stations) == KeptIndices(prefix) + [n];
        assert Filtered(stations) == Filtered(prefix) + [stations[n]];
      } else {
        assert KeptIndices(stations) == KeptIndices(prefix);
        assert Filtered(stations) == Filtered(prefix);
      }
    }
  }

  /** A successful pass yields the filtered records, each with its
      coordinates replaced by the transform's result and nothing else changed. */
  lemma {:induction false} CorrectedReprojectsFiltered(stations: seq<GyunggiBusStation>, transform: Transform)
    requires Corrected(stations, transform).Some?
    ensures |Corrected(stations, transform).value| == |Filtered(stations)|
    ensures forall j :: 0 <= j < |Filtered(stations)| ==>
      var s := Filtered(stations)[j];
      && transform(s.CoordinateX, s.CoordinateY).Some?
      && Corrected(stations, transform).value[j] == Reprojected(s, transform(s.CoordinateX, s.CoordinateY).value)
  {
    if stations != [] {
      CorrectedReprojectsFiltered(stations[..|stations| - 1], transform);
    }
  }

  /** The pass fails exactly when the transform fails on a record that passes
      the filters; a failure on a dropped record is never seen. */
  lemma {:induction false} CorrectedFailsIff(stations: seq<GyunggiBusStation>, transform: Transform)
    ensures Corrected(stations, transform).None? <==>
      exists i :: 0 <= i < |stations| && Kept(stations[i]) && transform(stations[i].CoordinateX, stations[i].CoordinateY).None?
  {
    if stations != [] {
      var n := |stations| - 1;
      var prefix := stations[..n];
      CorrectedFailsIff(prefix, transform);
      if Corrected(prefix, transform).None? {
        var i :| 0 <= i < n && Kept(prefix[i]) && transform(prefix[i].CoordinateX, prefix[i].CoordinateY).None?;
        assert stations[i] == prefix[i];
      } else if Corrected(stations, transform).Some? {
        forall i | 0 <= i < |stations| && Kept(stations[i])
          ensures transform(stations[i].CoordinateX, stations[i].CoordinateY).Some?
        {
          if i < n {
            assert stations[i] == prefix[i];
          }
        }
      }
    }
  }

  // ---------------------------------------------------------------------
  // Standardisation.

  /** ToBusStation of a (corrected) provincial record. */
  function ToBusStation(s: GyunggiBusStation): (r: StandardBusStation)
    ensures r.StationName == s.StationName && r.StationId == s.StationId
    ensures r.Latitude == s.CoordinateY && r.Longitude == s.CoordinateX
    ensures r.ArsId == NormalizeArsId(s.ArsId)
  {
    StandardBusStation(s.StationName, s.StationId, NormalizeArsId(s.ArsId), s.CoordinateY, s.CoordinateX)
  }

  /** The specification of ConvertGyunggiBusStationsToStandard: the corrected
      records mapped in order; None is the panic of the correction pass. */
  function Standardized(stations: seq<GyunggiBusStation>, transform: Transform): Option<seq<StandardBusStation>>
  {
    match Corrected(stations, transform)
    case None => None
    case Some(c) => Some(seq(|c|, i requires 0 <= i < |c| => ToBusStation(c[i])))
  }

  /** ConvertGyunggiBusStationsToStandard: correct, then append the standard
      form of each corrected record.  Its error result is always nil, so the
      model has no error channel. */
  method ConvertGyunggiBusStationsToStandard(stations: seq<GyunggiBusStation>, transform: Transform)
    returns (busStations: Option<seq<StandardBusStation>>)
    ensures busStations == Standardized(stations, transform)
  {
    var corrected := CorrectGyunggiBusStations(stations, transform);
    if corrected.None? {
      return None;
    }
    var c := corrected.value;
    var out: seq<StandardBusStation> := [];
    for i := 0 to |c|
      invariant |out| == i
      invariant forall j :: 0 <= j < i ==> out[j] == ToBusStation(c[j])
    {
      out := out + [ToBusStation(c[i])];
    }
    assert out == seq(|c|, i requires 0 <= i < |c| => ToBusStation(c[i]));
    return Some(out);
  }

  /** Each standard record comes from the record at the same position of the
      filtered input: name and identifier copied, ArsId normalised, latitude
      and longitude the transform's result for that record's coordinates. */
  lemma StandardizedRecords(stations: seq<GyunggiBusStation>, transform: Transform)
    requires Standardized(stations, transform).Some?
    ensures |Standardized(stations, transform).value| == |Filtered(stations)|
    ensures forall j :: 0 <= j < |Filtered(stations)| ==>
      var s := Filtered(stations)[j];
      var r := Standardized(stations, transform).value[j];
      && transform(s.CoordinateX, s.CoordinateY).Some?
      && r.StationName == s.StationName && r.StationId == s.StationId
      && r.ArsId == NormalizeArsId(s.ArsId)
      && (r.Latitude, r.Longitude) == transform(s.CoordinateX, s.CoordinateY).value
  {
    CorrectedReprojectsFiltered(stations, transform);
  }

  /** A digit-only code never contains the metropolitan marker. */
  lemma DigitsHaveNoMarker(code: string)
    requires AllDigits(code)
    ensures !Contains(code, SeoulMarker)
  {
    if Contains(code, SeoulMarker) {
      ContainsHasChar(code, SeoulMarker);
    }
  }

  /** Every standard record of the provincial source has a name and an ArsId,
      and its ArsId carries no metropolitan marker. */
  lemma StandardizedInvariant(stations: seq<GyunggiBusStation>, transform: Transform)
    requires Standardized(stations, transform).Some?
    ensures forall r :: r in Standardized(stations, transform).value ==>
      r.StationName != "" && r.ArsId != "" && !Contains(r.ArsId, SeoulMarker)
  {
    StandardizedRecords(stations, transform);
    FilteredIsKeptSubsequence(stations);
    var out := Standardized(stations, transform).value;
    forall r | r in out
      ensures r.StationName != "" && r.ArsId != "" && !Contains(r.ArsId, SeoulMarker)
    {
      var j :| 0 <= j < |out| && out[j] == r;
      var s := Filtered(stations)[j];
      assert Kept(s);
      if AllDigits(r.ArsId) {
        DigitsHaveNoMarker(r.ArsId);
      }
    }
  }
}
