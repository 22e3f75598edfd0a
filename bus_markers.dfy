/**
 * The markers placed for the tracked bus: every record of the feed whose id,
 * as text, equals the selected label as text, and whose latitude and
 * longitude are both present and nonzero, gets one marker, in feed order.
 */
module BusMarkers {
  import opened Wrappers
  import opened PyText
  import opened LiveFeed
  import opened BusLabels

  /** One marker added to the map: its position and its popup text. */
  datatype Marker = Marker(lat: int, lon: int, popup: string)

  const UnknownDestination := "Unknown Destination"
  const UnknownHeading := "Unknown Heading"

  /** `str(bus.get("BlockFareboxId"))`: a record without the key compares as "None". */
  function IdText(bus: Record): string {
    StrOf(bus.fareboxId.GetOr(Null))
  }

  /** The id test of the scan: `str(bus.get("BlockFareboxId")) == str(selected)`. */
  predicate IdMatches(bus: Record, selected: Value) {
    IdText(bus) == StrOf(selected)
  }

  /** Python's truth test on a coordinate: present, not null and not zero. */
  predicate Truthy(c: Option<int>) {
    c.Some? && c.value != 0
  }

  /** `bus_lat and bus_lon`: both coordinates pass the truth test. */
  predicate Locatable(bus: Record) {
    Truthy(bus.latitude) && Truthy(bus.longitude)
  }

  /** A record gets a marker exactly when its id matches and it can be placed. */
  predicate Qualifies(bus: Record, selected: Value) {
    IdMatches(bus, selected) && Locatable(bus)
  }

  /** `bus.get(key, default)` rendered by an f-string: the default only when the key is absent. */
  function FieldText(field: Option<Value>, default: string): string {
    match field
    case Some(v) => StrOf(v)
    case None => default
  }

  /** The popup of a marker: it names the selected label, not the record's own id. */
  function Popup(selected: Value, bus: Record): string {
    "Bus ID: " + StrOf(selected)
    + "<br>Destination: " + FieldText(bus.destination, UnknownDestination)
    + "<br>Heading: " + FieldText(bus.heading, UnknownHeading)
  }

  function MarkerOf(bus: Record, selected: Value): Marker
    requires Locatable(bus)
  {
    Marker(bus.latitude.value, bus.longitude.value, Popup(selected, bus))
  }

  /**
   * The markers of a feed, as the scan produces them: the markers of all but
   * the last record, then the last record's marker if it qualifies.
   */
  function Markers(buses: seq<Record>, selected: Value): (markers: seq<Marker>)
    ensures |markers| <= |buses|
  {
    if buses == [] then []
    else
      var rest := Markers(buses[..|buses| - 1], selected);
      var bus := buses[|buses| - 1];
      if Qualifies(bus, selected) then rest + [MarkerOf(bus, selected)] else rest
  }

  /**
   * The positions, in increasing order, of the records that qualify: a
   * reference description of which records are marked, independent of the scan.
   */
  function MatchingPositions(buses: seq<Record>, selected: Value): (ps: seq<nat>)
    ensures forall k :: 0 <= k < |ps| ==> ps[k] < |buses| && Qualifies(buses[ps[k]], selected)
    ensures forall k, l :: 0 <= k < l < |ps| ==> ps[k] < ps[l]
    ensures forall i :: 0 <= i < |buses| && Qualifies(buses[i], selected) ==> i in ps
  {
    if buses == [] then []
    else
      var n := |buses| - 1;
      var rest := MatchingPositions(buses[..n], selected);
      assert forall k :: 0 <= k < |rest| ==> buses[rest[k]] == buses[..n][rest[k]];
      if Qualifies(buses[n], selected) then rest + [n] else rest
  }

  /**
   * The scan of the feed that adds a marker for the tracked bus. It does not
   * stop at the first match: every qualifying record is marked.
   */
  method AddSelectedBusMarkers(buses: seq<Record>, selected: Value) returns (markers: seq<Marker>)
    ensures markers == Markers(buses, selected)
  {
    markers := [];
    for i := 0 to |buses|
      invariant markers == Markers(buses[..i], selected)
    {
      var bus := buses[i];
      if StrOf(bus.fareboxId.GetOr(Null)) == StrOf(selected) {
        var busLat := bus.latitude;
        var busLon := bus.longitude;
        var destination := FieldText(bus.destination, UnknownDestination);
        var heading := FieldText(bus.heading, UnknownHeading);
        if busLat.Some? && busLat.value != 0 && busLon.Some? && busLon.value != 0 {
          var popup := "Bus ID: " + StrOf(selected) + "<br>Destination: " + destination + "<br>Heading: " + heading;
          markers := markers + [Marker(busLat.value, busLon.value, popup)];
        }
      }
      assert buses[..i + 1][..i] == buses[..i];
    }
    assert buses[..|buses|] == buses;
  }

  /** One step of the scan: the last record is appended to both descriptions, or to neither. */
  lemma ScanStep(buses: seq<Record>, selected: Value)
    requires buses != []
    ensures var n := |buses| - 1;
      if Qualifies(buses[n], selected) then
        Markers(buses, selected) == Markers(buses[..n], selected) + [MarkerOf(buses[n], selected)] &&
        MatchingPositions(buses, selected) == MatchingPositions(buses[..n], selected) + [n]
      else
        Markers(buses, selected) == Markers(buses[..n], selected) &&
        MatchingPositions(buses, selected) == MatchingPositions(buses[..n], selected)
  {
  }

  /**
   * The scan marks exactly the qualifying records, once each and in feed
   * order: marker `k` is the marker of the record at the `k`-th qualifying position.
   */
  lemma {:induction false} MarkersAtPositions(buses: seq<Record>, selected: Value)
    ensures |Markers(buses, selected)| == |MatchingPositions(buses, selected)|
    ensures forall k :: 0 <= k < |MatchingPositions(buses, selected)| ==>
      Markers(buses, selected)[k] == MarkerOf(buses[MatchingPositions(buses, selected)[k]], selected)
  {
    if buses != [] {
      var n := |buses| - 1;
      var prefix := buses[..n];
      MarkersAtPositions(prefix, selected);
      ScanStep(buses, selected);
      var ps, ms := MatchingPositions(prefix, selected), Markers(prefix, selected);
      var all, allMs := MatchingPositions(buses, selected), Markers(buses, selected);
      forall k | 0 <= k < |all|
        ensures allMs[k] == MarkerOf(buses[all[k]], selected)
      {
        if k < |ps| {
          assert all[k] == ps[k] && allMs[k] == ms[k];
          assert prefix[ps[k]] == buses[ps[k]];
        }
      }
    }
  }

  /** Every qualifying record is marked, not only the first one. */
  lemma QualifyingRecordIsMarked(buses: seq<Record>, selected: Value, i: nat)
    requires i < |buses| && Qualifies(buses[i], selected)
    ensures MarkerOf(buses[i], selected) in Markers(buses, selected)
  {
    MarkersAtPositions(buses, selected);
    var ps := MatchingPositions(buses, selected);
    var k :| 0 <= k < |ps| && ps[k] == i;
    assert Markers(buses, selected)[k] == MarkerOf(buses[i], selected);
  }

  /** Every marker comes from a qualifying record: no other record produces one. */
  lemma MarkerComesFromQualifyingRecord(buses: seq<Record>, selected: Value, k: nat)
    requires k < |Markers(buses, selected)|
    ensures exists i :: 0 <= i < |buses| && Qualifies(buses[i], selected)
                        && Markers(buses, selected)[k] == MarkerOf(buses[i], selected)
  {
    MarkersAtPositions(buses, selected);
    var i := MatchingPositions(buses, selected)[k];
    assert Qualifies(buses[i], selected);
  }

  /** The scan treats records one by one: the markers of two feeds in a row are the markers of each. */
  lemma {:induction false} MarkersOfConcat(a: seq<Record>, b: seq<Record>, selected: Value)
    ensures Markers(a + b, selected) == Markers(a, selected) + Markers(b, selected)
  {
    if b == [] {
      assert a + b == a;
    } else {
      var n := |b| - 1;
      assert (a + b)[..|a + b| - 1] == a + b[..n];
      assert (a + b)[|a + b| - 1] == b[n];
      MarkersOfConcat(a, b[..n], selected);
    }
  }

  /** A one-record feed is marked exactly when that record qualifies. */
  lemma MarkersOfSingleton(bus: Record, selected: Value)
    ensures Markers([bus], selected) == if Qualifies(bus, selected) then [MarkerOf(bus, selected)] else []
  {
    assert [bus][..0] == [];
  }

  /**
   * Every marker of one scan carries a popup built from the selected label
   * and the marked record's destination and heading, with their defaults.
   */
  lemma MarkerPopupText(buses: seq<Record>, selected: Value, k: nat)
    requires k < |Markers(buses, selected)|
    ensures exists i :: (0 <= i < |buses| && Qualifies(buses[i], selected) &&
      Markers(buses, selected)[k].popup ==
        "Bus ID: " + StrOf(selected)
        + "<br>Destination: " + (if buses[i].destination.Some? then StrOf(buses[i].destination.value) else "Unknown Destination")
        + "<br>Heading: " + (if buses[i].heading.Some? then StrOf(buses[i].heading.value) else "Unknown Heading"))
  {
    MarkerComesFromQualifyingRecord(buses, selected, k);
  }

  /**
   * Selecting the label of a record that has an id selects that record,
   * because both sides go through `str()`.
   */
  lemma OwnLabelSelectsRecord(buses: seq<Record>, i: nat)
    requires i < |buses| && buses[i].fareboxId.Some?
    ensures IdMatches(buses[i], Labels(buses)[i])
    ensures Locatable(buses[i]) ==> i in MatchingPositions(buses, Labels(buses)[i])
  {
    assert Labels(buses)[i] == buses[i].fareboxId.value;
  }

  /**
   * A record without an id compares as "None": it matches exactly the
   * selections whose text is "None", that is a null id or the string "None".
   */
  lemma AbsentIdComparesAsNone(bus: Record, selected: Value)
    requires bus.fareboxId.None?
    ensures IdMatches(bus, selected) <==> selected == Null || selected == Str("None")
  {
    StrOfNotInt(selected, "None");
  }

  /**
   * Selecting the fallback label "Bus k" of an id-less record never marks
   * that record; it matches a record only when that record's id is the string
   * "Bus k" itself.
   */
  // Automatic induction stays off: with it, Dafny 4.11 run with --warn-contradictory-assumptions reports this lemma as proved from contradictory assumptions.
  lemma {:induction false} FallbackLabelSelects(buses: seq<Record>, i: nat, j: nat)
    requires i < |buses| && j < |buses| && buses[i].fareboxId.None?
    ensures IdMatches(buses[j], Labels(buses)[i]) <==> buses[j].fareboxId == Some(Str(FallbackLabel(i)))
    ensures !IdMatches(buses[i], Labels(buses)[i])
  {
    var t := FallbackLabel(i);
    assert Labels(buses)[i] == Str(t);
    assert t[0] == 'B';
    StrOfNotInt(buses[j].fareboxId.GetOr(Null), t);
    StrOfNotInt(Null, t);
  }

  /**
   * A numeric selection `n` matches the records whose id is the number `n` or
   * the string of its digits, and no other id: ids are compared as text.
   */
  lemma NumericSelectionMatches(bus: Record, n: int)
    ensures IdMatches(bus, Int(n)) <==> bus.fareboxId == Some(Int(n)) || bus.fareboxId == Some(Str(IntToString(n)))
    ensures IdMatches(bus, Int(n)) <==> IdMatches(bus, Str(IntToString(n)))
  {
    StrOfMatchesInt(n, bus.fareboxId.GetOr(Null));
  }

  /** A failed request leaves no bus to choose and no marker, whatever is selected. */
  lemma FailedFetchShowsNothing(route: string, reason: string, selected: Value)
    ensures Labels(FetchLiveBusData(route, RequestFailed(reason))) == []
    ensures Markers(FetchLiveBusData(route, RequestFailed(reason)), selected) == []
  {
  }
}
