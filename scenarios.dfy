/** Worked feeds: what the dropdown offers and which markers are placed for them. */
module Scenarios {
  import opened Wrappers
  import opened PyText
  import opened LiveFeed
  import opened BusLabels
  import opened BusMarkers

  /**
   * One bus with string id "42" at (33.97, -84.22) in micro-degrees, bound
   * for "Mall", heading "N": the dropdown offers "42", and selecting it
   * places one marker there with the full popup.
   */
  lemma TrackedBusIsPlotted()
    ensures var feed := [Record(Some(Str("42")), Some(33970000), Some(-84220000), Some(Str("Mall")), Some(Str("N")))];
      Labels(feed) == [Str("42")] &&
      Markers(feed, Str("42")) == [Marker(33970000, -84220000, "Bus ID: 42<br>Destination: Mall<br>Heading: N")]
  {
    var bus := Record(Some(Str("42")), Some(33970000), Some(-84220000), Some(Str("Mall")), Some(Str("N")));
    assert [bus][..0] == [];
    MarkersOfSingleton(bus, Str("42"));
    assert Popup(Str("42"), bus) == "Bus ID: 42<br>Destination: Mall<br>Heading: N";
  }

  /** A bus reporting its id as the number 42 is marked when the string "42" is selected. */
  lemma NumericIdMatchesStringLabel()
    ensures var feed := [Record(Some(Int(42)), Some(1), Some(2), None, None)];
      Labels(feed) == [Int(42)] &&
      Markers(feed, Str("42")) == [Marker(1, 2, Popup(Str("42"), feed[0]))]
  {
    var bus := Record(Some(Int(42)), Some(1), Some(2), None, None);
    assert [bus][..0] == [];
    assert IntToString(42) == "42" by {
      assert NatToString(42) == NatToString(4) + [Digit(2)];
    }
    MarkersOfSingleton(bus, Str("42"));
  }

  /** A bus without an id is offered as "Bus 1", and selecting that label places no marker. */
  lemma FallbackLabelPlotsNothing()
    ensures var feed := [Record(None, Some(1), Some(2), None, None)];
      Labels(feed) == [Str("Bus 1")] && Markers(feed, Str("Bus 1")) == []
  {
    var bus := Record(None, Some(1), Some(2), None, None);
    assert [bus][..0] == [];
    assert FallbackLabel(0) == "Bus 1";
  }

  /** A matching bus at latitude 0 fails the truth test and is not plotted. */
  lemma ZeroCoordinateIsNotPlotted()
    ensures Markers([Record(Some(Str("7")), Some(0), Some(5), None, None)], Str("7")) == []
  {
    assert [Record(Some(Str("7")), Some(0), Some(5), None, None)][..0] == [];
  }

  /** Two records with the same id both get a marker, in feed order. */
  lemma DuplicateIdsAreAllPlotted()
    ensures var feed := [Record(Some(Str("9")), Some(1), Some(1), None, None), Record(Some(Int(9)), Some(2), Some(2), None, None)];
      |Markers(feed, Str("9"))| == 2 &&
      Markers(feed, Str("9"))[0].lat == 1 && Markers(feed, Str("9"))[1].lat == 2
  {
    var a := Record(Some(Str("9")), Some(1), Some(1), None, None);
    var b := Record(Some(Int(9)), Some(2), Some(2), None, None);
    MarkersOfConcat([a], [b], Str("9"));
    MarkersOfSingleton(a, Str("9"));
    MarkersOfSingleton(b, Str("9"));
    assert [a] + [b] == [a, b];
  }

  /** The string id "042" is not the number 42 as text, so selecting 42 does not mark it. */
  lemma LeadingZeroIdDoesNotMatch()
    ensures !IdMatches(Record(Some(Str("042")), Some(1), Some(2), None, None), Int(42))
  {
    NumericSelectionMatches(Record(Some(Str("042")), Some(1), Some(2), None, None), 42);
    assert IntToString(42)[0] != '0';
  }
}
