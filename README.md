# Live-bus selection in the Peachtree Corners dashboard

This project models the live-bus part of the Streamlit dashboard in
`streamlit_app.py` and proves properties of the model. The dashboard fetches
the vehicles currently on one Gwinnett transit route and offers a dropdown of
buses, one label per vehicle record. When the transit layer is on, it places a
map marker for the selected bus, with a popup naming it. The model covers:

- **Feed** (`LiveFeed`): a vehicle record is a JSON object whose keys
  `BlockFareboxId`, `Latitude`, `Longitude`, `Destination` and `Heading` may
  each be absent. A fetch either yields the decoded list or fails. A failed
  fetch gives the empty list.
- **Labels** (`BusLabels`): the `bus_ids` comprehension. Label `i` is the raw
  `BlockFareboxId` value when that key is present, and `"Bus " + (i+1)` when it
  is absent.
- **Markers** (`BusMarkers`): the scan over the feed. A record gets a marker when
  `str()` of its id equals `str()` of the selected label and both coordinates are
  truthy. The scan is a loop method (`AddSelectedBusMarkers`). It is proved equal
  to the specification function `Markers`. `MatchingPositions` is an independent
  description of which records are marked.
- **Python text** (`PyText`): JSON scalars (null, integer, string) and Python's
  `str()` on them. `str()` is what lets a numeric id `42` match a label `"42"`.
  It is paired with `int()` and proved invertible.
- **Scenarios** (`Scenarios`): worked feeds computed through the model.

The model follows the code as written:
- A label is the raw id value, not its string form.
- The scan marks every matching record, not just the first one.
- The payload is used as it is decoded: no step turns a non-list payload into
  an empty feed, and no step skips malformed elements.
- A record without `BlockFareboxId` is compared as `"None"`, because
  `bus.get("BlockFareboxId")` returns `None`. So such a record matches when the
  selection is a JSON-null id or the string `"None"` (`AbsentIdComparesAsNone`).
  It is then marked if it is also locatable. Its own fallback label never
  matches it (`FallbackLabelSelects`).

Coordinates are integers (for example micro-degrees). The code never computes
with them: it only stores them and tests their truth. A key that is absent and a
key whose value is null are both read as "no coordinate".

## Model

| member | source | states |
|---|---|---|
| `BusLabels.Labels` | streamlit_app.py:89 | one label per record, in feed order: label `i` is record `i`'s `BlockFareboxId` value when the key is present, otherwise `"Bus " + (i+1)` |
| `BusLabels.LabelIsLocal` | streamlit_app.py:89 | label `i` depends only on record `i` and on `i`, not on any other record |
| `BusLabels.FallbackLabelNames` | streamlit_app.py:89 | a fallback label is `"Bus "` followed by the decimal 1-based position, which reads back as `i+1` |
| `BusLabels.FallbackLabelsDistinct` | streamlit_app.py:89 | records at different positions never get the same fallback label |
| `PyText.NatToString` | streamlit_app.py:89 | the decimal rendering of a natural number is a non-empty string of digits in canonical form: it starts with `0` only when the number is 0, and then it is `"0"` |
| `PyText.IntToString` | streamlit_app.py:167 | `str()` of an integer starts with a minus sign exactly when the integer is negative; every character after the sign is a digit, with no `"-0"` and no leading zero |
| `PyText.ParseNatOfNatToString` | streamlit_app.py:89 | reading back the digits of `n` gives `n` |
| `PyText.ParseIntOfIntToString` | streamlit_app.py:167 | `int(str(n)) == n` for every integer, negative ones included |
| `PyText.IntToStringInjective` | streamlit_app.py:167 | two integer ids compare equal as text only when they are the same integer |
| `PyText.StrOfMatchesInt` | streamlit_app.py:167 | the values whose `str()` equals that of integer `n` are exactly `n` and the string of its digits: never null, never another integer |
| `PyText.StrOfNotInt` | streamlit_app.py:167 | a text starting with a letter is the `str()` only of that string itself, or of null when the text is `"None"` |
| `BusMarkers.Markers` | streamlit_app.py:166-178 | the markers of a scan: never more markers than records |
| `BusMarkers.MatchingPositions` | streamlit_app.py:166-173 | the positions of the marked records, strictly increasing; a position is listed iff its record's id matches as text and both coordinates are truthy |
| `BusMarkers.AddSelectedBusMarkers` | streamlit_app.py:166-178 | the loop over the feed appends exactly the markers of `Markers`, in feed order, with the default destination and heading and the popup template |
| `BusMarkers.MarkersAtPositions` | streamlit_app.py:166-178 | marker `k` is the marker of the record at the `k`-th matching position: every matching, locatable record is marked once, in feed order, and no other record is |
| `BusMarkers.QualifyingRecordIsMarked` | streamlit_app.py:166-178 | every qualifying record gets a marker, not only the first one |
| `BusMarkers.MarkerComesFromQualifyingRecord` | streamlit_app.py:166-178 | every marker is the marker of some qualifying record |
| `BusMarkers.MarkersOfConcat` | streamlit_app.py:166 | the scan handles records one at a time: the markers of `a + b` are those of `a` followed by those of `b` |
| `BusMarkers.MarkersOfSingleton` | streamlit_app.py:167-178 | a one-record feed is marked exactly when the record's id matches and both coordinates are truthy |
| `BusMarkers.MarkerPopupText` | streamlit_app.py:170-176 | each popup is `"Bus ID: " + str(selected) + "<br>Destination: " + d + "<br>Heading: " + h`, where `d` and `h` default to `"Unknown Destination"` and `"Unknown Heading"` only when their keys are absent |
| `BusMarkers.OwnLabelSelectsRecord` | streamlit_app.py:167 | selecting the label of a record that has an id makes that record match, and marks it when it is locatable |
| `BusMarkers.AbsentIdComparesAsNone` | streamlit_app.py:167 | a record without `BlockFareboxId` matches exactly the selections that are null or the string `"None"` |
| `BusMarkers.FallbackLabelSelects` | streamlit_app.py:167 | selecting the fallback label `"Bus k"` never matches its own record; it matches another record iff that record's id is the string `"Bus k"` |
| `BusMarkers.NumericSelectionMatches` | streamlit_app.py:167 | a numeric selection `n` matches exactly the ids `n` and `"n"`, the same records as the selection `"n"` |
| `BusMarkers.FailedFetchShowsNothing` | streamlit_app.py:31-33 | after a failed request the dropdown is empty and no marker is placed, whatever the selection |
| `Scenarios.TrackedBusIsPlotted` | streamlit_app.py:166-178 | the feed with bus `"42"` bound for Mall heading N offers `["42"]`, and selecting it places one marker with popup `Bus ID: 42<br>Destination: Mall<br>Heading: N` |
| `Scenarios.NumericIdMatchesStringLabel` | streamlit_app.py:167 | a bus whose id is the number 42 is marked when `"42"` is selected |
| `Scenarios.FallbackLabelPlotsNothing` | streamlit_app.py:89 | an id-less bus is offered as `"Bus 1"`, and selecting that label places no marker |
| `Scenarios.ZeroCoordinateIsNotPlotted` | streamlit_app.py:173 | a matching bus at coordinate 0 fails the truth test and is not plotted |
| `Scenarios.LeadingZeroIdDoesNotMatch` | streamlit_app.py:167 | the string id `"042"` differs as text from the number 42, so selecting 42 does not match it |
| `Scenarios.DuplicateIdsAreAllPlotted` | streamlit_app.py:166-178 | two buses whose ids are the same as text both get a marker, in feed order |

## Left out

- The HTTP request, the URL template, `raise_for_status`, JSON decoding and the `st.error` report (streamlit_app.py:20-33) are network I/O. The outcome of a fetch is an input: the decoded list, or a failure with its description.
- The sidebar, the buttons, the session-state layer toggles and the text output (streamlit_app.py:36-103) are UI state. The selected bus is an arbitrary input value. That covers the null that an empty dropdown yields.
- Loading CSV files with pandas, and building the folium map, polylines and circle markers (streamlit_app.py:13-18, 105-163, 181-182), are rendering. So is the marker icon style (color, icon and prefix at line 177).
- A payload that is not a list of JSON objects is not modelled. If the response decodes to a non-empty dict, or the list holds an element that is not an object, the code raises at line 89 (iterating a dict gives its keys, and `.get` fails on them). An empty dict gives no labels and no markers, the same as the empty feed `Payload([])`. `Response.Payload` holds only records, so that crash cannot be expressed.
- Real-valued coordinates: they are integers here. Only the truth test (present and nonzero) is modelled.
- JSON booleans, floats, arrays and objects as the value of `BlockFareboxId`, `Destination` or `Heading` are not modelled. Scalars cover null, integers and strings only. The truth test on non-numeric coordinate values is not modelled either.
- The folium map that `add_to(m)` mutates is modelled by the sequence of markers the scan returns, in the order they are added.
