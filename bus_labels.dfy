/** The options of the "Select a Bus to Track" box: one label per fetched record. */
module BusLabels {
  import opened Wrappers
  import opened PyText
  import opened LiveFeed

  /** The label made up for the record at 0-based position `i` that has no id: "Bus 1", "Bus 2", ... */
  function FallbackLabel(i: nat): string {
    "Bus " + NatToString(i + 1)
  }

  /** `bus.get("BlockFareboxId", f"Bus {i+1}")`: the raw id value when the key is present. */
  function LabelOf(bus: Record, i: nat): Value {
    bus.fareboxId.GetOr(Str(FallbackLabel(i)))
  }

  /**
   * The list comprehension over `enumerate(buses)`, built front to back: one
   * label per record, in feed order, each depending only on its own record
   * and position.
   */
  function Labels(buses: seq<Record>): (labels: seq<Value>)
    ensures |labels| == |buses|
    ensures forall i :: 0 <= i < |buses| && buses[i].fareboxId.Some? ==> labels[i] == buses[i].fareboxId.value
    ensures forall i :: 0 <= i < |buses| && buses[i].fareboxId.None? ==> labels[i] == Str(FallbackLabel(i))
  {
    if buses == [] then []
    else Labels(buses[..|buses| - 1]) + [LabelOf(buses[|buses| - 1], |buses| - 1)]
  }

  /** Label `i` is decided by record `i` and by `i` alone, whatever the other records are. */
  lemma LabelIsLocal(a: seq<Record>, b: seq<Record>, i: nat)
    requires i < |a| && i < |b| && a[i] == b[i]
    ensures Labels(a)[i] == Labels(b)[i] == LabelOf(a[i], i)
  {
  }


  /** A fallback label spells "Bus " and then the 1-based position. */
  lemma FallbackLabelNames(i: nat)
    ensures |FallbackLabel(i)| >= 5 && FallbackLabel(i)[..4] == "Bus "
    ensures ParseNat(FallbackLabel(i)[4..]) == i + 1
  {
    assert FallbackLabel(i)[4..] == NatToString(i + 1);
    ParseNatOfNatToString(i + 1);
  }

  /** Different positions get different fallback labels. */
  lemma FallbackLabelsDistinct(i: nat, j: nat)
    requires i != j
    ensures FallbackLabel(i) != FallbackLabel(j)
  {
    FallbackLabelNames(i);
    FallbackLabelNames(j);
  }
}
