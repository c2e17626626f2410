// The donut chart of a resource and what its slices add up to.

module DonutChart {

  datatype Slice = Detector(bytes: nat) | Loading(bytes: nat) | EdgeEndpoint(bytes: nat) | Other(bytes: nat) | Free(bytes: nat)

  function Sum(ns: seq<nat>): nat { if ns == [] then 0 else Sum(ns[..|ns| - 1]) + ns[|ns| - 1] }

  function SumSlices(slices: seq<Slice>): nat {
    if slices == [] then 0 else SumSlices(slices[..|slices| - 1]) + slices[|slices| - 1].bytes
  }

  function Max(a: int, b: int): int { if a < b then b else a }

  lemma {:induction false} SumThen(slices: seq<Slice>, s: Slice)
    ensures SumSlices(slices + [s]) == SumSlices(slices) + s.bytes
  {
    assert (slices + [s])[..|slices|] == slices;
  }

  /**
   * The slices of one resource. They cover what is used or accounted for, whichever is more, and what is
   * free; that is the whole resource when no more is accounted for than used and no more used than there is.
   */
  method BuildSlices(detectors: seq<nat>, total: nat, used: nat, loading: nat, edgeEndpoint: nat)
    returns (slices: seq<Slice>, other: nat, free: nat)
    ensures var accounted := Sum(detectors) + loading + edgeEndpoint;
            && SumSlices(slices) == Max(used, accounted) + Max(0, total - used)
            && (accounted <= used <= total ==> SumSlices(slices) == total && other == used - accounted && free == total - used)
    ensures |slices| == |detectors| + 4
    ensures forall i | 0 <= i < |detectors| :: slices[i] == Detector(detectors[i])
    ensures slices[|detectors|..] == [Loading(loading), EdgeEndpoint(edgeEndpoint), Other(other), Free(free)]
  {
    slices := [];
    var accounted := 0;
    for i := 0 to |detectors|
      invariant |slices| == i && accounted == Sum(detectors[..i]) == SumSlices(slices)
      invariant forall j | 0 <= j < i :: slices[j] == Detector(detectors[j])
    {
      assert detectors[..i + 1][..i] == detectors[..i];
      accounted := accounted + detectors[i];
      SumThen(slices, Detector(detectors[i]));
      slices := slices + [Detector(detectors[i])];
    }
    assert detectors[..|detectors|] == detectors;
    accounted := accounted + loading;
    SumThen(slices, Loading(loading));
    slices := slices + [Loading(loading)];
    accounted := accounted + edgeEndpoint;
    SumThen(slices, EdgeEndpoint(edgeEndpoint));
    slices := slices + [EdgeEndpoint(edgeEndpoint)];
    other := Max(0, used - accounted);
    SumThen(slices, Other(other));
    slices := slices + [Other(other)];
    free := Max(0, total - used);
    SumThen(slices, Free(free));
    slices := slices + [Free(free)];
  }
}
