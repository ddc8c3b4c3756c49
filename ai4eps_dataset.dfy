/**
 * The integer bookkeeping of the AI4EPS training-sample builder: which
 * waveform an index denotes, the window placed around the earliest
 * arrival, the crop of the channel x time matrix to that window, the
 * shift of every pick into window coordinates, and the canonical phase
 * vector with a sentinel for absent phases.
 *
 * The waveform amplitudes are carried along but never computed on; the
 * optional transform hook is the identity.
 */
module Ai4epsDataset {
  import opened PyList

  /** Entry of the canonical phase vector for a phase without a pick. */
  const Sentinel: int := -999999999

  /** Key of one waveform: (event_id, station_id). */
  datatype WaveformId = WaveformId(eventId: string, stationId: string)

  /** What the waveform container holds for one (event, station):
      the channel x time matrix and the attributes the builder reads.
      `phaseIndex` and `phaseType` are parallel lists of picks. */
  datatype Record = Record(
    data: seq<seq<real>>,
    network: string,
    phaseIndex: seq<int>,
    phaseType: seq<string>)

  /** The waveform container, addressed as store[event_id][station_id]. */
  type Store = map<string, map<string, Record>>

  /** The dataset's configuration that the bookkeeping uses. */
  datatype Dataset = Dataset(
    indexToWaveformId: seq<WaveformId>,
    windowLength: int,                  // window_length_in_npts
    phases: seq<string>,                // canonical phase list
    firstArrivalOffset: int)            // first_arrival_index_in_final_window_if_no_shift

  /** One training sample, before label synthesis and normalisation. */
  datatype Sample = Sample(
    eventId: string,
    network: string,
    stationId: string,
    data: seq<seq<real>>,
    phaseIndex: seq<int>,
    phaseType: seq<string>,
    startIndex: int,
    endIndex: int)

  /** The exceptions the builder can raise. */
  datatype Error =
    | IndexOutOfRange        // IndexError from index_to_waveform_id[idx]
    | WaveformNotFound       // KeyError from the container lookup
    | EmptyPicks             // ValueError from min() of no picks
    | PickIndexOutOfRange    // IndexError: a phase_type position with no phase_index

  datatype Result<T> = Ok(value: T) | Err(error: Error)

  /** The dataset size: the number of (event_id, station_id) entries. */
  function Len(ds: Dataset): nat {
    |ds.indexToWaveformId|
  }

  /** The id stored at Python index `idx`, and the record stored under it. */
  function RecordAt(ds: Dataset, store: Store, idx: int): (r: Result<(WaveformId, Record)>)
    ensures r == Err(IndexOutOfRange) <==> !IndexInRange(idx, Len(ds))
    ensures r.Ok? ==> IndexInRange(idx, Len(ds)) && r.value.0 in ds.indexToWaveformId
    ensures r.Ok? ==> r.value.0.eventId in store && r.value.0.stationId in store[r.value.0.eventId]
    ensures r.Ok? ==> r.value.1 == store[r.value.0.eventId][r.value.0.stationId]
  {
    if !IndexInRange(idx, Len(ds)) then Err(IndexOutOfRange)
    else
      var id := ds.indexToWaveformId[Wrap(idx, Len(ds))];
      if id.eventId in store && id.stationId in store[id.eventId]
      then Ok((id, store[id.eventId][id.stationId]))
      else Err(WaveformNotFound)
  }

  /** Window bounds [start, end) that put the earliest arrival at `offset`. */
  function Window(minIndex: int, offset: int, windowLength: int): (w: (int, int))
    ensures w.1 - w.0 == windowLength
    ensures minIndex - w.0 == offset
  {
    (minIndex - offset, minIndex - offset + windowLength)
  }

  /** `data[:, start:end]`: every channel sliced with Python semantics. */
  function Crop(data: seq<seq<real>>, start: int, end: int): (r: seq<seq<real>>)
    ensures |r| == |data|
    ensures forall c :: 0 <= c < |data| && 0 <= start <= end <= |data[c]| ==>
              r[c] == data[c][start..end]
  {
    seq(|data|, c requires 0 <= c < |data| => Slice(data[c], start, end))
  }

  /** `[i - start for i in phase_index]`. */
  function Shift(phaseIndex: seq<int>, start: int): (r: seq<int>)
    ensures |r| == |phaseIndex|
    ensures forall k :: 0 <= k < |r| ==> r[k] + start == phaseIndex[k]
  {
    seq(|phaseIndex|, k requires 0 <= k < |phaseIndex| => phaseIndex[k] - start)
  }

  /** Every canonical phase that occurs among the pick types has a
      phase_index entry at the position of its first occurrence. */
  predicate Resolvable(phases: seq<string>, phaseType: seq<string>, shifted: seq<int>) {
    forall k :: 0 <= k < |phases| && phases[k] in phaseType ==>
      IndexOf(phaseType, phases[k]) < |shifted|
  }

  /** The canonical-vector entry of one phase. */
  function Entry(phase: string, phaseType: seq<string>, shifted: seq<int>): (e: int)
    requires phase in phaseType ==> IndexOf(phaseType, phase) < |shifted|
    ensures phase in phaseType ==>
              exists j :: 0 <= j < |phaseType| && j < |shifted| && phaseType[j] == phase && e == shifted[j]
    ensures phase !in phaseType ==> e == Sentinel
  {
    if phase in phaseType then shifted[IndexOf(phaseType, phase)] else Sentinel
  }

  /** One entry per canonical phase, in the canonical order. */
  function Canonical(phases: seq<string>, phaseType: seq<string>, shifted: seq<int>): (v: seq<int>)
    requires Resolvable(phases, phaseType, shifted)
    ensures |v| == |phases|
    ensures forall k :: 0 <= k < |phases| ==> v[k] == Entry(phases[k], phaseType, shifted)
  {
    seq(|phases|, k requires 0 <= k < |phases| => Entry(phases[k], phaseType, shifted))
  }

  /** The phase-index vector rebuilt in the order of the canonical list;
      the lookup of a phase's position fails when phase_index is shorter. */
  function Expand(phases: seq<string>, phaseType: seq<string>, shifted: seq<int>): (r: Result<seq<int>>)
    ensures r.Ok? <==> Resolvable(phases, phaseType, shifted)
    ensures r.Err? ==> r.error == PickIndexOutOfRange
    ensures r.Ok? ==> |r.value| == |phases|
  {
    if Resolvable(phases, phaseType, shifted)
    then Ok(Canonical(phases, phaseType, shifted))
    else Err(PickIndexOutOfRange)
  }

  /** The sample get_item_without_stack builds for `idx`, as a function. */
  function ItemWithoutStack(ds: Dataset, store: Store, idx: int): (r: Result<Sample>)
    ensures r.Ok? ==> r.value.endIndex - r.value.startIndex == ds.windowLength
    ensures r.Ok? ==> |r.value.phaseIndex| == |ds.phases| && r.value.phaseType == ds.phases
    ensures r.Ok? ==> RecordAt(ds, store, idx).Ok? && |r.value.data| == |RecordAt(ds, store, idx).value.1.data|
  {
    match RecordAt(ds, store, idx)
    case Err(e) => Err(e)
    case Ok((id, rec)) =>
      if |rec.phaseIndex| == 0 then Err(EmptyPicks)
      else
        var (start, end) := Window(Min(rec.phaseIndex), ds.firstArrivalOffset, ds.windowLength);
        match Expand(ds.phases, rec.phaseType, Shift(rec.phaseIndex, start))
        case Err(e) => Err(e)
        case Ok(expanded) =>
          Ok(Sample(id.eventId, rec.network, id.stationId, Crop(rec.data, start, end),
                    expanded, ds.phases, start, end))
  }

  /** get_item_without_stack: the sample is built up step by step and the
      canonical phase vector is appended to phase by phase. */
  method GetItemWithoutStack(ds: Dataset, store: Store, idx: int) returns (r: Result<Sample>)
    ensures r == ItemWithoutStack(ds, store, idx)
  {
    var n := |ds.indexToWaveformId|;
    if !IndexInRange(idx, n) {
      return Err(IndexOutOfRange);
    }
    var id := ds.indexToWaveformId[Wrap(idx, n)];
    if id.eventId !in store || id.stationId !in store[id.eventId] {
      return Err(WaveformNotFound);
    }
    var rec := store[id.eventId][id.stationId];
    assert RecordAt(ds, store, idx) == Ok((id, rec));
    var sample := Sample(id.eventId, rec.network, id.stationId, rec.data,
                         rec.phaseIndex, rec.phaseType, 0, 0);
    if |sample.phaseIndex| == 0 {
      return Err(EmptyPicks);
    }
    var minIndex := Min(sample.phaseIndex);
    var startIndex := minIndex - ds.firstArrivalOffset;
    var endIndex := minIndex - ds.firstArrivalOffset + ds.windowLength;
    sample := sample.(startIndex := startIndex, endIndex := endIndex);

    sample := sample.(data := Crop(sample.data, startIndex, endIndex));
    sample := sample.(phaseIndex := Shift(sample.phaseIndex, startIndex));

    ghost var types, shifted := sample.phaseType, sample.phaseIndex;
    var expanded: seq<int> := [];
    for k := 0 to |ds.phases|
      invariant sample.phaseType == types && sample.phaseIndex == shifted
      invariant |expanded| == k
      invariant forall j :: 0 <= j < k && ds.phases[j] in types ==>
                  IndexOf(types, ds.phases[j]) < |shifted|
      invariant forall j :: 0 <= j < k ==> expanded[j] == Entry(ds.phases[j], types, shifted)
    {
      var phase := ds.phases[k];
      if phase in sample.phaseType {
        var pos := IndexOf(sample.phaseType, phase);
        if pos >= |sample.phaseIndex| {
          assert !Resolvable(ds.phases, types, shifted) by {
            assert ds.phases[k] in types && IndexOf(types, ds.phases[k]) >= |shifted|;
          }
          assert Window(minIndex, ds.firstArrivalOffset, ds.windowLength) == (startIndex, endIndex);
          assert Expand(ds.phases, types, shifted) == Err(PickIndexOutOfRange);
          return Err(PickIndexOutOfRange);
        }
        expanded := expanded + [sample.phaseIndex[pos]];
      } else {
        expanded := expanded + [Sentinel];
      }
    }
    assert Resolvable(ds.phases, types, shifted);
    ghost var spec := Canonical(ds.phases, types, shifted);
    assert forall j :: 0 <= j < |spec| ==> spec[j] == expanded[j];
    assert spec == expanded;
    assert Expand(ds.phases, types, shifted) == Ok(expanded);
    assert Window(minIndex, ds.firstArrivalOffset, ds.windowLength) == (startIndex, endIndex);
    sample := sample.(phaseIndex := expanded, phaseType := ds.phases);
    return Ok(sample);
  }
}
