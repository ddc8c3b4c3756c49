/**
 * What get_item_without_stack and __len__ promise: fixed window length,
 * the earliest arrival landing at the configured offset, the canonical
 * phase vector (order, first occurrence, sentinel, dropped types), the
 * crop, and when each error is raised.
 */
module Ai4epsProperties {
  import opened PyList
  import opened Ai4epsDataset

  /** A phase-vector entry denotes a pick when it is not the sentinel. */
  predicate IsPresent(entry: int) {
    entry != Sentinel
  }

  /** Every channel of the matrix has `t` samples (a channel x time tensor). */
  predicate Rectangular(data: seq<seq<real>>, t: nat) {
    forall c :: 0 <= c < |data| ==> |data[c]| == t
  }

  /** The shift moves the minimum along with every pick. */
  lemma MinShift(s: seq<int>, d: int)
    requires |s| > 0
    ensures Min(Shift(s, d)) == Min(s) - d
  {
    var t := Shift(s, d);
    var m := Min(s);
    var j :| 0 <= j < |s| && s[j] == m;
    assert t[j] in t;
    var m' := Min(t);
    assert m' <= m - d;
    var j' :| 0 <= j' < |t| && t[j'] == m';
    assert s[j'] in s;
    assert m <= m' + d;
  }

  /** Requesting position `idx` fails with IndexError exactly when `idx` is
      not a valid Python index below __len__; in particular at idx == __len__. */
  lemma OutOfRangeIffBeyondLen(ds: Dataset, store: Store, idx: int)
    ensures ItemWithoutStack(ds, store, idx) == Err(IndexOutOfRange) <==>
              !IndexInRange(idx, Len(ds))
    ensures ItemWithoutStack(ds, store, Len(ds)) == Err(IndexOutOfRange)
  {
  }

  /** With parallel pick lists, every canonical phase found among the
      types has an index, so the rebuild never raises. */
  lemma ParallelPicksResolve(phases: seq<string>, phaseType: seq<string>, shifted: seq<int>)
    requires |phaseType| == |shifted|
    ensures Resolvable(phases, phaseType, shifted)
  {
  }

  /** The builder fails only in the four ways the code raises, and succeeds
      exactly when none of them applies. */
  lemma ItemSucceedsIff(ds: Dataset, store: Store, idx: int)
    ensures ItemWithoutStack(ds, store, idx).Ok? <==>
              && RecordAt(ds, store, idx).Ok?
              && |RecordAt(ds, store, idx).value.1.phaseIndex| > 0
              && Resolvable(ds.phases, RecordAt(ds, store, idx).value.1.phaseType,
                            RecordAt(ds, store, idx).value.1.phaseIndex)
    ensures RecordAt(ds, store, idx).Ok? && RecordAt(ds, store, idx).value.1.phaseIndex == [] ==>
              ItemWithoutStack(ds, store, idx) == Err(EmptyPicks)
    ensures RecordAt(ds, store, idx) == Err(WaveformNotFound) ==>
              ItemWithoutStack(ds, store, idx) == Err(WaveformNotFound)
    ensures && RecordAt(ds, store, idx).Ok?
            && |RecordAt(ds, store, idx).value.1.phaseIndex| > 0
            && !Resolvable(ds.phases, RecordAt(ds, store, idx).value.1.phaseType,
                           RecordAt(ds, store, idx).value.1.phaseIndex) ==>
              ItemWithoutStack(ds, store, idx) == Err(PickIndexOutOfRange)
  {
  }

  /** Sample `idx` is built from the key at position `idx` of
      index_to_waveform_id (counted from the end when negative) and from
      the record stored under that key; a key missing from the container
      raises the lookup error. */
  lemma ItemIsIndexedKey(ds: Dataset, store: Store, idx: int)
    requires IndexInRange(idx, Len(ds))
    ensures var key := if idx >= 0 then ds.indexToWaveformId[idx]
                       else ds.indexToWaveformId[idx + Len(ds)];
            && (key.eventId in store && key.stationId in store[key.eventId] ==>
                  RecordAt(ds, store, idx) == Ok((key, store[key.eventId][key.stationId])))
            && (!(key.eventId in store && key.stationId in store[key.eventId]) ==>
                  RecordAt(ds, store, idx) == Err(WaveformNotFound) &&
                  ItemWithoutStack(ds, store, idx) == Err(WaveformNotFound))
    ensures var key := if idx >= 0 then ds.indexToWaveformId[idx]
                       else ds.indexToWaveformId[idx + Len(ds)];
            ItemWithoutStack(ds, store, idx).Ok? ==>
              && ItemWithoutStack(ds, store, idx).value.eventId == key.eventId
              && ItemWithoutStack(ds, store, idx).value.stationId == key.stationId
              && ItemWithoutStack(ds, store, idx).value.network ==
                   store[key.eventId][key.stationId].network
  {
  }

  /** Every sample has the configured window length and starts `offset`
      samples before the earliest pick. */
  lemma WindowFixedAndAligned(ds: Dataset, store: Store, idx: int, id: WaveformId, rec: Record, s: Sample)
    requires RecordAt(ds, store, idx) == Ok((id, rec))
    requires ItemWithoutStack(ds, store, idx) == Ok(s)
    ensures |rec.phaseIndex| > 0
    ensures s.endIndex - s.startIndex == ds.windowLength
    ensures s.startIndex == Min(rec.phaseIndex) - ds.firstArrivalOffset
    ensures s.eventId == id.eventId && s.stationId == id.stationId && s.network == rec.network
  {
  }

  /** After the shift, the earliest pick sits exactly at the configured
      offset and no pick lies before it. */
  lemma EarliestPickAtOffset(ds: Dataset, store: Store, idx: int, id: WaveformId, rec: Record, s: Sample)
    requires RecordAt(ds, store, idx) == Ok((id, rec))
    requires ItemWithoutStack(ds, store, idx) == Ok(s)
    ensures |rec.phaseIndex| > 0
    ensures Min(Shift(rec.phaseIndex, s.startIndex)) == ds.firstArrivalOffset
    ensures forall k :: 0 <= k < |rec.phaseIndex| ==>
              Shift(rec.phaseIndex, s.startIndex)[k] >= ds.firstArrivalOffset
  {
    MinShift(rec.phaseIndex, s.startIndex);
    var t := Shift(rec.phaseIndex, s.startIndex);
    forall k | 0 <= k < |rec.phaseIndex|
      ensures t[k] >= ds.firstArrivalOffset
    {
      assert rec.phaseIndex[k] in rec.phaseIndex;
    }
  }

  /** The phase vector follows the canonical list: one entry per canonical
      phase, the shifted index of the phase's first pick when it has one,
      the sentinel when it has none; phase_type echoes the canonical list. */
  lemma CanonicalPhaseVector(ds: Dataset, store: Store, idx: int, id: WaveformId, rec: Record, s: Sample)
    requires RecordAt(ds, store, idx) == Ok((id, rec))
    requires ItemWithoutStack(ds, store, idx) == Ok(s)
    ensures |s.phaseIndex| == |ds.phases| && s.phaseType == ds.phases
    ensures forall k :: 0 <= k < |ds.phases| && ds.phases[k] in rec.phaseType ==>
              IndexOf(rec.phaseType, ds.phases[k]) < |rec.phaseIndex| &&
              s.phaseIndex[k] == rec.phaseIndex[IndexOf(rec.phaseType, ds.phases[k])] - s.startIndex
    ensures forall k :: 0 <= k < |ds.phases| && ds.phases[k] !in rec.phaseType ==>
              s.phaseIndex[k] == Sentinel
  {
  }

  /** Of several picks of one phase, the first one in phase_type gives the
      entry; the later ones are ignored. */
  lemma FirstPickWins(ds: Dataset, store: Store, idx: int, id: WaveformId, rec: Record, s: Sample,
                      k: nat, j: nat)
    requires RecordAt(ds, store, idx) == Ok((id, rec))
    requires ItemWithoutStack(ds, store, idx) == Ok(s)
    requires k < |ds.phases| && j < |rec.phaseType| && rec.phaseType[j] == ds.phases[k]
    requires forall i :: 0 <= i < j ==> rec.phaseType[i] != ds.phases[k]
    ensures j < |rec.phaseIndex| && s.phaseIndex[k] == rec.phaseIndex[j] - s.startIndex
  {
  }

  /** Changing the index of a pick that repeats an earlier pick's phase
      does not change the rebuilt vector. */
  lemma LaterDuplicateIgnored(phases: seq<string>, phaseType: seq<string>, shifted: seq<int>,
                              i: nat, j: nat, v: int)
    requires i < j < |phaseType| && j < |shifted| && phaseType[i] == phaseType[j]
    ensures Expand(phases, phaseType, shifted[j := v]) == Expand(phases, phaseType, shifted)
  {
    var shifted' := shifted[j := v];
    forall p | p in phaseType
      ensures IndexOf(phaseType, p) != j
    {
    }
    if Resolvable(phases, phaseType, shifted) {
      assert Resolvable(phases, phaseType, shifted');
      assert Canonical(phases, phaseType, shifted') == Canonical(phases, phaseType, shifted);
    }
  }

  /** A pick whose type is not in the canonical list contributes nothing:
      removing it from both parallel lists leaves the vector unchanged. */
  lemma NonCanonicalPickDropped(phases: seq<string>, phaseType: seq<string>, shifted: seq<int>, j: nat)
    requires j < |phaseType| && j < |shifted| && phaseType[j] !in phases
    ensures Expand(phases, phaseType[..j] + phaseType[j + 1..], shifted[..j] + shifted[j + 1..]) ==
            Expand(phases, phaseType, shifted)
  {
    var types', shifted' := phaseType[..j] + phaseType[j + 1..], shifted[..j] + shifted[j + 1..];
    assert forall i :: 0 <= i < |shifted'| ==> shifted'[i] == (if i < j then shifted[i] else shifted[i + 1]);
    forall k | 0 <= k < |phases|
      ensures phases[k] in phaseType <==> phases[k] in types'
      ensures phases[k] in phaseType ==>
                (IndexOf(phaseType, phases[k]) < |shifted| <==> IndexOf(types', phases[k]) < |shifted'|)
      ensures phases[k] in phaseType && IndexOf(phaseType, phases[k]) < |shifted| ==>
                shifted'[IndexOf(types', phases[k])] == shifted[IndexOf(phaseType, phases[k])]
    {
      assert phaseType[j] != phases[k];
      IndexOfAfterRemove(phaseType, j, phases[k]);
    }
    assert Resolvable(phases, types', shifted') <==> Resolvable(phases, phaseType, shifted);
    if Resolvable(phases, phaseType, shifted) {
      assert Canonical(phases, types', shifted') == Canonical(phases, phaseType, shifted);
    }
  }

  /** Present entries never precede the offset, and an entry equals the
      offset exactly when its phase's first pick is an earliest pick. */
  lemma EntryAtOffsetIff(ds: Dataset, store: Store, idx: int, id: WaveformId, rec: Record, s: Sample, k: nat)
    requires RecordAt(ds, store, idx) == Ok((id, rec))
    requires ItemWithoutStack(ds, store, idx) == Ok(s)
    requires k < |ds.phases| && ds.phases[k] in rec.phaseType
    ensures |rec.phaseIndex| > 0 && IndexOf(rec.phaseType, ds.phases[k]) < |rec.phaseIndex|
    ensures s.phaseIndex[k] >= ds.firstArrivalOffset
    ensures s.phaseIndex[k] == ds.firstArrivalOffset <==>
              rec.phaseIndex[IndexOf(rec.phaseType, ds.phases[k])] == Min(rec.phaseIndex)
  {
    CanonicalPhaseVector(ds, store, idx, id, rec, s);
    var j := IndexOf(rec.phaseType, ds.phases[k]);
    assert rec.phaseIndex[j] in rec.phaseIndex;
  }

  /** When the offset lies above the sentinel, the sentinel marks exactly
      the canonical phases without a pick: it never collides with a real
      window-local index. */
  lemma SentinelMeansAbsent(ds: Dataset, store: Store, idx: int, id: WaveformId, rec: Record, s: Sample, k: nat)
    requires RecordAt(ds, store, idx) == Ok((id, rec))
    requires ItemWithoutStack(ds, store, idx) == Ok(s)
    requires ds.firstArrivalOffset > Sentinel
    requires k < |ds.phases|
    ensures k < |s.phaseIndex|
    ensures IsPresent(s.phaseIndex[k]) <==> ds.phases[k] in rec.phaseType
  {
    CanonicalPhaseVector(ds, store, idx, id, rec, s);
    if ds.phases[k] in rec.phaseType {
      EntryAtOffsetIff(ds, store, idx, id, rec, s, k);
    }
  }

  /** The crop keeps the channel count; when the window lies inside the
      record every channel is exactly the window; and (for a positive
      window length) a channel has the full window length only if the
      window lies inside the record or wraps around entirely from its end,
      since slicing clamps instead of raising. */
  lemma CropWindow(ds: Dataset, store: Store, idx: int, id: WaveformId, rec: Record, s: Sample, t: nat)
    requires RecordAt(ds, store, idx) == Ok((id, rec))
    requires ItemWithoutStack(ds, store, idx) == Ok(s)
    requires Rectangular(rec.data, t)
    ensures |s.data| == |rec.data|
    ensures 0 <= s.startIndex && s.endIndex <= t && 0 <= ds.windowLength ==>
              Rectangular(s.data, ds.windowLength as nat) &&
              forall c :: 0 <= c < |s.data| ==> s.data[c] == rec.data[c][s.startIndex..s.endIndex]
    ensures ds.windowLength > 0 && |rec.data| > 0 ==>
              (Rectangular(s.data, ds.windowLength as nat) <==>
                 (0 <= s.startIndex && s.endIndex <= t) || (-(t as int) <= s.startIndex && s.endIndex < 0))
  {
    WindowFixedAndAligned(ds, store, idx, id, rec, s);
    if ds.windowLength > 0 && |rec.data| > 0 {
      SliceFullLengthIff(rec.data[0], s.startIndex, ds.windowLength);
      assert s.data[0] == Slice(rec.data[0], s.startIndex, s.endIndex);
      forall c | 0 <= c < |rec.data|
        ensures |s.data[c]| == |s.data[0]|
      {
        SliceFullLengthIff(rec.data[c], s.startIndex, ds.windowLength);
        assert s.data[c] == Slice(rec.data[c], s.startIndex, s.endIndex);
      }
    }
  }

  /** A record with picks P at 500 and S at 900, canonical phases
      [P, S, PS], offset 400 and window length 4800. */
  const ExampleDataset: Dataset :=
    Dataset([WaveformId("11_52111", "A01")], 4800, ["P", "S", "PS"], 400)
  const ExampleRecord: Record :=
    Record(seq(3, _ => seq(6000, _ => 0.0)), "NET", [900, 500], ["S", "P"])
  const ExampleStore: Store := map["11_52111" := map["A01" := ExampleRecord]]

  /** The window is [100, 4900), the phase vector is [400, 800, sentinel]
      and each of the three channels holds 4800 samples. */
  lemma ExampleSample()
    ensures ItemWithoutStack(ExampleDataset, ExampleStore, 0).Ok?
    ensures var s := ItemWithoutStack(ExampleDataset, ExampleStore, 0).value;
            && s.startIndex == 100 && s.endIndex == 4900
            && s.phaseIndex == [400, 800, Sentinel]
            && s.phaseType == ["P", "S", "PS"]
            && |s.data| == 3 && Rectangular(s.data, 4800)
  {
  }
}
