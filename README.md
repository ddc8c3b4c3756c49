# AI4EPS training-sample bookkeeping, in Dafny

This project models the integer bookkeeping of the PhaseNet-TF dataset
class `Ai4epsDataset` and of `split_train_test_val_for_ai4eps`
(`src/data/components/ai4eps.py`), and proves what that bookkeeping
guarantees.

- **get_item_without_stack** (`Ai4epsDataset.GetItemWithoutStack`). It resolves a
  (possibly negative) Python index into `index_to_waveform_id` and looks up
  the record as `store[event_id][station_id]`. It takes the earliest pick
  and places the window at `start = min - offset` and `end = start + window_length`.
  It crops every channel to `[start:end]` with Python slice semantics and
  shifts every pick by `-start`. Finally it rebuilds the phase-index vector
  in the order of the canonical `phases` list. The method builds the sample
  step by step and appends to the vector in a `for` loop. It is proved
  equal to the functional specification `Ai4epsDataset.ItemWithoutStack`.
  The properties are lemmas about that function, in module `Ai4epsProperties`.
- **`__len__`** (`Ai4epsDataset.Len`). Its connection to indexing is
  proved in `OutOfRangeIffBeyondLen`.
- **The split** (`Ai4epsSplit.SplitAt`). This is `np.split(keys, [c1, c2])`
  over the shuffled unique keys: three consecutive slices.
- **Python built-ins** (module `PyList`). These are list indexing, slicing,
  `min` and `list.index`, each with Python's own semantics.

Errors are values (`Result`): `IndexOutOfRange` (IndexError on the index
list), `WaveformNotFound` (KeyError from the container), `EmptyPicks`
(ValueError from `min` of no picks), `PickIndexOutOfRange` (IndexError when
`phase_type` is longer than `phase_index` and a canonical phase's first
occurrence has no index).

Where a reader might expect otherwise, the model follows the code:

- The crop does not raise when the window leaves the record. Python
  slicing clamps, and wraps negative bounds. `CropWindow` states exactly
  when a channel still has the full window length.
- The crop and the shift use the locally computed `start_index`/`end_index`.
  They do not use bounds that a transform may write back into the sample.
- No construction-time check enforces `offset < window_length`.
- The absent-phase value is `-999999999`, not the `-1` of the source comment.
- A phase picked twice gets the index of its first occurrence in `phase_type`.

## Model

| member | source | states |
|---|---|---|
| PyList.Slice | src/data/components/ai4eps.py:100 | a slice is never longer than the list and is the plain subsequence when its bounds lie inside the list |
| PyList.SliceFullLengthIff | src/data/components/ai4eps.py:100 | a slice of fixed positive length has exactly that length iff the window lies inside the list or wraps entirely from its end (both directions) |
| PyList.Min | src/data/components/ai4eps.py:87 | `min` of a non-empty list is one of its elements and no element is smaller |
| PyList.IndexOf | src/data/components/ai4eps.py:108 | `list.index` returns a position holding the element, with no earlier occurrence |
| PyList.IndexOfAfterRemove | src/data/components/ai4eps.py:106-108 | removing a different element keeps membership and moves the first occurrence down by one exactly when it lay after the removed one |
| PyList.Wrap | src/data/components/ai4eps.py:74 | a valid Python index denotes a position below the length: the index itself, or the index plus the length when negative |
| PyList.SliceBound | src/data/components/ai4eps.py:100 | a slice bound is normalised into `[0, n]` (negative bounds count from the end, then clamp); also used at line 168 |
| Ai4epsDataset.Len | src/data/components/ai4eps.py:65 | no contract of its own: the length of `index_to_waveform_id`; its meaning is stated by `Ai4epsProperties.OutOfRangeIffBeyondLen` |
| Ai4epsDataset.RecordAt | src/data/components/ai4eps.py:74-77 | the lookup fails with IndexError exactly for an invalid Python index; a found record is `store[event_id][station_id]` for a listed key; which key, and the KeyError case, are stated by `Ai4epsProperties.ItemIsIndexedKey` |
| Ai4epsDataset.Window | src/data/components/ai4eps.py:87-90 | the window has length `window_length_in_npts` and starts `offset` samples before the earliest pick |
| Ai4epsDataset.Crop | src/data/components/ai4eps.py:100 | the crop keeps the channel count and gives each channel's `[start, end)` when the window lies inside it |
| Ai4epsDataset.Shift | src/data/components/ai4eps.py:102 | the shift keeps the pick count and moves each pick, position by position, by `-start` |
| Ai4epsDataset.Entry | src/data/components/ai4eps.py:106-110 | a canonical phase with a pick gets the shifted index of one of its picks (the first, by `CanonicalPhaseVector`); one without a pick gets `-999999999` |
| Ai4epsDataset.Canonical | src/data/components/ai4eps.py:104-111 | the rebuilt vector has one entry per canonical phase, the k-th being the entry of `phases[k]` |
| Ai4epsDataset.Expand | src/data/components/ai4eps.py:104-111 | the rebuild succeeds iff every present canonical phase's first position has an index, fails otherwise with the IndexError, and has length `len(phases)` |
| Ai4epsDataset.ItemWithoutStack | src/data/components/ai4eps.py:74-112 | the specified sample: a built sample has the window length, `len(phases)` entries, `phase_type` equal to the canonical list and the record's channel count; the other properties are the lemmas below |
| Ai4epsDataset.GetItemWithoutStack | src/data/components/ai4eps.py:74-112 | the step-by-step builder with its loop returns exactly the specified sample or error |
| Ai4epsProperties.MinShift | src/data/components/ai4eps.py:87-102 | shifting all picks by `-start` shifts their minimum by `-start` |
| Ai4epsProperties.OutOfRangeIffBeyondLen | src/data/components/ai4eps.py:65-74 | the lookup fails with IndexError iff the index is not in `[-__len__, __len__)`; in particular at `__len__` |
| Ai4epsProperties.ParallelPicksResolve | src/data/components/ai4eps.py:106-108 | with `phase_type` and `phase_index` of equal length, every canonical phase present has an index |
| Ai4epsProperties.ItemSucceedsIff | src/data/components/ai4eps.py:74-111 | a sample is built iff the record is found, has picks, and every present canonical phase has an index; a missing key gives the KeyError, no picks the `min` error, an unresolvable phase the IndexError |
| Ai4epsProperties.ItemIsIndexedKey | src/data/components/ai4eps.py:74-86 | sample `idx` comes from the key at position `idx` (or `idx + len` when negative) and from `store[event_id][station_id]`; a key missing from the container raises the KeyError; the sample's ids and network are that key's and that record's |
| Ai4epsProperties.WindowFixedAndAligned | src/data/components/ai4eps.py:79-94 | every sample's `end - start` is the window length, `start` is earliest pick minus offset, and the ids and network come from the record |
| Ai4epsProperties.EarliestPickAtOffset | src/data/components/ai4eps.py:87-102 | after the shift the earliest pick is exactly at the configured offset and no pick is before it |
| Ai4epsProperties.CanonicalPhaseVector | src/data/components/ai4eps.py:104-112 | the vector has one entry per canonical phase in canonical order: first pick's shifted index if present, `-999999999` if absent; `phase_type` becomes the canonical list |
| Ai4epsProperties.FirstPickWins | src/data/components/ai4eps.py:106-108 | for a phase picked several times the first pick in `phase_type` gives the entry |
| Ai4epsProperties.LaterDuplicateIgnored | src/data/components/ai4eps.py:106-108 | changing the index of a later duplicate pick leaves the vector unchanged |
| Ai4epsProperties.NonCanonicalPickDropped | src/data/components/ai4eps.py:105-110 | removing a pick whose type is not canonical leaves the vector unchanged |
| Ai4epsProperties.EntryAtOffsetIff | src/data/components/ai4eps.py:87-108 | a present entry is never below the offset, and equals it iff that phase's first pick is an earliest pick |
| Ai4epsProperties.SentinelMeansAbsent | src/data/components/ai4eps.py:109-110 | when the offset exceeds the sentinel, an entry is the sentinel iff its phase has no pick |
| Ai4epsProperties.CropWindow | src/data/components/ai4eps.py:100 | the crop keeps the channel count, gives `[start, end)` of each channel when inside the record, and has full window length iff inside or wrapped entirely |
| Ai4epsProperties.ExampleSample | src/data/components/ai4eps.py:79-112 | picks S at 900 and P at 500 with phases [P, S, PS], offset 400 and length 4800 give window [100, 4900) and vector [400, 800, sentinel] |
| Ai4epsSplit.SplitAt | src/data/components/ai4eps.py:167-168 | for `0 <= c1 <= c2` the three lists concatenate back to the shuffled keys; which slices they are is stated by `SplitConcatenates` |
| Ai4epsSplit.SplitConcatenates | src/data/components/ai4eps.py:167-168 | for `0 <= c1 <= c2` the three lists are the consecutive slices at the clamped cuts, and together they give back the shuffled keys |
| Ai4epsSplit.SplitIsPartition | src/data/components/ai4eps.py:162-168 | for unique keys in any shuffled order the lists are pairwise disjoint and their union, counted with multiplicity, is the key set |
| Ai4epsSplit.SplitSizes | src/data/components/ai4eps.py:167-168 | with cuts inside the list the sizes are `c1`, `c2 - c1` and `n - c2` |
| Ai4epsSplit.CrossedCutsDuplicate | src/data/components/ai4eps.py:167-168 | if the cuts cross, the test list is empty and the keys between the cuts go to both train and val |

## Left out

- `generate_label`, `normalize_waveform` and `stack_rand` are not part of this model. They live in `src/data/components/utils`. Their curves, normalisation and stacking are floating-point arithmetic. The sample therefore has no label.
- `__getitem__` is left out. Its random stacking decision (`torch.rand`, `torch.randint`) and its second normalisation depend on the randomness and the helpers above. Popping `start_index`/`end_index` is bookkeeping only.
- The HDF5 file and its lazy opening are left out. The container is a nested map `event_id -> station_id -> record`. Both KeyError levels become `WaveformNotFound`. A record missing the `network`, `phase_index` or `phase_type` attribute is not modelled.
- The optional `transform` is the identity.
- Waveform amplitudes are `real`s that are carried and sliced, never computed on. `float32` and the tensor conversion of `phase_index` are not modelled.
- `Ai4epsDataset.Len` has no contract of its own. It is the length of `index_to_waveform_id`, and its meaning is stated by `OutOfRangeIffBeyondLen`.
- The label shape, label width and stacking ratio constructor arguments are not fields of `Dataset`, since nothing modelled reads them.
- `pd.read_csv` and `drop_duplicates` are left out. Their result is the `Unique` precondition of `SplitIsPartition`.
- `rng.shuffle` is left out. The shuffled keys are an input, and `SplitIsPartition` only assumes they are a permutation of the unique keys. The in-place update and the seeded draw order are not modelled.
- The cut points `int(ratio * n)` are integer inputs, since they are computed in floating point.
- `src/models/loss/focal_loss.py` is left out. It is a floating-point formula over tensors.
