# cateye classifier adapters in Dafny

This project models how `cateye` post-processes the output of its two gaze-event
classification backends, NSLR-HMM and REMoDNaV, into a common (segments, classes)
result. The backends are not modelled. Their output is an input to the model:

- for NSLR-HMM, the per-sample ids, the segment list and the per-segment ids;
- for REMoDNaV, the array of event records.

The modules are:

- `Taxonomy` (`taxonomy.dfy`): the three label tables `CLASSES`, `REMODNAV_CLASSES` and `REMODNAV_SIMPLE`, and the element-wise dictionary lookup that fails on the first missing key.
- `Outputs` (`outputs.dfy`): the exceptions the post-processing raises, the 2- or 3-tuple result, and the type of the continuous-format converter.
- `NslrAdapter` (`nslr.dfy`): segment starts, the optional conversion, the mapping through `CLASSES` and the return shape of `classify_nslr_hmm`.
- `RemodnavAdapter` (`remodnav.dfy`): the in-place re-alignment of event times to the caller's time origin (a method over an array, with a loop invariant), the extraction of start times and names, and the return shape of `classify_remodnav`.
- `TimeBase` (`timebase.dfy`): the time vector synthesized from a scalar sampling rate, as written and corrected (see Findings).
- `Wrappers` (`wrappers.dfy`): a `Result` type.

Python exceptions are `Failure` values of `Outputs.Error`:

- `KeyError` for an unknown NSLR-HMM id or REMoDNaV code;
- `IndexError` for a segment without times or an empty `times` vector;
- `ValueError` when `zip(*[])` over no events leaves nothing to unpack.

NSLR-HMM's four class constants are distinct constructors of `Taxonomy.NslrId`. `Unclassified` is the Python `None` key, and `Other(raw)` stands for any other id. Times are `real`.

## Model

| member | source | states |
|---|---|---|
| Taxonomy.ClassesDomain | cateye/cateye.py:18-22 | `CLASSES` is defined exactly on the four NSLR-HMM classes and `None`, which map to "Fixation", "Saccade", "Smooth Pursuit", "PSO" and "None"; any other id is missing |
| Taxonomy.ClassesInjective | cateye/cateye.py:18-22 | distinct NSLR-HMM ids have distinct names |
| Taxonomy.RemodnavTablesShareKeys | cateye/cateye.py:24-34 | `REMODNAV_CLASSES` and `REMODNAV_SIMPLE` both have exactly the keys FIXA, SACC, ISAC, PURS, HPSO, LPSO, IHPS, ILPS |
| Taxonomy.RemodnavSimpleRange | cateye/cateye.py:31-34 | the values of `REMODNAV_SIMPLE` are exactly Fixation, Saccade, Smooth Pursuit and PSO, as the `simple_output` documentation promises |
| Taxonomy.RemodnavSimpleCoarsensFull | cateye/cateye.py:24-34 | the simplified name of every code is the coarsening of its full name: FIXA, SACC and PURS keep their name, ISAC becomes Saccade, the four PSO variants become PSO |
| Taxonomy.RemodnavClassesInjective | cateye/cateye.py:24-29 | the full table gives eight different names to the eight codes |
| Taxonomy.RemodnavTable | cateye/cateye.py:174 | the chosen table is `REMODNAV_SIMPLE` iff `simple_output`; it is defined on all eight codes, and in simple mode every value is a base category |
| Taxonomy.Translate | cateye/cateye.py:92 | a list comprehension of dictionary lookups succeeds iff every key is in the table; it then has one name per key, in order; otherwise it fails with the first missing key |
| Outputs.Package | cateye/cateye.py:94-99 | the result is a 3-tuple iff `return_orig_output`, carrying the original output; its first two components are the segments and classes either way |
| NslrAdapter.SegmentStarts | cateye/cateye.py:84 | segments are the first time of each backend segment, in order and one per segment; a segment without times raises IndexError |
| NslrAdapter.MapClasses | cateye/cateye.py:92 | mapping through `CLASSES` preserves length and maps element-wise; it fails (KeyError) iff some id is not one of the four classes or `None`, and then reports the first such id in order |
| NslrAdapter.ClassifyNslrHmm | cateye/cateye.py:84-99 | discrete output: segment starts, plus `CLASSES` applied element-wise to `seg_class`. Continuous output: the converter's segments, plus `CLASSES` applied to the converter's ids. The backend's output is returned iff asked for. An empty segment fails first. After that, only the converter (continuous mode) can fail, and its exception passes through; otherwise the only failure is the KeyError of the first unknown id |
| NslrAdapter.NslrReturnShape | cateye/cateye.py:94-99 | `return_orig_output` switches only between 2- and 3-tuple; success, segments, classes and errors are the same |
| RemodnavAdapter.Shift | cateye/cateye.py:170-171 | moving one event keeps its label and duration and moves start and end by the offset |
| RemodnavAdapter.RealignedAt | cateye/cateye.py:169-171 | the k-th re-aligned event is the k-th event moved by `times[0]` |
| RemodnavAdapter.RealignedEvents | cateye/cateye.py:169-171 | after re-alignment the event count is unchanged; each start and end time is the original plus `times[0]`; each duration and each label is unchanged |
| RemodnavAdapter.RealignedUndo | cateye/cateye.py:169-171 | shifting back by the origin restores the backend's local event times |
| RemodnavAdapter.RealignedCompose | cateye/cateye.py:169-171 | two re-alignments are one re-alignment by the sum of the offsets |
| RemodnavAdapter.Realign | cateye/cateye.py:169-171 | the in-place loop leaves the array equal to the re-aligned original events; every event is shifted, and only by `times[0]` |
| RemodnavAdapter.ExtractSegments | cateye/cateye.py:174-175 | succeeds iff there is at least one event and every label is a known code. It then gives equal-length segments and classes, one per event in order: the event's start time and its name in the chosen table (a base category in simple mode). No events is a ValueError; an unknown label is a KeyError naming the first unknown label in event order |
| RemodnavAdapter.Finish | cateye/cateye.py:174-185 | a failed extraction is the result. Discrete output is the extraction itself. Continuous output is the converter applied to it, and a converter exception passes through unchanged. The 3-tuple carries the re-aligned events |
| RemodnavAdapter.ClassifyRemodnav | cateye/cateye.py:168-185 | with events and an empty `times` it raises IndexError and changes nothing. Otherwise the events are re-aligned in place by `times[0]` and the result is `Finish` of the re-aligned events. No events is a ValueError |
| RemodnavAdapter.RealignedSegments | cateye/cateye.py:169-175 | the discrete segments of re-aligned events are the local start times plus `times[0]`, with the same classes as before re-alignment |
| RemodnavAdapter.FirstSegmentAtOrigin | cateye/cateye.py:169-175 | when the first local event starts at 0.0, the first output segment starts at `times[0]` |
| RemodnavAdapter.RemodnavReturnShape | cateye/cateye.py:182-185 | `return_orig_output` switches only between 2- and 3-tuple; success, segments, classes and errors are the same |
| TimeBase.ArangeAsWritten | cateye/cateye.py:77 | `np.arange(0, len(x), 1/time)` has `len(x) * rate` times, the k-th being k / rate |
| TimeBase.SampleTimes | cateye/cateye.py:153 | the intended vector has one time per sample, starts at 0 and has uniform spacing 1 / rate |
| TimeBase.ArangePrefix | cateye/cateye.py:77 | the vector as written begins with the intended one and is longer than the sample count whenever the rate exceeds 1 Hz |
| TimeBase.ArangeCountExample | cateye/cateye.py:153 | five samples at 2 Hz give ten times as written, against the five times [0, 0.5, 1.0, 1.5, 2.0] intended |

## Left out

- The backends `nslr_hmm.classify_gaze` and `remodnav.clf.EyegazeClassifier` (construction, `preproc`, call): foreign libraries whose results are inputs here.
- `discrete_to_continuous`: `cateye/utils.py` is not part of this model. The converter is a function parameter that may return a result or raise (`MalformedSegmentation`). It is taken to be total and deterministic, and to return labels of the type it was given: strings for REMoDNaV, never Python `None` for unlabelled samples. Beyond that, nothing is assumed about whether it raises or what it returns. The model keeps the order in which it is applied: for NSLR-HMM before the `CLASSES` mapping, on raw ids; for REMoDNaV after the table lookup, on names.
- Sampling-rate inference and the irregular-sampling warning (`cateye/cateye.py:154-158`): floating-point `np.std`/`np.mean` and a warning, which only feed the backend.
- Both adapters take an explicit time vector. Building one from a scalar rate is modelled on its own in `TimeBase`, and only for whole-number rates in hertz.
- `np.vstack` and `np.core.records.fromarrays`: they only format input for the backends.
- Floating-point rounding of the time shift: times are exact reals.
- TimeBase.ArangeAsWritten: the count `len(x) * rate` and the elements `k / rate` are exact arithmetic. NumPy counts `ceil(len(x) / fl(1/rate))` elements in doubles, which can be one more: `len(x) = 1` at 49 Hz gives 50. Its k-th element is `k * fl(1/rate)`, which can differ from `k / rate` in the last bits. A rate of 0, where `1/time` raises ZeroDivisionError, is excluded by `requires rate > 0`.
- TimeBase.ArangePrefix: the prefix equality holds in exact arithmetic only. In doubles the shared elements can differ in the last bits (`3 * fl(0.1)` is not `0.3` at 10 Hz), and the count can be one higher, as for TimeBase.ArangeAsWritten.
- `cateye/__init__.py`: it only re-exports names.
- RemodnavAdapter.Finish and NslrAdapter.ClassifyNslrHmm: in continuous mode they state nothing about how the segments and labels relate to the time vector, because the converter is outside this model.

## Findings

| source | as written | input that shows it | evidently intended | confidence | as-written member | corrected member |
|---|---|---|---|---|---|---|
| cateye/cateye.py:77 | with a scalar sampling rate, the time vector is `np.arange(0, len(x), 1/time)`: every period below `len(x)` seconds, i.e. `len(x) * rate` times | `len(x) == 5`, `time = 2`: ten times 0, 0.5, ..., 4.5 for five samples | one time per sample, `[0, 0.5, 1.0, 1.5, 2.0]` (`np.arange(len(x)) / time`) | medium, not executed | TimeBase.ArangeAsWritten, TimeBase.ArangeCountExample | TimeBase.SampleTimes |
| cateye/cateye.py:153 | the same expression in `classify_remodnav` | as above | as above | medium, not executed | TimeBase.ArangeAsWritten, TimeBase.ArangePrefix | TimeBase.SampleTimes |
