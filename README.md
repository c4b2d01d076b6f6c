# seispy depth-data assembly and back-azimuth ordering, in Dafny

This project models two pieces of seispy, a receiver-function toolkit for seismology.

- `seispy/rf2depth_makedata.py`, `makedata`. It reads a station list into three parallel
  columns (`Station`), pre-allocates one 12-field record per station (`init_mat`), and then
  walks the stations in list order. For each station it:
  - loads the station's events (`SACStation`);
  - converts the receiver functions to depth (`psrf2depth`);
  - fills an events x depths matrix of piercing-point latitudes and longitudes, one event row
    at a time (`latlon_from`);
  - boxes the event and phase names into n x 1 object columns (`_convert_str_mat`);
  - writes the record's twelve fields, with the three matrices transposed to depth-major.

  The whole collection is saved once, after the last station (`savemat`).
- `seispy/plotRT.py`, `plotrt` without the drawing. It derives the station name and the event
  list path from an RF directory, checks that the list and the output directory exist, loads
  the events, and reorders event names, back-azimuths and both trace sets by one argsort of the
  back-azimuths (`read_process_data`). It also builds the time axis.

The numerical kernels are not part of this model: `SACStation`, `psrf2depth`, `latlon_from`,
`deg2km`, `rad2deg`, `np.argsort` and the `np.loadtxt` read of the station list. They enter as
a value `Externals.Library` of functions. `Externals.Sound` states the shape contracts this model
relies on (one further assumption about `latlon_from` is listed under "Left out"):
- a loaded station is well formed (every per-event array has `ev_num` entries, and every trace
  has `RFlength` samples);
- `psrf2depth` returns `ev_num` x `len(depth_axis)` matrices and one stop index per event;
- `argsort` returns a permutation that sorts its keys.

`Permutations.ArgSort` proves that such a permutation exists for every key list, so the last
requirement excludes no input. The configuration read by `ccppara` is given as a
`Rf2Depth.Config` value. The existence test of `plotrt` is a parameter `fileExists`. A kernel
that raises is modelled by `Wrappers.Result.Raise`, and the model propagates it as Python does.

Modules, one file each:
- `Wrappers`: `Result` and the Python exception value.
- `Paths`: `os.path.join` and `basename`, POSIX flavour.
- `Permutations`: fancy indexing, argsort, and permutations.
- `Matrices`: zeros and transposes.
- `Externals`: the kernels.
- `Runs`: a loop that stops at the first exception.
- `Rf2Depth`: `rf2depth_makedata.py`.
- `PlotRT`: `plotRT.py`.

The station loop of `makedata` is imperative, as in the source:
- `Rf2Depth.StationLoop` works over an `array<DepthRecord>` produced by `Rf2Depth.InitMat`,
  with the invariant "slots below i hold stations below i, slots from i on are still zero".
- `Rf2Depth.PierceMatrices` and `Rf2Depth.ConvertStrMat` are loops over zero-filled values.
- `Rf2Depth.FillSlot` performs the twelve field writes in source order.

Each of these methods is proved against a specification function: `Rf2Depth.Collect`,
`Rf2Depth.StationRecord`, `Rf2Depth.PierceLat`/`PierceLon` and `Rf2Depth.StrColumn`. The
lemmas prove the promised properties about those functions.

## Model

| member | source | states |
|---|---|---|
| Paths.Join | seispy/rf2depth_makedata.py:36 | `os.path.join(a, b)`; its shape is stated by `Paths.JoinShape`: it ends in `b`, and unless `b` is absolute `a` precedes it with one separator added exactly when `a` is non-empty and does not end in one |
| Paths.JoinShape | seispy/rf2depth_makedata.py:36 | `join(a, b)` ends in `b`; unless `b` is absolute, `a` precedes it, with one separator added exactly when `a` is non-empty and does not already end in one |
| Paths.Basename | seispy/plotRT.py:127 | `basename(p)` is a suffix of `p` without separators, and it is preceded by a separator whenever it is shorter than `p` |
| Paths.BasenameAfterSeparator | seispy/plotRT.py:127 | the basename of a path that ends in a separator followed by a component is that component |
| Paths.BasenameOfJoin | seispy/plotRT.py:127-128 | the basename of `join(dir, name)` is `name` for every component `name` |
| Paths.JoinEndsInComponent | seispy/plotRT.py:128 | `join(dir, name)` is non-empty and ends in the last character of `name`, not in a separator |
| Paths.JoinAfterTrailingSeparator | seispy/plotRT.py:128 | one trailing separator on the directory does not change `join` |
| Permutations.Take | seispy/plotRT.py:32-35 | fancy indexing `s[idx]` has one element per index |
| Permutations.ArgSortSorts | seispy/plotRT.py:31-33 | indexing the keys by their argsort gives a non-decreasing sequence |
| Permutations.PermutationKeepsMultiset | seispy/plotRT.py:32-35 | indexing by a permutation keeps the length and the multiset of elements |
| Permutations.TakeSameMultiset | seispy/plotRT.py:32-35 | index lists that are equal up to order select equal multisets |
| Permutations.InsertIndex | seispy/plotRT.py:31 | inserting an index into a sorted index list keeps it sorted and adds exactly that index |
| Permutations.ArgSortPrefix | seispy/plotRT.py:31 | insertion builds a sorting permutation of the first n indices |
| Permutations.ArgSort | seispy/plotRT.py:31 | every key list has an argsort: a permutation of its indices that sorts it |
| Matrices.Zeros | seispy/rf2depth_makedata.py:38-39 | `np.zeros([rows, cols])` has that shape |
| Matrices.Transpose | seispy/rf2depth_makedata.py:53-55 | `.T` of an n x c matrix is c x n |
| Matrices.TransposeTwice | seispy/rf2depth_makedata.py:53-55 | transposing twice gives the matrix back, so the stored layout loses no value |
| Runs.RunAll | seispy/rf2depth_makedata.py:34-56 | a completed run over n steps has n results |
| Runs.RunHoldsEachStep | seispy/rf2depth_makedata.py:34-56 | a completed run holds step s's result at position s |
| Runs.RunExtends | seispy/rf2depth_makedata.py:34-56 | one more successful step appends its result |
| Runs.RunStopsAtFirstFailure | seispy/rf2depth_makedata.py:34-56 | once a step raises, the run raises that exception whatever follows |
| Runs.RunOkIffNoStepRaises | seispy/rf2depth_makedata.py:34-56 | the run completes if and only if no step raises |
| Runs.RunRaisesFirstFailure | seispy/rf2depth_makedata.py:34-56 | a raising run raises the exception of a step that raised after all earlier steps completed |
| Rf2Depth.FixedWidthName | seispy/rf2depth_makedata.py:11-13 | the 'S20' read keeps a name's first 20 characters and nothing else |
| Rf2Depth.NewStation | seispy/rf2depth_makedata.py:9-13 | `Station` gives three parallel columns with one entry per list row, in file order |
| Rf2Depth.InitMat | seispy/rf2depth_makedata.py:16-20 | `init_mat(n)` gives a fresh array of exactly n records, each with all 12 named fields zero |
| Rf2Depth.StrColumnRoundTrip | seispy/rf2depth_makedata.py:23-27 | the boxed column is `len(s)` x 1, and unboxing it returns exactly `s`, in order |
| Rf2Depth.ConvertStrMat | seispy/rf2depth_makedata.py:23-27 | the loop over a zero n x 1 matrix produces the column whose row i boxes `s[i]` |
| Rf2Depth.Unbox | seispy/rf2depth_makedata.py:49 | reading a boxed column back gives one string per row |
| Rf2Depth.Distances | seispy/rf2depth_makedata.py:44 | `deg2km(rad2deg(x_s[j]))` has one distance per depth sample |
| Rf2Depth.LatLonFrom | seispy/rf2depth_makedata.py:43-44 | `latlon_from` over a distance vector gives one latitude and one longitude per sample |
| Rf2Depth.PierceMatrices | seispy/rf2depth_makedata.py:38-44 | the row-by-row loop over zero matrices yields `ev_num` x `len(depth_axis)` matrices equal to the event-major specification |
| Rf2Depth.PierceRowIsLocal | seispy/rf2depth_makedata.py:42-44 | row j depends only on the station, `bazi[j]` and `x_s[j]`; any event list that agrees on that event gives the same row |
| Rf2Depth.PierceFollowsEventOrder | seispy/rf2depth_makedata.py:42-44 | reordering the events reorders the piercing rows identically |
| Rf2Depth.EventListPath | seispy/rf2depth_makedata.py:36 | for a station name without separators, the event list's file name is `<station>finallist.dat` |
| Rf2Depth.Assemble | seispy/rf2depth_makedata.py:45-56 | the twelve written fields can be read back: the name columns unbox to the event and phase names, and the three stored matrices transpose back to the computed ones |
| Rf2Depth.StationRecord | seispy/rf2depth_makedata.py:36-56 | one iteration yields a record exactly when both `SACStation` and `psrf2depth` succeed |
| Rf2Depth.RecordMetadata | seispy/rf2depth_makedata.py:45-48 | slot i holds station i's name, latitude and longitude, and the shared depth axis |
| Rf2Depth.RecordEventFields | seispy/rf2depth_makedata.py:49-56 | events, phases, bazi, rayp and StopIndex hold the kernel's arrays in the kernel's order, all `ev_num` long |
| Rf2Depth.RecordTransposes | seispy/rf2depth_makedata.py:53-55 | the three stored matrices are depth x events, with `stored[d][e] == computed[e][d]` |
| Rf2Depth.Collect | seispy/rf2depth_makedata.py:34-56 | the loop over the first n stations, if it completes, has n records |
| Rf2Depth.CollectHoldsEachStation | seispy/rf2depth_makedata.py:34-56 | a completed loop holds station s's record in slot s |
| Rf2Depth.StationLoopOutcome | seispy/rf2depth_makedata.py:34-56 | the loop completes if and only if no station raises; otherwise it raises the exception of a station that raised after all earlier stations completed |
| Rf2Depth.SlotsFollowStationList | seispy/rf2depth_makedata.py:32-48 | a completed run has one record per list row, in list order, each with that row's name, coordinates and the one shared depth axis |
| Rf2Depth.MatStore.constructor | seispy/rf2depth_makedata.py:57 | nothing is saved before the run |
| Rf2Depth.MatStore.SaveMat | seispy/rf2depth_makedata.py:57 | one `savemat` call appends exactly one file to the write log |
| Rf2Depth.FillSlot | seispy/rf2depth_makedata.py:45-56 | the twelve writes leave slot i equal to the assembled record and change no other slot |
| Rf2Depth.ProcessStation | seispy/rf2depth_makedata.py:36-56 | one iteration returns station i's record or the kernel's exception; it writes only slot i, and only when no kernel raises |
| Rf2Depth.NextStation | seispy/rf2depth_makedata.py:34-56 | an iteration either extends the filled prefix by slot i, leaving later slots zero, or raises what the whole loop raises |
| Rf2Depth.StationLoop | seispy/rf2depth_makedata.py:34-56 | the loop visits stations in order, and its array ends equal to the specification's records, or it raises the first station's exception |
| Rf2Depth.MakeDataSpec | seispy/rf2depth_makedata.py:31-57 | the records `makedata` hands to `savemat`: an exception of the list loader propagates, and otherwise there is one record per list row |
| Rf2Depth.MakeData | seispy/rf2depth_makedata.py:30-57 | `makedata` returns None; the model's result is `MakeDataSpec`, whose `Ok` value is the records passed to `savemat`. It completes exactly when `MakeDataSpec` is `Ok`; then exactly one file holding those records is saved, after the loop, and on an exception `MakeData` raises `MakeDataSpec`'s exception and nothing is saved |
| PlotRT.TimeAxis | seispy/plotRT.py:36 | the time axis has `RFlength` entries, starts at `-shift` and steps by `sampling` |
| PlotRT.Reorder | seispy/plotRT.py:31-35 | reindexing by a full-length index list keeps the station well formed; `rayp`, `phase`, the event count and the trace length are unchanged |
| PlotRT.ProcessedData | seispy/plotRT.py:29-37 | `read_process_data` returns data exactly when the loader succeeds, and otherwise raises the loader's exception |
| PlotRT.ReadProcessData | seispy/plotRT.py:29-37 | rebinding the four fields one after the other produces exactly the specification `ProcessedData` |
| PlotRT.ProcessedDataIsOrdered | seispy/plotRT.py:30-36 | the data comes back exactly when loading succeeds; then bazi is non-decreasing, the four arrays are reordered by one argsort and keep their multisets, and the station stays well formed |
| PlotRT.EventsStayTogether | seispy/plotRT.py:31-35 | after reordering, position p holds one loaded event's name, back-azimuth and both traces, and distinct positions hold distinct events |
| PlotRT.RangeCountsOnce | seispy/plotRT.py:31 | every index occurs at most once in `arange(n)` |
| PlotRT.StationNameAsWritten | seispy/plotRT.py:127 | as written, the station name has no separator and is empty whenever `rfpath` ends in one |
| PlotRT.ListPathAsWritten | seispy/plotRT.py:128 | as written, the list's file name is the station name followed by `finallist.dat`, and after a trailing separator the list is `finallist.dat` directly inside `rfpath` |
| PlotRT.TrailingSeparatorLosesStation | seispy/plotRT.py:127-128 | as written, `RF/XHL01/` gives an empty station name and the list `RF/XHL01/finallist.dat` |
| PlotRT.StripTrailingSeparators | seispy/plotRT.py:127 | the result is the longest prefix that does not end in a separator; only separators were removed |
| PlotRT.StationName | seispy/plotRT.py:127 | the corrected station name has no separator and is non-empty whenever `rfpath` has anything besides trailing separators |
| PlotRT.ListPath | seispy/plotRT.py:128 | the list `plotrt` checks and reads is named `<station>finallist.dat` after the corrected station name |
| PlotRT.CorrectionAgreesWithoutTrailingSeparator | seispy/plotRT.py:127-128 | without a trailing separator, the corrected station name and list path equal the as-written ones |
| PlotRT.StripAfterComponent | seispy/plotRT.py:127 | separators added after a path that ends in a component are exactly what is removed |
| PlotRT.StationNameOfDirectory | seispy/plotRT.py:127 | the station name of `join(dir, name)`, with any number of trailing separators, is `name` |
| PlotRT.ListPathMatchesMakeData | seispy/plotRT.py:128 | for a station directory with at most one trailing separator, the list `plotrt` opens is the one `makedata` opens for that station |
| PlotRT.PlotRt | seispy/plotRT.py:126-134 | a missing list raises `FileExistsError('No such a final list as …')`; otherwise a missing output directory raises `FileExistsError('The output path … not exists')`; both checks come before any data is read. `plotrt` returns None; the model's `Ok` value stands for what the drawing code receives (the station name, the list path, the output path and `ProcessedData` of the list), and otherwise the loader's exception propagates |

## Left out

- Progress output (`print` at seispy/rf2depth_makedata.py:35) has no effect on the data.
- Configuration parsing (`ccppara`, seispy/rf2depth_makedata.py:31) is not modelled. The parsed values are given as `Rf2Depth.Config`.
- The internals of `SACStation`, `psrf2depth`, `latlon_from`, `deg2km`, `rad2deg`, `np.argsort` and `np.loadtxt` are not modelled. They are floating-point geometry, moveout numerics or file parsing, and their shape contracts in `Externals.Sound` are assumed, together with the per-sample reading of `latlon_from` below.
- The station list's text parsing, and the case of a one-row list, are not modelled. For one row, `np.loadtxt(..., unpack=True)` returns 0-d arrays, and `Station.__init__` raises `TypeError` when it iterates over them (seispy/rf2depth_makedata.py:13), before `shape[0]` is reached. The loader returns rows or raises, so a loader that raises for a one-row file covers this case.
- Numbers are modelled as mathematical reals. This leaves out the float32 rounding of station coordinates ('f4') and all floating-point rounding.
- Rf2Depth.FixedWidthName: the 'S20' limit is modelled as 20 characters. For names with multi-byte characters it is a limit of 20 bytes.
- The container mechanics of `savemat` (`oned_as='column'`, the MATLAB struct layout) are not modelled. `Rf2Depth.MatStore` records each call's path, variable name and records.
- Rf2Depth.MakeData: when a station raises, the partly filled local array is not described, because it is never saved or returned.
- The shared `depth_axis` is one value stored in every record. Aliasing of the numpy array between records is not modelled.
- `read_process_data` changes the attributes of a `SACStation` object that it created itself. This is modelled as rebinding a record value, because the object is not shared.
- `read_process_data` reorders `event`, `bazi`, `datar` and `datat` but leaves `rayp` and `phase` in file order, so afterwards those two no longer line up with the events. The model keeps this as written (`PlotRT.Reorder`). Nothing later in `plotRT.py` reads either field.
- Figure construction and drawing are not modelled: `init_figure`, `plot_waves`, `set_fig`, the enlargement factor `enf`, the PDF name with `f0`, and `savefig` (seispy/plotRT.py:12-124, 133, 135-137).
- The stacked-trace normalisation at seispy/plotRT.py:55-58 is floating-point averaging inside the drawing code, and is not modelled.
- The `argparse` entry point `main` and the `__main__` blocks with hard-coded paths are not modelled.
- Rf2Depth.LatLonFrom: `latlon_from`, `deg2km` and `rad2deg` take one value at a time, and the vector call at seispy/rf2depth_makedata.py:43-44 is modelled as one call per depth sample. `Externals.Sound` says nothing about `latlon_from`: that the kernel acts on each sample independently and returns one latitude and one longitude per sample is an assumption of this model. The `ev_num` x `len(depth_axis)` shape that `Rf2Depth.PierceMatrices` ensures follows from it.
- PlotRT.PlotRt: for a directory given with trailing separators, it uses the corrected station name (see Findings), not `basename(rfpath)` as written.
- PlotRT.TimeAxis: entry k is `k * sampling - shift` over the reals. The contract states the first entry and the constant step.

## Findings

| source | as written | input that shows it | evidently intended | confidence | as-written member | corrected member |
|---|---|---|---|---|---|---|
| seispy/plotRT.py:127-128 | `station = basename(rfpath)` is empty when `rfpath` ends in a separator, so `plotrt` looks for `rfpath/finallist.dat` and raises `FileExistsError` for a valid station directory | `rfpath = "RF/XHL01/"` gives station `""` and list `RF/XHL01/finallist.dat` | the last non-empty component, `XHL01`, and the list `RF/XHL01/XHL01finallist.dat`, which is the file `makedata` reads for that station (`realpath` is imported but never used) | not executed; high | PlotRT.TrailingSeparatorLosesStation | PlotRT.StationNameOfDirectory |
