/** `seispy/plotRT.py`, without the drawing: locate a station's event list from its RF
    directory, read the events, and order them by back-azimuth for plotting. */
module PlotRT {
  import opened Wrappers
  import opened Paths
  import opened Permutations
  import opened Externals
  import Rf2Depth

  // ---------------------------------------------------------------------------------------
  // read_process_data

  /** `np.arange(n) * sampling - shift`: `n` samples, `sampling` apart, starting at `-shift`. */
  function TimeAxis(n: nat, sampling: real, shift: real): (t: seq<real>)
    ensures |t| == n
    ensures n > 0 ==> t[0] == -shift
    ensures forall k :: 0 < k < n ==> t[k] - t[k - 1] == sampling
  {
    seq(n, k requires 0 <= k < n => k as real * sampling - shift)
  }

  /** `st` with `event`, `bazi`, `datar` and `datat` all reindexed by `idx`; every other field,
      `rayp` and `phase` included, is as loaded. */
  function Reorder(st: SacStation, idx: seq<int>): (r: SacStation)
    requires WellFormed(st) && InBounds(idx, st.evNum)
    ensures r.evNum == st.evNum && r.rfLength == st.rfLength
    ensures r.rayp == st.rayp && r.phase == st.phase
    ensures |idx| == st.evNum ==> WellFormed(r)
  {
    st.(event := Take(st.event, idx), bazi := Take(st.bazi, idx),
        datar := Take(st.datar, idx), datat := Take(st.datat, idx))
  }

  datatype Processed = Processed(stadata: SacStation, timeAxis: seq<real>)

  /** What `read_process_data(lst)` returns: the loaded station reordered by one argsort of its
      back-azimuths, and its time axis; an exception of the loader propagates. */
  function ProcessedData(lib: Library, lst: string): (r: Result<Processed>)
    requires Sound(lib)
    ensures r.Ok? <==> lib.sacStation(lst).Ok?
    ensures r.Raise? ==> r.exc == lib.sacStation(lst).exc
  {
    match lib.sacStation(lst)
    case Raise(e) => Raise(e)
    case Ok(st) =>
      var idx := lib.argsort(st.bazi);
      Ok(Processed(Reorder(st, idx), TimeAxis(st.rfLength, st.sampling, st.shift)))
  }

  /** `read_process_data(lst)`: load the station, take one argsort of the back-azimuths and
      overwrite the four per-event fields, one after the other, with copies reordered by it;
      then build the time axis. */
  method ReadProcessData(lib: Library, lst: string) returns (r: Result<Processed>)
    requires Sound(lib)
    ensures r == ProcessedData(lib, lst)
  {
    var loaded := lib.sacStation(lst);
    if loaded.Raise? {
      return Raise(loaded.exc);
    }
    var stadata := loaded.value;
    var idx := lib.argsort(stadata.bazi);
    PermutationLength(idx, stadata.evNum);
    stadata := stadata.(event := Take(stadata.event, idx));
    stadata := stadata.(bazi := Take(stadata.bazi, idx));
    stadata := stadata.(datar := Take(stadata.datar, idx));
    stadata := stadata.(datat := Take(stadata.datat, idx));
    var timeAxis := TimeAxis(stadata.rfLength, stadata.sampling, stadata.shift);
    r := Ok(Processed(stadata, timeAxis));
  }

  /** The data comes back exactly when the loader succeeds; then its back-azimuths are in
      non-decreasing order, the four reordered arrays keep their elements (ties in any
      order), the station stays well formed, and the time axis has one entry per sample. */
  lemma ProcessedDataIsOrdered(lib: Library, lst: string)
    requires Sound(lib)
    ensures ProcessedData(lib, lst).Ok? <==> lib.sacStation(lst).Ok?
    ensures ProcessedData(lib, lst).Ok? ==>
      var before := lib.sacStation(lst).value;
      var after := ProcessedData(lib, lst).value.stadata;
      var idx := lib.argsort(before.bazi);
      IsArgSort(idx, before.bazi) && after == Reorder(before, idx) &&
      WellFormed(after) && NonDecreasing(after.bazi) &&
      multiset(after.event) == multiset(before.event) &&
      multiset(after.bazi) == multiset(before.bazi) &&
      multiset(after.datar) == multiset(before.datar) &&
      multiset(after.datat) == multiset(before.datat) &&
      |ProcessedData(lib, lst).value.timeAxis| == before.rfLength
  {
    if lib.sacStation(lst).Ok? {
      var before := lib.sacStation(lst).value;
      var idx := lib.argsort(before.bazi);
      PermutationLength(idx, before.evNum);
      ArgSortSorts(before.bazi, idx);
      PermutationKeepsMultiset(before.event, idx);
      PermutationKeepsMultiset(before.bazi, idx);
      PermutationKeepsMultiset(before.datar, idx);
      PermutationKeepsMultiset(before.datat, idx);
    }
  }

  /** After the reordering, position p still carries one loaded event whole: its name, its
      back-azimuth and both of its traces, and different positions carry different events. */
  lemma EventsStayTogether(before: SacStation, after: SacStation, idx: seq<int>)
    requires WellFormed(before) && InBounds(idx, before.evNum) && IsPermutation(idx, before.evNum)
    requires after == Reorder(before, idx)
    ensures |idx| == after.evNum
    ensures forall p :: 0 <= p < after.evNum ==>
              after.event[p] == before.event[idx[p]] && after.bazi[p] == before.bazi[idx[p]] &&
              after.datar[p] == before.datar[idx[p]] && after.datat[p] == before.datat[idx[p]]
    ensures forall p, q :: 0 <= p < q < |idx| ==> idx[p] != idx[q]
  {
    PermutationLength(idx, before.evNum);
    forall p, q | 0 <= p < q < |idx| ensures idx[p] != idx[q] {
      RangeCountsOnce(before.evNum, idx[p]);
      var left, middle, right := idx[..p], idx[p + 1..q], idx[q + 1..];
      assert idx == left + [idx[p]] + middle + [idx[q]] + right;
      assert multiset(idx) == multiset(left) + multiset{idx[p]} + multiset(middle) +
                              multiset{idx[q]} + multiset(right);
    }
  }

  /** Every value occurs at most once in `np.arange(n)`. */
  lemma {:induction false} RangeCountsOnce(n: nat, v: int)
    ensures multiset(Range(n))[v] <= 1
  {
    if n > 0 {
      RangeCountsOnce(n - 1, v);
      assert Range(n) == Range(n - 1) + [n - 1];
      if v == n - 1 {
        assert v !in Range(n - 1);
      }
    }
  }

  // ---------------------------------------------------------------------------------------
  // plotrt: station name, list path and the existence guards

  /** The station name as `plotrt` writes it: `basename(rfpath)`. */
  function StationNameAsWritten(rfpath: string): (name: string)
    ensures Sep !in name
    ensures rfpath != [] && rfpath[|rfpath| - 1] == Sep ==> name == []
  {
    Basename(rfpath)
  }

  /** The event list as `plotrt` writes it: `join(rfpath, basename(rfpath) + 'finallist.dat')`;
      after a trailing separator this is `finallist.dat` directly inside `rfpath`. */
  function ListPathAsWritten(rfpath: string): (p: string)
    ensures Basename(p) == StationNameAsWritten(rfpath) + ListSuffix
    ensures rfpath != [] && rfpath[|rfpath| - 1] == Sep ==> p == rfpath + ListSuffix
  {
    assert Sep !in ListSuffix;
    BasenameOfJoin(rfpath, StationNameAsWritten(rfpath) + ListSuffix);
    FinalListPath(rfpath, StationNameAsWritten(rfpath))
  }

  /** `n` separators. */
  function Separators(n: nat): (s: string)
    ensures |s| == n
  {
    seq(n, _ => Sep)
  }

  /** As written, a directory given with a trailing separator yields an empty station name,
      and the event list looked for is `finallist.dat` instead of `<station>finallist.dat`. */
  lemma TrailingSeparatorLosesStation()
    ensures StationNameAsWritten("RF/XHL01/") == ""
    ensures ListPathAsWritten("RF/XHL01/") == "RF/XHL01/finallist.dat"
  {
    var rfpath := "RF/XHL01/";
    assert rfpath[|rfpath| - 1] == Sep;
    assert rfpath + ListSuffix == "RF/XHL01/finallist.dat";
  }

  /** `p` without its trailing separators. */
  function StripTrailingSeparators(p: string): (r: string)
    ensures |r| <= |p| && r == p[..|r|]
    ensures r == [] || r[|r| - 1] != Sep
    ensures forall k :: |r| <= k < |p| ==> p[k] == Sep
    decreases |p|
  {
    if p != [] && p[|p| - 1] == Sep then StripTrailingSeparators(p[..|p| - 1]) else p
  }

  /** The station name: the last component of `rfpath`, trailing separators ignored. */
  function StationName(rfpath: string): (name: string)
    ensures Sep !in name
    ensures StripTrailingSeparators(rfpath) != [] ==> name != []
  {
    Basename(StripTrailingSeparators(rfpath))
  }

  /** The event list `plotrt` checks and reads: `join(rfpath, station + 'finallist.dat')`. */
  function ListPath(rfpath: string): (p: string)
    ensures Basename(p) == StationName(rfpath) + ListSuffix
  {
    assert Sep !in ListSuffix;
    BasenameOfJoin(rfpath, StationName(rfpath) + ListSuffix);
    FinalListPath(rfpath, StationName(rfpath))
  }

  /** Without a trailing separator, the corrected name and list are the ones `plotrt` uses. */
  lemma CorrectionAgreesWithoutTrailingSeparator(rfpath: string)
    requires rfpath == [] || rfpath[|rfpath| - 1] != Sep
    ensures StationName(rfpath) == StationNameAsWritten(rfpath)
    ensures ListPath(rfpath) == ListPathAsWritten(rfpath)
  {
  }

  /** Trailing separators after the last component are dropped and nothing else is. */
  lemma {:induction false} StripAfterComponent(p: string, m: nat)
    requires p != [] && p[|p| - 1] != Sep
    ensures StripTrailingSeparators(p + Separators(m)) == p
    decreases m
  {
    if m > 0 {
      assert (p + Separators(m))[..|p| + m - 1] == p + Separators(m - 1);
      StripAfterComponent(p, m - 1);
    } else {
      assert p + Separators(0) == p;
    }
  }

  /** The station name of `join(dir, name)` is `name`, with or without trailing separators. */
  lemma StationNameOfDirectory(dir: string, name: string, m: nat)
    requires IsComponent(name)
    ensures StationName(Join(dir, name) + Separators(m)) == name
  {
    JoinEndsInComponent(dir, name);
    StripAfterComponent(Join(dir, name), m);
    BasenameOfJoin(dir, name);
  }

  /** The list `plotrt` opens for a station directory, given with at most one trailing
      separator, is the list `makedata` opens for that station. */
  lemma ListPathMatchesMakeData(root: string, name: string, m: nat)
    requires IsComponent(name) && m <= 1
    ensures ListPath(Join(root, name) + Separators(m)) == Rf2Depth.EventListPath(root, name)
  {
    var p, b := Join(root, name), name + ListSuffix;
    var q := p + Separators(m);
    StationNameOfDirectory(root, name, m);
    assert ListPath(q) == Join(q, b);
    assert Rf2Depth.EventListPath(root, name) == Join(p, b);
    JoinEndsInComponent(root, name);
    if m == 1 {
      assert q == p + [Sep];
      JoinAfterTrailingSeparator(p, b);
    } else {
      assert q == p;
    }
  }

  datatype Plot = Plot(station: string, lst: string, outPath: string, data: Processed)

  /** `plotrt(rfpath, out_path)` up to the figure: the list file and then the output directory
      must exist, both checked before any data is read; then the data is read and ordered. */
  method PlotRt(lib: Library, fileExists: string -> bool, rfpath: string, outPath: string := "./")
    returns (r: Result<Plot>)
    requires Sound(lib)
    ensures !fileExists(ListPath(rfpath)) ==>
              r == Raise(FileExistsError("No such a final list as " + ListPath(rfpath)))
    ensures fileExists(ListPath(rfpath)) && !fileExists(outPath) ==>
              r == Raise(FileExistsError("The output path " + outPath + " not exists"))
    ensures fileExists(ListPath(rfpath)) && fileExists(outPath) ==>
              match ProcessedData(lib, ListPath(rfpath))
              case Raise(e) => r == Raise(e)
              case Ok(data) => r == Ok(Plot(StationName(rfpath), ListPath(rfpath), outPath, data))
  {
    var station := StationName(rfpath);
    var lst := ListPath(rfpath);
    if !fileExists(lst) {
      return Raise(FileExistsError("No such a final list as " + lst));
    }
    if !fileExists(outPath) {
      return Raise(FileExistsError("The output path " + outPath + " not exists"));
    }
    var processed := ReadProcessData(lib, lst);
    if processed.Raise? {
      return Raise(processed.exc);
    }
    r := Ok(Plot(station, lst, outPath, processed.value));
  }
}
