/** `seispy/rf2depth_makedata.py`: for every station of the list, convert its receiver
    functions to depth, compute the piercing points of every event at every depth, and
    assemble one 12-field record per station; the collection is saved once at the end. */
module Rf2Depth {
  import opened Wrappers
  import opened Paths
  import opened Matrices
  import opened Permutations
  import opened Externals
  import opened Runs

  /** The values of `ccppara(cfg_file)` that `makedata` reads. */
  datatype Config = Config(
    stalist: string,
    rfpath: string,
    depthAxis: seq<real>,
    velmod: VelocityModel,
    raypLib: RaypLibrary,
    depthdat: string)

  // ---------------------------------------------------------------------------------------
  // Station: the station list as three parallel columns

  /** Station names are read with the fixed-width dtype 'S20'. */
  const NameWidth: nat := 20

  /** A name after the round trip through 'S20' and `.decode()`: cut to its first 20 characters. */
  function FixedWidthName(name: string): (r: string)
    ensures |r| == if |name| <= NameWidth then |name| else NameWidth
    ensures r == name[..|r|]
  {
    if |name| <= NameWidth then name else name[..NameWidth]
  }

  datatype Station = Station(station: seq<string>, stla: seq<real>, stlo: seq<real>)

  /** The three columns describe the same stations. */
  predicate Parallel(sta: Station)
  {
    |sta.station| == |sta.stla| && |sta.stla| == |sta.stlo|
  }

  /** `Station(sta_lst)`: `np.loadtxt(..., unpack=True)` turns the rows into columns, in file
      order. */
  function NewStation(rows: seq<StationRow>): (sta: Station)
    ensures Parallel(sta) && |sta.stla| == |rows|
    ensures forall i :: 0 <= i < |rows| ==>
              sta.station[i] == FixedWidthName(rows[i].name) &&
              sta.stla[i] == rows[i].lat && sta.stlo[i] == rows[i].lon
  {
    Station(seq(|rows|, i requires 0 <= i < |rows| => FixedWidthName(rows[i].name)),
            seq(|rows|, i requires 0 <= i < |rows| => rows[i].lat),
            seq(|rows|, i requires 0 <= i < |rows| => rows[i].lon))
  }

  // ---------------------------------------------------------------------------------------
  // The per-station record: a numpy structured element with 12 object ('O') fields

  /** The Python objects stored in the record fields. */
  datatype Obj =
    | Zero                         // what `np.zeros` leaves in an object field
    | Text(text: string)
    | Scalar(x: real)
    | Vector(v: seq<real>)
    | Indices(ix: seq<int>)
    | Matrix(rows: seq<seq<real>>)
    | StrArray(strs: seq<string>)
    | ObjMatrix(cells: seq<seq<Obj>>)

  /** One element of `init_mat`'s structured array: its 12 object fields, under the names the
      saved file uses. */
  datatype DepthRecord = DepthRecord(
    Station: Obj,
    stalat: Obj,
    stalon: Obj,
    Depthrange: Obj,
    events: Obj,
    bazi: Obj,
    rayp: Obj,
    phases: Obj,
    moveout_correct: Obj,
    Piercelat: Obj,
    Piercelon: Obj,
    StopIndex: Obj)

  /** One element of `np.zeros(n, dtype)`: every field holds `Zero`. */
  function ZeroRecord(): DepthRecord
  {
    DepthRecord(Zero, Zero, Zero, Zero, Zero, Zero, Zero, Zero, Zero, Zero, Zero, Zero)
  }

  /** `init_mat(sta_num)`: one zero record slot per station. */
  method InitMat(staNum: nat) returns (rf: array<DepthRecord>)
    ensures fresh(rf) && rf.Length == staNum
    ensures forall i :: 0 <= i < staNum ==> rf[i] == ZeroRecord()
  {
    rf := new DepthRecord[staNum](_ => ZeroRecord());
  }

  // ---------------------------------------------------------------------------------------
  // _convert_str_mat: strings boxed into an n x 1 object matrix

  /** The n x 1 object matrix whose row i holds a one-element array of `s[i]`. */
  function StrColumn(s: seq<string>): seq<seq<Obj>>
  {
    seq(|s|, i requires 0 <= i < |s| => [StrArray([s[i]])])
  }

  /** An n x 1 object matrix of one-element string arrays. */
  predicate IsStrColumn(mat: seq<seq<Obj>>)
  {
    forall i :: 0 <= i < |mat| ==>
      |mat[i]| == 1 && mat[i][0].StrArray? && |mat[i][0].strs| == 1
  }

  /** The strings a reader of the saved file gets back from such a column, in row order. */
  function Unbox(mat: seq<seq<Obj>>): (s: seq<string>)
    requires IsStrColumn(mat)
    ensures |s| == |mat|
  {
    seq(|mat|, i requires 0 <= i < |mat| => mat[i][0].strs[0])
  }

  /** Boxing keeps the length and the order: unboxing returns exactly the input. */
  lemma StrColumnRoundTrip(s: seq<string>)
    ensures IsStrColumn(StrColumn(s)) && IsMatrix(StrColumn(s), |s|, 1)
    ensures Unbox(StrColumn(s)) == s
  {
  }

  /** `_convert_str_mat(instr)`: a zero n x 1 object matrix whose cells are filled in row order. */
  method ConvertStrMat(instr: seq<string>) returns (mat: seq<seq<Obj>>)
    ensures mat == StrColumn(instr)
  {
    mat := seq(|instr|, _ => [Zero]);
    for i := 0 to |instr|
      invariant |mat| == |instr|
      invariant forall k :: 0 <= k < i ==> mat[k] == [StrArray([instr[k]])]
      invariant forall k :: i <= k < |instr| ==> mat[k] == [Zero]
    {
      mat := mat[i := mat[i][0 := StrArray([instr[i]])]];
    }
  }

  // ---------------------------------------------------------------------------------------
  // Piercing points

  /** `deg2km(rad2deg(x))`, element by element. */
  function Distances(lib: Library, xsRow: seq<real>): (dist: seq<real>)
    ensures |dist| == |xsRow|
  {
    seq(|xsRow|, d requires 0 <= d < |xsRow| => lib.deg2km(lib.rad2deg(xsRow[d])))
  }

  /** `latlon_from(lat0, lon0, azimuth, dist)` over a vector of distances: one destination per
      sample, latitudes first. */
  function LatLonFrom(lib: Library, lat0: real, lon0: real, azimuth: real, dist: seq<real>)
    : (ll: (seq<real>, seq<real>))
    ensures |ll.0| == |dist| && |ll.1| == |dist|
  {
    (seq(|dist|, d requires 0 <= d < |dist| => lib.latlonFrom(lat0, lon0, azimuth, dist[d]).0),
     seq(|dist|, d requires 0 <= d < |dist| => lib.latlonFrom(lat0, lon0, azimuth, dist[d]).1))
  }

  /** The event-major latitude matrix: row j is `latlon_from` for event j. */
  function PierceLat(lib: Library, stla: real, stlo: real, bazi: seq<real>, xs: seq<seq<real>>)
    : seq<seq<real>>
    requires |bazi| == |xs|
  {
    seq(|xs|, j requires 0 <= j < |xs| => LatLonFrom(lib, stla, stlo, bazi[j], Distances(lib, xs[j])).0)
  }

  /** The event-major longitude matrix. */
  function PierceLon(lib: Library, stla: real, stlo: real, bazi: seq<real>, xs: seq<seq<real>>)
    : seq<seq<real>>
    requires |bazi| == |xs|
  {
    seq(|xs|, j requires 0 <= j < |xs| => LatLonFrom(lib, stla, stlo, bazi[j], Distances(lib, xs[j])).1)
  }

  /** `makedata`, the allocation and the row loop over events: zero `ev_num` x `depthCount`
      matrices whose rows are overwritten one event at a time. */
  method PierceMatrices(lib: Library, stla: real, stlo: real, bazi: seq<real>,
                        xs: seq<seq<real>>, evNum: nat, depthCount: nat)
    returns (piercelat: seq<seq<real>>, piercelon: seq<seq<real>>)
    requires |bazi| == evNum && IsMatrix(xs, evNum, depthCount)
    ensures IsMatrix(piercelat, evNum, depthCount) && IsMatrix(piercelon, evNum, depthCount)
    ensures piercelat == PierceLat(lib, stla, stlo, bazi, xs)
    ensures piercelon == PierceLon(lib, stla, stlo, bazi, xs)
  {
    piercelat := Zeros(evNum, depthCount);
    piercelon := Zeros(evNum, depthCount);
    for j := 0 to evNum
      invariant IsMatrix(piercelat, evNum, depthCount) && IsMatrix(piercelon, evNum, depthCount)
      invariant forall k :: 0 <= k < j ==>
                  piercelat[k] == PierceLat(lib, stla, stlo, bazi, xs)[k] &&
                  piercelon[k] == PierceLon(lib, stla, stlo, bazi, xs)[k]
      invariant forall k :: j <= k < evNum ==>
                  piercelat[k] == Zeros(evNum, depthCount)[k] &&
                  piercelon[k] == Zeros(evNum, depthCount)[k]
    {
      var ll := LatLonFrom(lib, stla, stlo, bazi[j], Distances(lib, xs[j]));
      piercelat := piercelat[j := ll.0];
      piercelon := piercelon[j := ll.1];
    }
  }

  /** Row j of the piercing points depends on event j's back-azimuth and offsets only: any
      other event list that agrees on event j gives the same row. */
  lemma PierceRowIsLocal(lib: Library, stla: real, stlo: real,
                         bazi: seq<real>, xs: seq<seq<real>>,
                         bazi': seq<real>, xs': seq<seq<real>>, j: nat, j': nat)
    requires |bazi| == |xs| && |bazi'| == |xs'| && j < |xs| && j' < |xs'|
    requires bazi[j] == bazi'[j'] && xs[j] == xs'[j']
    ensures PierceLat(lib, stla, stlo, bazi, xs)[j] == PierceLat(lib, stla, stlo, bazi', xs')[j']
    ensures PierceLon(lib, stla, stlo, bazi, xs)[j] == PierceLon(lib, stla, stlo, bazi', xs')[j']
  {
  }

  /** Reordering the events before the computation reorders the rows identically. */
  lemma PierceFollowsEventOrder(lib: Library, stla: real, stlo: real,
                                bazi: seq<real>, xs: seq<seq<real>>, idx: seq<int>)
    requires |bazi| == |xs| && InBounds(idx, |xs|)
    ensures PierceLat(lib, stla, stlo, Take(bazi, idx), Take(xs, idx)) ==
            Take(PierceLat(lib, stla, stlo, bazi, xs), idx)
    ensures PierceLon(lib, stla, stlo, Take(bazi, idx), Take(xs, idx)) ==
            Take(PierceLon(lib, stla, stlo, bazi, xs), idx)
  {
    forall k | 0 <= k < |idx|
      ensures PierceLat(lib, stla, stlo, Take(bazi, idx), Take(xs, idx))[k] ==
              PierceLat(lib, stla, stlo, bazi, xs)[idx[k]]
      ensures PierceLon(lib, stla, stlo, Take(bazi, idx), Take(xs, idx))[k] ==
              PierceLon(lib, stla, stlo, bazi, xs)[idx[k]]
    {
      PierceRowIsLocal(lib, stla, stlo, Take(bazi, idx), Take(xs, idx), bazi, xs, k, idx[k]);
    }
  }

  // ---------------------------------------------------------------------------------------
  // One station

  /** `join(rfpath, station, station + 'finallist.dat')`: for a station name without separators,
      the file is `<station>finallist.dat` inside the station's directory. */
  function EventListPath(rfpath: string, station: string): (p: string)
    ensures Sep !in station ==> Basename(p) == station + ListSuffix
  {
    var dir := Join(rfpath, station);
    if Sep in station then FinalListPath(dir, station)
    else
      assert Sep !in ListSuffix;
      BasenameOfJoin(dir, station + ListSuffix);
      FinalListPath(dir, station)
  }

  /** `makedata`, the writes into `mat[i]`: the record once all twelve fields of the zero
      record are written. */
  function Assemble(cpara: Config, sta: Station, i: nat, st: SacStation, mo: Moveout,
                    piercelat: seq<seq<real>>, piercelon: seq<seq<real>>): (r: DepthRecord)
    requires Parallel(sta) && i < |sta.stla|
    requires WellFormed(st) && Shaped(mo, st.evNum, |cpara.depthAxis|)
    requires IsMatrix(piercelat, st.evNum, |cpara.depthAxis|)
    requires IsMatrix(piercelon, st.evNum, |cpara.depthAxis|)
    ensures r.events.ObjMatrix? && IsStrColumn(r.events.cells) && Unbox(r.events.cells) == st.event
    ensures r.phases.ObjMatrix? && IsStrColumn(r.phases.cells) && Unbox(r.phases.cells) == st.phase
    ensures r.moveout_correct.Matrix? && r.Piercelat.Matrix? && r.Piercelon.Matrix?
    ensures IsMatrix(r.moveout_correct.rows, |cpara.depthAxis|, st.evNum)
    ensures IsMatrix(r.Piercelat.rows, |cpara.depthAxis|, st.evNum)
    ensures IsMatrix(r.Piercelon.rows, |cpara.depthAxis|, st.evNum)
    ensures Transpose(r.moveout_correct.rows, st.evNum) == mo.rfDepth
    ensures Transpose(r.Piercelat.rows, st.evNum) == piercelat
    ensures Transpose(r.Piercelon.rows, st.evNum) == piercelon
  {
    var depthCount := |cpara.depthAxis|;
    StrColumnRoundTrip(st.event);
    StrColumnRoundTrip(st.phase);
    TransposeTwice(mo.rfDepth, depthCount);
    TransposeTwice(piercelat, depthCount);
    TransposeTwice(piercelon, depthCount);
    DepthRecord(
      Station := Text(sta.station[i]),
      stalat := Scalar(sta.stla[i]),
      stalon := Scalar(sta.stlo[i]),
      Depthrange := Vector(cpara.depthAxis),
      events := ObjMatrix(StrColumn(st.event)),
      bazi := Vector(st.bazi),
      rayp := Vector(st.rayp),
      phases := ObjMatrix(StrColumn(st.phase)),
      moveout_correct := Matrix(Transpose(mo.rfDepth, depthCount)),
      Piercelat := Matrix(Transpose(piercelat, depthCount)),
      Piercelon := Matrix(Transpose(piercelon, depthCount)),
      StopIndex := Indices(mo.endIndex))
  }

  /** The body of the station loop for station i: load its events, convert them to depth,
      compute the piercing points and assemble the record; a raising kernel raises here. */
  function StationRecord(cpara: Config, sta: Station, lib: Library, i: nat): (r: Result<DepthRecord>)
    requires Sound(lib) && Parallel(sta) && i < |sta.stla|
    ensures var load := lib.sacStation(EventListPath(cpara.rfpath, sta.station[i]));
      r.Ok? <==>
        (load.Ok? &&
         lib.psrf2depth(load.value, cpara.depthAxis, load.value.sampling, load.value.shift,
                        cpara.velmod, cpara.raypLib).Ok?)
  {
    match lib.sacStation(EventListPath(cpara.rfpath, sta.station[i]))
    case Raise(e) => Raise(e)
    case Ok(st) =>
      match lib.psrf2depth(st, cpara.depthAxis, st.sampling, st.shift, cpara.velmod, cpara.raypLib)
      case Raise(e) => Raise(e)
      case Ok(mo) =>
        Ok(Assemble(cpara, sta, i, st, mo,
                    PierceLat(lib, sta.stla[i], sta.stlo[i], st.bazi, mo.xs),
                    PierceLon(lib, sta.stla[i], sta.stlo[i], st.bazi, mo.xs)))
  }

  /** The two kernel results a successful station record was built from. */
  predicate BuiltFrom(cpara: Config, sta: Station, lib: Library, i: nat, st: SacStation, mo: Moveout)
    requires Parallel(sta) && i < |sta.stla|
  {
    lib.sacStation(EventListPath(cpara.rfpath, sta.station[i])) == Ok(st) &&
    lib.psrf2depth(st, cpara.depthAxis, st.sampling, st.shift, cpara.velmod, cpara.raypLib) == Ok(mo)
  }

  /** Slot i holds station i's name and coordinates and the shared depth axis. */
  lemma RecordMetadata(cpara: Config, sta: Station, lib: Library, i: nat)
    requires Sound(lib) && Parallel(sta) && i < |sta.stla|
    requires StationRecord(cpara, sta, lib, i).Ok?
    ensures StationRecord(cpara, sta, lib, i).value.Station == Text(sta.station[i])
    ensures StationRecord(cpara, sta, lib, i).value.stalat == Scalar(sta.stla[i])
    ensures StationRecord(cpara, sta, lib, i).value.stalon == Scalar(sta.stlo[i])
    ensures StationRecord(cpara, sta, lib, i).value.Depthrange == Vector(cpara.depthAxis)
  {
  }

  /** The per-event fields keep the kernel's event order and all count the same events. */
  lemma RecordEventFields(cpara: Config, sta: Station, lib: Library, i: nat,
                          st: SacStation, mo: Moveout)
    requires Sound(lib) && Parallel(sta) && i < |sta.stla|
    requires BuiltFrom(cpara, sta, lib, i, st, mo)
    ensures StationRecord(cpara, sta, lib, i).Ok?
    ensures var r := StationRecord(cpara, sta, lib, i).value;
      r.events.ObjMatrix? && IsStrColumn(r.events.cells) &&
      Unbox(r.events.cells) == st.event &&
      r.phases.ObjMatrix? && IsStrColumn(r.phases.cells) &&
      Unbox(r.phases.cells) == st.phase &&
      r.bazi == Vector(st.bazi) && r.rayp == Vector(st.rayp) &&
      r.StopIndex == Indices(mo.endIndex) &&
      |st.event| == |st.phase| == |st.bazi| == |st.rayp| == |mo.endIndex| == st.evNum
  {
    StrColumnRoundTrip(st.event);
    StrColumnRoundTrip(st.phase);
  }

  /** The three matrices are stored depth-major: entry [d][e] is the computed [e][d]. */
  lemma RecordTransposes(cpara: Config, sta: Station, lib: Library, i: nat,
                         st: SacStation, mo: Moveout)
    requires Sound(lib) && Parallel(sta) && i < |sta.stla|
    requires BuiltFrom(cpara, sta, lib, i, st, mo)
    ensures StationRecord(cpara, sta, lib, i).Ok?
    ensures var r := StationRecord(cpara, sta, lib, i).value;
      var depthCount := |cpara.depthAxis|;
      var lat := PierceLat(lib, sta.stla[i], sta.stlo[i], st.bazi, mo.xs);
      var lon := PierceLon(lib, sta.stla[i], sta.stlo[i], st.bazi, mo.xs);
      r.moveout_correct.Matrix? && r.Piercelat.Matrix? && r.Piercelon.Matrix? &&
      IsMatrix(r.moveout_correct.rows, depthCount, st.evNum) &&
      IsMatrix(r.Piercelat.rows, depthCount, st.evNum) &&
      IsMatrix(r.Piercelon.rows, depthCount, st.evNum) &&
      forall d, e :: 0 <= d < depthCount && 0 <= e < st.evNum ==>
        r.moveout_correct.rows[d][e] == mo.rfDepth[e][d] &&
        r.Piercelat.rows[d][e] == lat[e][d] &&
        r.Piercelon.rows[d][e] == lon[e][d]
  {
  }

  // ---------------------------------------------------------------------------------------
  // All stations

  /** The body of the station loop as one step of it: station `s`'s record or exception. */
  function StationStep(cpara: Config, sta: Station, lib: Library): nat --> Result<DepthRecord>
  {
    (s: nat) requires Sound(lib) && Parallel(sta) && s < |sta.stla| => StationRecord(cpara, sta, lib, s)
  }

  /** The station loop over the first `n` stations: the records in station order, or the
      exception of the first station that raises. */
  function Collect(cpara: Config, sta: Station, lib: Library, n: nat): (r: Result<seq<DepthRecord>>)
    requires Sound(lib) && Parallel(sta) && n <= |sta.stla|
    ensures r.Ok? ==> |r.value| == n
  {
    RunAll(StationStep(cpara, sta, lib), n)
  }

  /** A completed loop holds station s's record in slot s. */
  lemma CollectHoldsEachStation(cpara: Config, sta: Station, lib: Library, n: nat)
    requires Sound(lib) && Parallel(sta) && n <= |sta.stla|
    requires Collect(cpara, sta, lib, n).Ok?
    ensures forall s :: 0 <= s < n ==>
              StationRecord(cpara, sta, lib, s) == Ok(Collect(cpara, sta, lib, n).value[s])
  {
    RunHoldsEachStep(StationStep(cpara, sta, lib), n);
  }

  /** The loop completes exactly when no station raises, and otherwise raises the exception of
      the first station that does. */
  lemma StationLoopOutcome(cpara: Config, sta: Station, lib: Library, n: nat)
    requires Sound(lib) && Parallel(sta) && n <= |sta.stla|
    ensures Collect(cpara, sta, lib, n).Ok? <==>
            forall s :: 0 <= s < n ==> StationRecord(cpara, sta, lib, s).Ok?
    ensures Collect(cpara, sta, lib, n).Raise? ==>
            exists i :: 0 <= i < n && Collect(cpara, sta, lib, i).Ok? &&
                        StationRecord(cpara, sta, lib, i) == Raise(Collect(cpara, sta, lib, n).exc)
  {
    var step := StationStep(cpara, sta, lib);
    assert forall s: nat :: s < n ==> step(s) == StationRecord(cpara, sta, lib, s);
    RunOkIffNoStepRaises(step, n);
    if RunAll(step, n).Raise? {
      RunRaisesFirstFailure(step, n);
    }
  }

  /** `makedata` as a whole: read the station list, then run the station loop. */
  function MakeDataSpec(cpara: Config, lib: Library): (r: Result<seq<DepthRecord>>)
    requires Sound(lib)
    ensures lib.loadStationList(cpara.stalist).Raise? ==>
              r == Raise(lib.loadStationList(cpara.stalist).exc)
    ensures r.Ok? ==> lib.loadStationList(cpara.stalist).Ok? &&
                      |r.value| == |lib.loadStationList(cpara.stalist).value|
  {
    match lib.loadStationList(cpara.stalist)
    case Raise(e) => Raise(e)
    case Ok(rows) => Collect(cpara, NewStation(rows), lib, |rows|)
  }

  /** A completed run has one slot per station, in list order, each with the station's own
      name and coordinates and the one shared depth axis. */
  lemma SlotsFollowStationList(cpara: Config, lib: Library)
    requires Sound(lib) && MakeDataSpec(cpara, lib).Ok?
    ensures lib.loadStationList(cpara.stalist).Ok?
    ensures var rows := lib.loadStationList(cpara.stalist).value;
      var recs := MakeDataSpec(cpara, lib).value;
      |recs| == |rows| &&
      forall i :: 0 <= i < |rows| ==>
        recs[i].Station == Text(FixedWidthName(rows[i].name)) &&
        recs[i].stalat == Scalar(rows[i].lat) &&
        recs[i].stalon == Scalar(rows[i].lon) &&
        recs[i].Depthrange == Vector(cpara.depthAxis)
  {
    var rows := lib.loadStationList(cpara.stalist).value;
    var sta := NewStation(rows);
    CollectHoldsEachStation(cpara, sta, lib, |rows|);
    forall i | 0 <= i < |rows|
      ensures var recs := MakeDataSpec(cpara, lib).value;
        recs[i].Station == Text(FixedWidthName(rows[i].name)) &&
        recs[i].stalat == Scalar(rows[i].lat) &&
        recs[i].stalon == Scalar(rows[i].lon) &&
        recs[i].Depthrange == Vector(cpara.depthAxis)
    {
      RecordMetadata(cpara, sta, lib, i);
    }
  }

  // ---------------------------------------------------------------------------------------
  // The output file and the pipeline

  /** One `savemat(path, {name: records})` call. */
  datatype MatFile = MatFile(path: string, name: string, records: seq<DepthRecord>)

  /** The files written by `savemat`, in call order. */
  class MatStore {
    var written: seq<MatFile>

    constructor ()
      ensures written == []
    {
      written := [];
    }

    method SaveMat(path: string, name: string, records: seq<DepthRecord>)
      modifies this
      ensures written == old(written) + [MatFile(path, name, records)]
    {
      written := written + [MatFile(path, name, records)];
    }
  }

  /** `makedata`, the writes into `mat[i]`: the twelve field writes into slot i; no other
      slot changes. */
  method FillSlot(rfdepth: array<DepthRecord>, i: nat, cpara: Config, staInfo: Station,
                  stadatar: SacStation, mo: Moveout, piercelat: seq<seq<real>>, piercelon: seq<seq<real>>)
    requires Parallel(staInfo) && i < |staInfo.stla| && i < rfdepth.Length
    requires rfdepth[i] == ZeroRecord()
    requires WellFormed(stadatar) && Shaped(mo, stadatar.evNum, |cpara.depthAxis|)
    requires IsMatrix(piercelat, stadatar.evNum, |cpara.depthAxis|)
    requires IsMatrix(piercelon, stadatar.evNum, |cpara.depthAxis|)
    modifies rfdepth
    ensures rfdepth[i] == Assemble(cpara, staInfo, i, stadatar, mo, piercelat, piercelon)
    ensures forall k :: 0 <= k < rfdepth.Length && k != i ==> rfdepth[k] == old(rfdepth[k])
  {
    var depthCount := |cpara.depthAxis|;
    rfdepth[i] := rfdepth[i].(Station := Text(staInfo.station[i]));
    rfdepth[i] := rfdepth[i].(stalat := Scalar(staInfo.stla[i]));
    rfdepth[i] := rfdepth[i].(stalon := Scalar(staInfo.stlo[i]));
    rfdepth[i] := rfdepth[i].(Depthrange := Vector(cpara.depthAxis));
    var events := ConvertStrMat(stadatar.event);
    rfdepth[i] := rfdepth[i].(events := ObjMatrix(events));
    rfdepth[i] := rfdepth[i].(bazi := Vector(stadatar.bazi));
    rfdepth[i] := rfdepth[i].(rayp := Vector(stadatar.rayp));
    var phases := ConvertStrMat(stadatar.phase);
    rfdepth[i] := rfdepth[i].(phases := ObjMatrix(phases));
    rfdepth[i] := rfdepth[i].(moveout_correct := Matrix(Transpose(mo.rfDepth, depthCount)));
    rfdepth[i] := rfdepth[i].(Piercelat := Matrix(Transpose(piercelat, depthCount)));
    rfdepth[i] := rfdepth[i].(Piercelon := Matrix(Transpose(piercelon, depthCount)));
    rfdepth[i] := rfdepth[i].(StopIndex := Indices(mo.endIndex));
  }

  /** `makedata`, one iteration of the station loop: load station i's events, convert them
      to depth, compute the piercing points and fill slot i. If a kernel raises, no slot is
      touched; otherwise slot i, and only slot i, receives station i's record. */
  method ProcessStation(rfdepth: array<DepthRecord>, i: nat, cpara: Config, staInfo: Station,
                        lib: Library) returns (r: Result<DepthRecord>)
    requires Sound(lib) && Parallel(staInfo) && i < |staInfo.stla| && i < rfdepth.Length
    requires rfdepth[i] == ZeroRecord()
    modifies rfdepth
    ensures r == StationRecord(cpara, staInfo, lib, i)
    ensures r.Ok? ==> rfdepth[i] == r.value
    ensures forall k :: 0 <= k < rfdepth.Length && (k != i || r.Raise?) ==> rfdepth[k] == old(rfdepth[k])
  {
    var evtLst := EventListPath(cpara.rfpath, staInfo.station[i]);
    var stationData := lib.sacStation(evtLst);
    if stationData.Raise? {
      return Raise(stationData.exc);
    }
    var stadatar := stationData.value;
    var depthCount := |cpara.depthAxis|;
    var converted := lib.psrf2depth(stadatar, cpara.depthAxis, stadatar.sampling, stadatar.shift,
                                    cpara.velmod, cpara.raypLib);
    if converted.Raise? {
      return Raise(converted.exc);
    }
    var mo := converted.value;
    var piercelat, piercelon := PierceMatrices(lib, staInfo.stla[i], staInfo.stlo[i], stadatar.bazi,
                                               mo.xs, stadatar.evNum, depthCount);
    FillSlot(rfdepth, i, cpara, staInfo, stadatar, mo, piercelat, piercelon);
    r := Ok(rfdepth[i]);
  }

  /** One iteration of the station loop, seen from the loop: with slots below i holding the
      records of stations below i and the rest still zero, it either extends that to slot i or
      raises what the whole loop raises. */
  method NextStation(rfdepth: array<DepthRecord>, i: nat, cpara: Config, staInfo: Station,
                     lib: Library) returns (slot: Result<DepthRecord>)
    requires Sound(lib) && Parallel(staInfo) && i < rfdepth.Length == |staInfo.stla|
    requires Collect(cpara, staInfo, lib, i) == Ok(rfdepth[..i])
    requires forall s :: i <= s < rfdepth.Length ==> rfdepth[s] == ZeroRecord()
    modifies rfdepth
    ensures slot.Raise? ==> Collect(cpara, staInfo, lib, rfdepth.Length) == Raise(slot.exc)
    ensures slot.Ok? ==> Collect(cpara, staInfo, lib, i + 1) == Ok(rfdepth[..i + 1])
    ensures slot.Ok? ==> forall s :: i + 1 <= s < rfdepth.Length ==> rfdepth[s] == ZeroRecord()
  {
    ghost var done := rfdepth[..i];
    slot := ProcessStation(rfdepth, i, cpara, staInfo, lib);
    if slot.Raise? {
      RunStopsAtFirstFailure(StationStep(cpara, staInfo, lib), i, rfdepth.Length);
      return;
    }
    RunExtends(StationStep(cpara, staInfo, lib), i, done, rfdepth[i]);
    assert rfdepth[..i] == done;
    assert rfdepth[..i + 1] == done + [rfdepth[i]];
  }

  /** `makedata`, the station loop: iteration i fills slot i and no other; the first station
      whose kernels raise ends the loop with that exception. */
  method StationLoop(rfdepth: array<DepthRecord>, cpara: Config, staInfo: Station, lib: Library)
    returns (r: Result<seq<DepthRecord>>)
    requires Sound(lib) && Parallel(staInfo) && rfdepth.Length == |staInfo.stla|
    requires forall s :: 0 <= s < rfdepth.Length ==> rfdepth[s] == ZeroRecord()
    modifies rfdepth
    ensures r == Collect(cpara, staInfo, lib, rfdepth.Length)
    ensures r.Ok? ==> rfdepth[..] == r.value
  {
    var n := rfdepth.Length;
    for i := 0 to n
      invariant Collect(cpara, staInfo, lib, i) == Ok(rfdepth[..i])
      invariant forall s :: i <= s < n ==> rfdepth[s] == ZeroRecord()
    {
      var slot := NextStation(rfdepth, i, cpara, staInfo, lib);
      if slot.Raise? {
        return Raise(slot.exc);
      }
    }
    assert rfdepth[..] == rfdepth[..n];
    r := Ok(rfdepth[..]);
  }

  /** `makedata`: read the station list, run the station loop over pre-allocated slots, and
      save the whole collection once, after the last slot; if anything raises, nothing is
      saved. */
  method MakeData(cpara: Config, lib: Library, store: MatStore) returns (r: Result<seq<DepthRecord>>)
    requires Sound(lib)
    modifies store
    ensures r == MakeDataSpec(cpara, lib)
    ensures r.Ok? ==> store.written == old(store.written) + [MatFile(cpara.depthdat, "RFdepth", r.value)]
    ensures r.Raise? ==> store.written == old(store.written)
  {
    var loaded := lib.loadStationList(cpara.stalist);
    if loaded.Raise? {
      return Raise(loaded.exc);
    }
    var staInfo := NewStation(loaded.value);
    var rfdepth := InitMat(|staInfo.stla|);
    r := StationLoop(rfdepth, cpara, staInfo, lib);
    if r.Ok? {
      store.SaveMat(cpara.depthdat, "RFdepth", rfdepth[..]);
    }
  }
}
