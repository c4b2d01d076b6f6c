/** The library routines `makedata` and `plotrt` call but whose code is not part of this model:
    `seispy.rfcorrect.SACStation` and `psrf2depth`, `seispy.geo.latlon_from`, `deg2km` and
    `rad2deg`, `np.argsort` and the `np.loadtxt` read of the station list. They are passed in
    as a `Library` value of functions, and `Sound` states the shapes this model relies on. */
module Externals {
  import opened Wrappers
  import opened Matrices
  import opened Permutations

  /** The layered velocity model handed to `psrf2depth`; opaque to this model. */
  type VelocityModel(!new)

  /** The ray-parameter lookup (`srayp`) handed to `psrf2depth`; opaque to this model. */
  type RaypLibrary(!new)

  /** What `SACStation(evt_lst)` returns: one station's events with their traces. */
  datatype SacStation = SacStation(
    evNum: nat,
    event: seq<string>,
    bazi: seq<real>,
    rayp: seq<real>,
    phase: seq<string>,
    datar: seq<seq<real>>,
    datat: seq<seq<real>>,
    rfLength: nat,
    sampling: real,
    shift: real)

  /** Every per-event field lists `evNum` events, and every trace has `rfLength` samples. */
  predicate WellFormed(st: SacStation)
  {
    |st.event| == st.evNum && |st.bazi| == st.evNum && |st.rayp| == st.evNum &&
    |st.phase| == st.evNum &&
    IsMatrix(st.datar, st.evNum, st.rfLength) && IsMatrix(st.datat, st.evNum, st.rfLength)
  }

  /** What `psrf2depth` returns: `PS_RFdepth`, `end_index`, `x_s`, `x_p`. */
  datatype Moveout = Moveout(
    rfDepth: seq<seq<real>>,
    endIndex: seq<int>,
    xs: seq<seq<real>>,
    xp: seq<seq<real>>)

  /** The kernel's shape promise: event-major matrices of `evNum` x `depthCount`, and one stop
      index per event. */
  predicate Shaped(mo: Moveout, evNum: nat, depthCount: nat)
  {
    IsMatrix(mo.rfDepth, evNum, depthCount) && |mo.endIndex| == evNum &&
    IsMatrix(mo.xs, evNum, depthCount) && IsMatrix(mo.xp, evNum, depthCount)
  }

  /** One row of the station list file: name, latitude, longitude. */
  datatype StationRow = StationRow(name: string, lat: real, lon: real)

  datatype Library = Library(
    loadStationList: string -> Result<seq<StationRow>>,
    sacStation: string -> Result<SacStation>,
    psrf2depth: (SacStation, seq<real>, real, real, VelocityModel, RaypLibrary) -> Result<Moveout>,
    latlonFrom: (real, real, real, real) -> (real, real),
    rad2deg: real -> real,
    deg2km: real -> real,
    argsort: seq<real> -> seq<int>)

  /** The contracts of the library routines that this model depends on. */
  ghost predicate Sound(lib: Library)
  {
    (forall path :: lib.sacStation(path).Ok? ==> WellFormed(lib.sacStation(path).value)) &&
    (forall st, axis, sampling, shift, velmod, srayp ::
       WellFormed(st) && lib.psrf2depth(st, axis, sampling, shift, velmod, srayp).Ok? ==>
       Shaped(lib.psrf2depth(st, axis, sampling, shift, velmod, srayp).value, st.evNum, |axis|)) &&
    (forall keys :: IsArgSort(lib.argsort(keys), keys))
  }
}
