/**
 * The two dictionaries every operation receives. `params` is updated in place by the optimizer
 * and is a class; the keys it may lack are `Option` fields, and reading a missing key raises
 * KeyError. `dirinfo` holds the sorted `*.tif` listings that the directory scan produces and is
 * only read.
 */
module Config {

  import opened Outcomes

  /** The values held by `params` at one moment. */
  datatype Settings = Settings(
    diam: int,
    particleMin: real,
    useWatershed: bool,
    counts: Option<nat>,
    otsu: Option<real>,
    thresh: Option<real>,
    ch1Diam: Option<int>,
    ch1Thresh: Option<real>)

  /** `d[key]` for a key that may be missing. */
  function Need<T>(v: Option<T>, key: string): (r: Result<T>)
    ensures r.Success? <==> v.Some?
    ensures r.Success? ==> r.value == v.value
    ensures r.Failure? ==> r.error == KeyMissing(key)
  {
    match v
    case None => Failure(KeyMissing(key))
    case Some(x) => Success(x)
  }

  /** The `params` dictionary. */
  class Params {
    var diam: int
    var particleMin: real
    var useWatershed: bool
    var counts: Option<nat>
    var otsu: Option<real>
    var thresh: Option<real>
    var ch1Diam: Option<int>
    var ch1Thresh: Option<real>

    /** `{'diam': ..., 'particle_min': ..., 'UseWatershed': ...}` as the front end creates it. */
    constructor (diam: int, particleMin: real, useWatershed: bool)
      ensures Snapshot() == Settings(diam, particleMin, useWatershed, None, None, None, None, None)
    {
      this.diam := diam;
      this.particleMin := particleMin;
      this.useWatershed := useWatershed;
      counts, otsu, thresh, ch1Diam, ch1Thresh := None, None, None, None, None;
    }

    function Snapshot(): Settings
      reads this
    {
      Settings(diam, particleMin, useWatershed, counts, otsu, thresh, ch1Diam, ch1Thresh)
    }
  }

  /**
   * The `dirinfo` dictionary after the directory scan: the sorted `*.tif` names of the Composite
   * and ManualCounts folders, and those of Ch1 when that folder exists (only then are the
   * `ch1_fnames` and `output_ch1` keys set). No Ch2 keys are ever set.
   */
  datatype DirInfo = DirInfo(compositeNames: seq<string>, manualNames: seq<string>, ch1Names: Option<seq<string>>)
}
