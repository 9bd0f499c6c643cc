/**
 * The counting pipeline the GUI drives: `cellcounter` counts one file, `image_preprocessing`
 * and `threshold_optimizer` serve the parameter optimizer, `cellcounting_param_optimizer` chooses
 * a diameter and a threshold, and `cellcounting_batch` counts every Ch1 file. Each method is
 * proved equal to a specification function; the lemmas state what those functions promise.
 */
module CellCounterBackend {

  import opened Outcomes
  import opened Numerics
  import opened Grids
  import opened Connectivity
  import opened Labeling
  import opened Kernels
  import opened Config
  import opened FileNames
  import opened Stages
  import opened Optimization

  /** What `cellcounter` takes from `params` and `dirinfo` for a channel. */
  datatype Source = Source(diam: int, thresh: real, folder: Folder, names: seq<string>, hasOutput: bool)

  /**
   * The channel dispatch: "Ch1" reads the Ch1 diameter, threshold, file list and output folder;
   * "Optim" reads `diam`, `thresh` and the composite list and sets no output folder. For any
   * other channel `directory_current` is never assigned, and reading it raises.
   */
  function ChannelSource(channel: string, s: Settings, di: DirInfo): (r: Result<Source>)
    ensures r.Success? ==> channel == "Ch1" || channel == "Optim"
    ensures channel == "Ch1" ==> (r.Success? <==> s.ch1Diam.Some? && s.ch1Thresh.Some? && di.ch1Names.Some?)
    ensures channel == "Ch1" && r.Success? ==>
      r.value == Source(s.ch1Diam.value, s.ch1Thresh.value, Ch1, di.ch1Names.value, true)
    ensures channel == "Optim" ==> (r.Success? <==> s.thresh.Some?)
    ensures channel == "Optim" && r.Success? ==>
      r.value == Source(s.diam, s.thresh.value, Composite, di.compositeNames, false)
    ensures channel != "Ch1" && channel != "Optim" ==> r == Failure(UnboundName("directory_current"))
    ensures channel == "Ch1" && s.ch1Diam.None? ==> r == Failure(KeyMissing("ch1_diam"))
    ensures channel == "Ch1" && s.ch1Diam.Some? && s.ch1Thresh.None? ==> r == Failure(KeyMissing("ch1_thresh"))
    ensures channel == "Ch1" && s.ch1Diam.Some? && s.ch1Thresh.Some? && di.ch1Names.None? ==> r == Failure(KeyMissing("ch1_fnames"))
    ensures channel == "Optim" && s.thresh.None? ==> r == Failure(KeyMissing("thresh"))
  {
    if channel == "Ch1" then
      var diam :- Need(s.ch1Diam, "ch1_diam");
      var thresh :- Need(s.ch1Thresh, "ch1_thresh");
      var names :- Need(di.ch1Names, "ch1_fnames");
      Success(Source(diam, thresh, Ch1, names, true))
    else if channel == "Optim" then
      var thresh :- Need(s.thresh, "thresh");
      Success(Source(s.diam, thresh, Composite, di.compositeNames, false))
    else Failure(UnboundName("directory_current"))
  }

  /** The per-cell table `cellcounter` writes when asked to; with no output folder the write raises. */
  function CellTableOf(tk: Toolkit, src: Source, name: string, cells: Grid<int>, gauss: Grid<real>, save: bool): (r: Result<Option<CellTable>>)
    requires IsRect(cells)
    ensures r.Success? <==> !save || src.hasOutput
    ensures r.Success? ==> (r.value.Some? <==> save)
    ensures r.Success? && save ==> r.value.value == CellTable(CellInfoFileName(name), CellInfo(tk, name, cells, gauss))
  {
    if !save then Success(None)
    else if !src.hasOutput then Failure(UnboundName("output"))
    else Success(Some(CellTable(CellInfoFileName(name), CellInfo(tk, name, cells, gauss))))
  }

  /**
   * The part of `cellcounter` after the image is read: a median filter with window diam // 2,
   * background subtraction with sigma 3 * diam, a Gaussian blur with sigma diam / 6, then
   * thresholding, pruning and labelling, and the per-cell table when asked for.
   */
  function CountImage(tk: Toolkit, src: Source, name: string, gray: Image, pmin: real, useWatershed: bool, save: bool): (r: Result<CountOutput>)
    ensures r.Success? <==> src.diam >= 2 && (save ==> src.hasOutput)
  {
    MedianWindowValid(src.diam);
    var median :- MedianFilter(tk, gray, FloorDiv(src.diam, 2));
    var bg := SubtractedBackground(tk, median, (src.diam * 3) as real);
    var gauss := GaussianBlur(tk, bg, src.diam as real / 6.0);
    assert IsRect(gauss);
    var seg := Segment(tk, gauss, src.diam, src.thresh, pmin, useWatershed);
    assert IsRect(seg.cells);
    var table :- CellTableOf(tk, src, name, seg.cells, gauss, save);
    Success(CountOutput(seg.cells, seg.count, Size(gray), gray, gauss, seg.mask, table))
  }

  /**
   * What a successful count of an image holds: the image itself, its pixel count as the ROI size,
   * a mask of the pixels above the threshold whose component is large enough, cells only inside
   * the mask and, without watershed, the components of the mask numbered 1..nr_nuclei; with
   * intensities saved, one row per cell in ascending label order.
   */
  lemma CountImageOutput(tk: Toolkit, src: Source, name: string, gray: Image, pmin: real, useWatershed: bool, save: bool)
    requires CountImage(tk, src, name, gray, pmin, useWatershed, save).Success?
    ensures var out := CountImage(tk, src, name, gray, pmin, useWatershed, save).value;
      && out.image == gray
      && out.roiSize == Height(gray) * Width(gray)
      && SameShape(gray, out.gauss) && SameShape(gray, out.thresholded) && SameShape(gray, out.cells)
      && (forall p :: InBounds(gray, p) ==>
            (At(out.thresholded, p) <==>
              At(out.gauss, p) > src.thresh && MinParticle(src.diam, pmin) <= |Component(Threshold(out.gauss, src.thresh), p)| as real))
      && (forall p :: InBounds(gray, p) && !At(out.thresholded, p) ==> At(out.cells, p) == 0)
      && (!useWatershed ==> IsComponentLabelling(out.thresholded, out.cells, out.nrNuclei))
      && (out.cellTable.Some? <==> save)
      && (save ==> IsRect(out.cells) && out.cellTable.value == CellTable(CellInfoFileName(name), CellInfo(tk, name, out.cells, out.gauss)))
  {
  }

  /**
   * `cellcounter(file, channel, params, dirinfo, use_watershed, save_intensities)`: reads file
   * number `file` of the channel's list and counts it.
   */
  function CellCounterSpec(tk: Toolkit, file: int, channel: string, s: Settings, di: DirInfo, useWatershed: bool, save: bool): (r: Result<CountOutput>)
    ensures r.Success? ==> ChannelSource(channel, s, di).Success? && ChannelSource(channel, s, di).value.diam >= 2
  {
    var src :- ChannelSource(channel, s, di);
    var name :- PyIndex(src.names, file);
    var gray :- ReadImage(tk, src.folder, name);
    CountImage(tk, src, name, gray, s.particleMin, useWatershed, save)
  }

  /**
   * The counter succeeds exactly when the channel's keys are set, the file index is within the
   * list (negative indices count from the end), the image can be read, the diameter is at least 2,
   * and an output folder exists whenever per-cell tables are to be written.
   */
  lemma CellCounterSucceeds(tk: Toolkit, file: int, channel: string, s: Settings, di: DirInfo, useWatershed: bool, save: bool)
    ensures CellCounterSpec(tk, file, channel, s, di, useWatershed, save).Success? <==>
      && ChannelSource(channel, s, di).Success?
      && var src := ChannelSource(channel, s, di).value;
      && PyIndex(src.names, file).Success?
      && tk.imread(src.folder, PyIndex(src.names, file).value).Some?
      && src.diam >= 2
      && (save ==> src.hasOutput)
  {
    hide CountImage;
  }

  /** A successful count is the count of the channel's file number `file`, as `CountImageOutput` describes. */
  lemma CellCounterOutput(tk: Toolkit, file: int, channel: string, s: Settings, di: DirInfo, useWatershed: bool, save: bool)
    requires CellCounterSpec(tk, file, channel, s, di, useWatershed, save).Success?
    ensures var src := ChannelSource(channel, s, di).value;
      && PyIndex(src.names, file).Success?
      && var name := PyIndex(src.names, file).value;
      && tk.imread(src.folder, name).Some?
      && CountImage(tk, src, name, tk.imread(src.folder, name).value, s.particleMin, useWatershed, save)
        == CellCounterSpec(tk, file, channel, s, di, useWatershed, save)
  {
    hide CountImage;
  }

  /** The image part of the counter; the per-cell records are collected by a loop. */
  method CountImageMethod(tk: Toolkit, src: Source, name: string, gray: Image, pmin: real, useWatershed: bool, save: bool)
    returns (r: Result<CountOutput>)
    ensures r == CountImage(tk, src, name, gray, pmin, useWatershed, save)
  {
    hide Segment;
    hide CellInfo;
    hide SubtractedBackground;
    hide GaussianBlur;
    MedianWindowValid(src.diam);
    var median :- MedianFilter(tk, gray, FloorDiv(src.diam, 2));
    var bg := SubtractBg(tk, median, (src.diam * 3) as real);
    var gauss := GaussianBlur(tk, bg, src.diam as real / 6.0);
    var seg := Segment(tk, gauss, src.diam, src.thresh, pmin, useWatershed);
    var table: Option<CellTable> := None;
    if save {
      if !src.hasOutput {
        return Failure(UnboundName("output"));
      }
      var info := CollectCellInfo(tk, name, seg.cells, gauss);
      table := Some(CellTable(CellInfoFileName(name), info));
    }
    r := Success(CountOutput(seg.cells, seg.count, Size(gray), gray, gauss, seg.mask, table));
  }

  /** The counter. */
  method CellCounter(tk: Toolkit, file: int, channel: string, params: Params, di: DirInfo, useWatershed: bool, save: bool)
    returns (r: Result<CountOutput>)
    ensures r == CellCounterSpec(tk, file, channel, params.Snapshot(), di, useWatershed, save)
  {
    hide CountImage;
    var s := params.Snapshot();
    var src :- ChannelSource(channel, s, di);
    var name :- PyIndex(src.names, file);
    var gray :- ReadImage(tk, src.folder, name);
    r := CountImageMethod(tk, src, name, gray, s.particleMin, useWatershed, save);
  }

  /**
   * `image_preprocessing(dirinfo, params)`: prepares the images at the current diameter and
   * sets `counts`, `otsu` and `thresh`; when it raises, `params` is left as it was.
   */
  method ImagePreprocessing(tk: Toolkit, di: DirInfo, params: Params) returns (r: Result<Images>)
    modifies params
    ensures r == PreparedImages(tk, di, old(params.diam))
    ensures r.Success? ==> params.Snapshot() == AfterPreprocessing(tk, old(params.Snapshot()), r.value)
    ensures r.Failure? ==> params.Snapshot() == old(params.Snapshot())
  {
    r := LoadImages(tk, di, params.diam);
    if r.Success? {
      params.counts := Some(CountPositive(r.value.manual));
      params.otsu := Some(OtsuOf(tk, r.value.gauss));
      params.thresh := params.otsu;
    }
  }

  /** The optimizer's count on the composite image with `params` as given. */
  function OptimCount(tk: Toolkit, di: DirInfo, s: Settings): Result<CountOutput> {
    CellCounterSpec(tk, 0, "Optim", s, di, s.useWatershed, false)
  }

  /** The sweep lists of `threshold_optimizer` for the thresholds `ts`, the first failing count ending it. */
  function SweepMeasurements(tk: Toolkit, di: DirInfo, s: Settings, ts: seq<int>): Result<seq<Measurement>>
    decreases |ts|
  {
    if |ts| == 0 then Success([])
    else
      var init :- SweepMeasurements(tk, di, s, ts[..|ts| - 1]);
      var t := ts[|ts| - 1];
      var out :- OptimCount(tk, di, s.(thresh := Some(t as real)));
      var m :- Measure(t, out, s.counts);
      Success(init + [m])
  }

  /** Each threshold contributes one row, in order, from the count made at that threshold. */
  lemma {:induction false} SweepMeasurementsRows(tk: Toolkit, di: DirInfo, s: Settings, ts: seq<int>)
    requires SweepMeasurements(tk, di, s, ts).Success?
    ensures var ms := SweepMeasurements(tk, di, s, ts).value;
      && |ms| == |ts|
      && forall i :: 0 <= i < |ts| ==>
        && OptimCount(tk, di, s.(thresh := Some(ts[i] as real))).Success?
        && Measure(ts[i], OptimCount(tk, di, s.(thresh := Some(ts[i] as real))).value, s.counts) == Success(ms[i])
    decreases |ts|
  {
    hide CellCounterSpec;
    if |ts| > 0 {
      var init := ts[..|ts| - 1];
      SweepMeasurementsRows(tk, di, s, init);
      var ms := SweepMeasurements(tk, di, s, ts).value;
      assert forall i :: 0 <= i < |init| ==> init[i] == ts[i];
      assert ms[..|init|] == SweepMeasurements(tk, di, s, init).value;
    }
  }

  /** Once a prefix of the thresholds fails, the whole sweep fails with the same error. */
  lemma {:induction false} SweepFailurePersists(tk: Toolkit, di: DirInfo, s: Settings, ts: seq<int>, k: nat)
    requires k <= |ts| && SweepMeasurements(tk, di, s, ts[..k]).Failure?
    ensures SweepMeasurements(tk, di, s, ts) == SweepMeasurements(tk, di, s, ts[..k])
    decreases |ts| - k
  {
    hide CellCounterSpec;
    if k < |ts| {
      assert ts[..k + 1][..k] == ts[..k];
      SweepFailurePersists(tk, di, s, ts, k + 1);
      assert ts[..|ts|] == ts;
    } else {
      assert ts[..k] == ts;
    }
  }

  /** `threshold_optimizer(images, dirinfo, params, interv)`. */
  function ThresholdOptimizerSpec(tk: Toolkit, images: Images, di: DirInfo, s: Settings, interv: int): Result<seq<OptimizationRow>> {
    var ts :- ThresholdValues(images.gauss, interv);
    var ms :- SweepMeasurements(tk, di, s, ts);
    Table(ms, s)
  }

  /**
   * The sweep's table: one row per threshold 0, interv, 2 * interv, ... below the blurred image's
   * rounded-down maximum, holding the count made at that threshold, its average cell area (NaN for
   * no cells), its accuracy against the manual count (NaN for no cells) and the constant columns.
   */
  lemma ThresholdOptimizerRows(tk: Toolkit, images: Images, di: DirInfo, s: Settings, interv: int)
    requires ThresholdOptimizerSpec(tk, images, di, s, interv).Success?
    ensures var rows := ThresholdOptimizerSpec(tk, images, di, s, interv).value;
      var ts := ThresholdValues(images.gauss, interv).value;
      && ThresholdValues(images.gauss, interv).Success?
      && |rows| == |ts|
      && forall i :: 0 <= i < |rows| ==>
        && rows[i].autoCountThresh == ts[i] == i * interv
        && OptimCount(tk, di, s.(thresh := Some(ts[i] as real))).Success?
        && var out := OptimCount(tk, di, s.(thresh := Some(ts[i] as real))).value;
        && rows[i].autoCounts == out.nrNuclei
        && rows[i].avgCellArea == AvgCellArea(out.cells, out.nrNuclei)
        && rows[i].accuracy == (if out.nrNuclei > 0 then TrueDivide(out.nrNuclei, s.counts.value) else NaN)
        && rows[i].otsuThresh == s.otsu.value && rows[i].manualCellDiam == s.diam
        && rows[i].manualCounts == s.counts.value && rows[i].useWatershed == s.useWatershed
  {
    hide CellCounterSpec;
    var ts := ThresholdValues(images.gauss, interv).value;
    SweepMeasurementsRows(tk, di, s, ts);
  }

  /**
   * `threshold_optimizer`: for each threshold, sets `params['thresh']`, counts, and appends the
   * row's values. Only `thresh` changes in `params`.
   */
  method ThresholdOptimizer(tk: Toolkit, images: Images, di: DirInfo, params: Params, interv: int)
    returns (r: Result<seq<OptimizationRow>>)
    modifies params
    ensures r == ThresholdOptimizerSpec(tk, images, di, old(params.Snapshot()), interv)
    ensures params.Snapshot().(thresh := old(params.thresh)) == old(params.Snapshot())
    ensures ThresholdValues(images.gauss, interv).Success? && r.Success? ==>
      var ts := ThresholdValues(images.gauss, interv).value;
      params.thresh == if |ts| == 0 then old(params.thresh) else Some(ts[|ts| - 1] as real)
  {
    hide CellCounterSpec;
    var s := params.Snapshot();
    var ts :- ThresholdValues(images.gauss, interv);
    var ms: seq<Measurement> := [];
    for k := 0 to |ts|
      invariant params.Snapshot() == s.(thresh := params.thresh)
      invariant SweepMeasurements(tk, di, s, ts[..k]) == Success(ms)
      invariant params.thresh == if k == 0 then s.thresh else Some(ts[k - 1] as real)
    {
      params.thresh := Some(ts[k] as real);
      assert ts[..k + 1][..k] == ts[..k];
      var out := CellCounter(tk, 0, "Optim", params, di, params.useWatershed, false);
      if out.Failure? {
        SweepFailurePersists(tk, di, s, ts, k + 1);
        return Failure(out.error);
      }
      var m := Measure(ts[k], out.value, params.counts);
      if m.Failure? {
        SweepFailurePersists(tk, di, s, ts, k + 1);
        return Failure(m.error);
      }
      ms := ms + [m.value];
    }
    assert ts[..|ts|] == ts;
    r := Table(ms, s);
  }

  /**
   * The diameter search of `cellcounting_param_optimizer`: count at diameter d, and while fewer
   * cells than the manual count are found, lower the diameter by 1 and count again. Below
   * diameter 2 the median window is invalid and the count raises, which ends the search.
   */
  function DiamSearch(tk: Toolkit, di: DirInfo, s: Settings, d: int, manual: nat): (r: Result<(int, CountOutput)>)
    decreases d
  {
    var out :- OptimCount(tk, di, s.(diam := d));
    if out.nrNuclei >= manual then Success((d, out))
    else DiamSearch(tk, di, s, d - 1, manual)
  }

  /**
   * The search returns diameter e and count `out` exactly when the count at e is `out` with at
   * least `manual` cells, and every diameter from d down to e + 1 was counted with fewer.
   */
  lemma {:induction false} DiamSearchIff(tk: Toolkit, di: DirInfo, s: Settings, d: int, manual: nat, e: int, out: CountOutput)
    ensures DiamSearch(tk, di, s, d, manual) == Success((e, out)) <==>
      && e <= d
      && OptimCount(tk, di, s.(diam := e)) == Success(out) && out.nrNuclei >= manual
      && forall d' :: e < d' <= d ==>
        OptimCount(tk, di, s.(diam := d')).Success? && OptimCount(tk, di, s.(diam := d')).value.nrNuclei < manual
    decreases d
  {
    hide CellCounterSpec;
    var c := OptimCount(tk, di, s.(diam := d));
    if c.Success? && c.value.nrNuclei < manual {
      DiamSearchIff(tk, di, s, d - 1, manual, e, out);
    }
  }

  /** `cellcounting_param_optimizer(dirinfo, params)`, returning the optimal diameter and threshold. */
  function OptimizerSpec(tk: Toolkit, di: DirInfo, s0: Settings): Result<(int, int)> {
    var images :- PreparedImages(tk, di, s0.diam);
    var s := AfterPreprocessing(tk, s0, images);
    var found :- DiamSearch(tk, di, s, s.diam, s.counts.value);
    var rows :- ThresholdOptimizerSpec(tk, images, di, s.(diam := found.0), 10);
    var t :- ChosenThreshold(rows);
    Success((found.0, t))
  }

  /**
   * What the optimizer returns: the diameter the search stops at, and the threshold the backward
   * scan picks from a sweep made at that diameter over the thresholds of the images prepared at
   * the initial diameter.
   */
  lemma OptimizerResult(tk: Toolkit, di: DirInfo, s0: Settings, d: int, t: int)
    requires OptimizerSpec(tk, di, s0) == Success((d, t))
    ensures PreparedImages(tk, di, s0.diam).Success?
    ensures var images := PreparedImages(tk, di, s0.diam).value;
      var s := AfterPreprocessing(tk, s0, images);
      && DiamSearch(tk, di, s, s0.diam, CountPositive(images.manual)).Success?
      && DiamSearch(tk, di, s, s0.diam, CountPositive(images.manual)).value.0 == d
      && d <= s0.diam
      && OptimCount(tk, di, s.(diam := d)).Success?
      && OptimCount(tk, di, s.(diam := d)).value.nrNuclei >= CountPositive(images.manual)
      && ThresholdOptimizerSpec(tk, images, di, s.(diam := d), 10).Success?
      && exists i :: ChosenAt(ThresholdOptimizerSpec(tk, images, di, s.(diam := d), 10).value, i, t)
  {
    hide CellCounterSpec;
    hide PreparedImages;
    hide ThresholdOptimizerSpec;
    hide ChosenThreshold;
    hide DiamSearch;
    assert PreparedImages(tk, di, s0.diam).Success?;
    var images := PreparedImages(tk, di, s0.diam).value;
    var s := AfterPreprocessing(tk, s0, images);
    assert s.diam == s0.diam && s.counts.value == CountPositive(images.manual);
    assert DiamSearch(tk, di, s, s.diam, s.counts.value).Success?;
    var found := DiamSearch(tk, di, s, s.diam, s.counts.value).value;
    assert found.0 == d;
    var rows := ThresholdOptimizerSpec(tk, images, di, s.(diam := d), 10);
    assert rows.Success? && ChosenThreshold(rows.value) == Success(t);
    DiamSearchIff(tk, di, s, s.diam, s.counts.value, found.0, found.1);
    ChosenThresholdIff(rows.value, t);
  }

  /**
   * `cellcounting_param_optimizer`: preprocesses, lowers `params['diam']` by 1 until the count
   * reaches the manual count, sweeps the thresholds at that diameter and scans back for the
   * threshold just after the last row whose accuracy is not below 1.
   */
  method CellcountingParamOptimizer(tk: Toolkit, di: DirInfo, params: Params) returns (r: Result<(int, int)>)
    modifies params
    ensures r == OptimizerSpec(tk, di, old(params.Snapshot()))
    ensures r.Success? ==> params.diam == r.value.0
    ensures params.Snapshot().(diam := old(params.diam), counts := old(params.counts), otsu := old(params.otsu), thresh := old(params.thresh))
      == old(params.Snapshot())
  {
    hide CellCounterSpec;
    hide PreparedImages;
    hide ThresholdOptimizerSpec;
    hide ChosenThreshold;
    ghost var s0 := params.Snapshot();
    var images :- ImagePreprocessing(tk, di, params);
    ghost var s := params.Snapshot();
    var manual := params.counts.value;
    var out :- CellCounter(tk, 0, "Optim", params, di, params.useWatershed, false);
    while out.nrNuclei < manual
      invariant params.Snapshot() == s.(diam := params.diam)
      invariant OptimCount(tk, di, s.(diam := params.diam)) == Success(out)
      invariant DiamSearch(tk, di, s, s.diam, manual) == DiamSearch(tk, di, s, params.diam, manual)
      invariant params.diam >= 2
      decreases params.diam
    {
      params.diam := params.diam - 1;
      var next := CellCounter(tk, 0, "Optim", params, di, params.useWatershed, false);
      if next.Failure? {
        return Failure(next.error);
      }
      out := next.value;
    }
    var d := params.diam;
    var rows :- ThresholdOptimizer(tk, images, di, params, 10);
    var t :- ScanBackward(rows);
    r := Success((d, t));
  }

  /** One row of the Ch1 summary table. */
  datatype CountsRow = CountsRow(fileName: string, thresh: real, avgCellDiam: int, particleMin: real, counts: nat, roiSize: nat)

  /** A label image written as uint16. */
  datatype LabelImage = LabelImage(fileName: string, pixels: Grid<int>)

  /** What counting one file yields: its count, its ROI size and the files written for it. */
  datatype FileCount = FileCount(count: nat, roiSize: nat, labels: LabelImage, cellTable: Option<CellTable>)

  /** The counts of a batch and the files written; `summary` is the returned table. */
  datatype BatchOutput = BatchOutput(summary: seq<CountsRow>, files: seq<FileCount>)

  /** What the batch keeps of one count. */
  function FileCountOf(name: string, out: CountOutput): FileCount {
    FileCount(out.nrNuclei, out.roiSize, LabelImage(CountsFileName(name), ToUint16Grid(out.cells)), out.cellTable)
  }

  /** The batch loop over the first n Ch1 files, ending at the first count that raises. */
  function CountFiles(tk: Toolkit, di: DirInfo, s: Settings, save: bool, names: seq<string>, n: nat): (r: Result<seq<FileCount>>)
    requires n <= |names|
    ensures r.Success? ==> |r.value| == n
  {
    if n == 0 then Success([])
    else
      var init :- CountFiles(tk, di, s, save, names, n - 1);
      var out :- CellCounterSpec(tk, n - 1, "Ch1", s, di, s.useWatershed, save);
      Success(init + [FileCountOf(names[n - 1], out)])
  }

  lemma {:induction false} CountFilesRows(tk: Toolkit, di: DirInfo, s: Settings, save: bool, names: seq<string>, n: nat)
    requires n <= |names| && CountFiles(tk, di, s, save, names, n).Success?
    ensures var files := CountFiles(tk, di, s, save, names, n).value;
      && |files| == n
      && forall i :: 0 <= i < n ==>
        && CellCounterSpec(tk, i, "Ch1", s, di, s.useWatershed, save).Success?
        && files[i] == FileCountOf(names[i], CellCounterSpec(tk, i, "Ch1", s, di, s.useWatershed, save).value)
  {
    hide CellCounterSpec;
    if n > 0 {
      CountFilesRows(tk, di, s, save, names, n - 1);
    }
  }

  lemma {:induction false} CountFilesFailurePersists(tk: Toolkit, di: DirInfo, s: Settings, save: bool, names: seq<string>, k: nat)
    requires k <= |names| && CountFiles(tk, di, s, save, names, k).Failure?
    ensures CountFiles(tk, di, s, save, names, |names|) == CountFiles(tk, di, s, save, names, k)
    decreases |names| - k
  {
    hide CellCounterSpec;
    if k < |names| {
      CountFilesFailurePersists(tk, di, s, save, names, k + 1);
    }
  }

  /**
   * `cellcounting_batch(dirinfo, channel, params, save_intensities)`. Every Ch1 file is counted
   * whatever `channel` says; only for "Ch1" is the summary table rebuilt, otherwise the global
   * table of an earlier call, `prior`, is returned, and reading it raises NameError if there was none.
   */
  function BatchSpec(tk: Toolkit, di: DirInfo, channel: string, s: Settings, save: bool, prior: Option<seq<CountsRow>>): Result<BatchOutput> {
    var names :- Need(di.ch1Names, "ch1_fnames");
    var diam :- Need(s.ch1Diam, "ch1_diam");
    var thresh :- Need(s.ch1Thresh, "ch1_thresh");
    var files :- CountFiles(tk, di, s, save, names, |names|);
    if channel == "Ch1" then
      Success(BatchOutput(Summary(names, thresh, diam, s.particleMin, files), files))
    else
      var old_ :- ReadBound(prior, "Ch1_Counts");
      Success(BatchOutput(old_, files))
  }

  /** The Ch1 summary table. */
  function Summary(names: seq<string>, thresh: real, diam: int, pmin: real, files: seq<FileCount>): (rows: seq<CountsRow>)
    requires |files| == |names|
    ensures |rows| == |names|
    ensures forall i :: 0 <= i < |rows| ==> rows[i] == CountsRow(names[i], thresh, diam, pmin, files[i].count, files[i].roiSize)
  {
    seq(|names|, i requires 0 <= i < |names| => CountsRow(names[i], thresh, diam, pmin, files[i].count, files[i].roiSize))
  }

  /**
   * A successful "Ch1" batch has one summary row and one `_Counts.tif` label image per file, in
   * listing order; row i holds file i's name, its count and its ROI size, and the threshold,
   * diameter and particle-minimum columns are the same in every row.
   */
  lemma BatchRows(tk: Toolkit, di: DirInfo, s: Settings, save: bool, prior: Option<seq<CountsRow>>)
    requires BatchSpec(tk, di, "Ch1", s, save, prior).Success?
    ensures var b := BatchSpec(tk, di, "Ch1", s, save, prior).value;
      var names := di.ch1Names.value;
      && |b.summary| == |names| && |b.files| == |names|
      && forall i :: 0 <= i < |names| ==>
        && CellCounterSpec(tk, i, "Ch1", s, di, s.useWatershed, save).Success?
        && var out := CellCounterSpec(tk, i, "Ch1", s, di, s.useWatershed, save).value;
        && b.summary[i].fileName == names[i]
        && b.summary[i].counts == out.nrNuclei && b.summary[i].roiSize == out.roiSize
        && b.summary[i].thresh == s.ch1Thresh.value && b.summary[i].avgCellDiam == s.ch1Diam.value
        && b.summary[i].particleMin == s.particleMin
        && b.files[i].labels.fileName == StripExt(names[i]) + "_Counts.tif"
        && b.files[i].labels.pixels == ToUint16Grid(out.cells)
  {
    hide CellCounterSpec;
    var names := di.ch1Names.value;
    CountFilesRows(tk, di, s, save, names, |names|);
  }

  /** The batch loop; `params` is only read. */
  method CellCountingBatch(tk: Toolkit, di: DirInfo, channel: string, params: Params, save: bool, prior: Option<seq<CountsRow>>)
    returns (r: Result<BatchOutput>)
    ensures r == BatchSpec(tk, di, channel, params.Snapshot(), save, prior)
  {
    hide CellCounterSpec;
    var s := params.Snapshot();
    var names :- Need(di.ch1Names, "ch1_fnames");
    var diam :- Need(params.ch1Diam, "ch1_diam");
    var thresh :- Need(params.ch1Thresh, "ch1_thresh");
    var files: seq<FileCount> := [];
    for k := 0 to |names|
      invariant CountFiles(tk, di, s, save, names, k) == Success(files)
    {
      var out := CellCounter(tk, k, "Ch1", params, di, params.useWatershed, save);
      if out.Failure? {
        CountFilesFailurePersists(tk, di, s, save, names, k + 1);
        return Failure(out.error);
      }
      files := files + [FileCountOf(names[k], out.value)];
    }
    if channel == "Ch1" {
      r := Success(BatchOutput(Summary(names, thresh, diam, params.particleMin, files), files));
    } else {
      var old_ :- ReadBound(prior, "Ch1_Counts");
      r := Success(BatchOutput(old_, files));
    }
  }
}
