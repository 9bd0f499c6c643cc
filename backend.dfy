/**
 * The older counting pipeline kept beside the GUI's: `Count`, `optim_getimages`, `optim_iterate`,
 * `cellcounting_param_optimizer` and `Count_folder`. The filters, pruning, labelling and watershed
 * are the same lines as the GUI's and are shared through `Stages`; what differs is modelled here:
 * the background is subtracted from the raw image, and every diameter step re-runs the whole
 * preparation, resetting the manual count, the Otsu value and the threshold.
 */
module Backend {

  import opened Outcomes
  import opened Numerics
  import opened Grids
  import opened Kernels
  import opened Config
  import opened FileNames
  import opened Stages
  import opened Optimization
  import opened CellCounterBackend

  /** The channel dispatch of `Count`: as the GUI's, but the unbound name is `Directory_Current`. */
  function LegacySource(channel: string, s: Settings, di: DirInfo): (r: Result<Source>)
    ensures channel == "Ch1" || channel == "Optim" ==> r == ChannelSource(channel, s, di)
    ensures channel != "Ch1" && channel != "Optim" ==> r == Failure(UnboundName("Directory_Current"))
  {
    if channel == "Ch1" || channel == "Optim" then ChannelSource(channel, s, di)
    else Failure(UnboundName("Directory_Current"))
  }

  /**
   * The part of `Count` after the image is read. The median filter is run, and fails for a
   * window below 1, but its result is not used: the background is subtracted from the raw image.
   */
  function LegacyCountImage(tk: Toolkit, src: Source, name: string, gray: Image, pmin: real, useWatershed: bool, save: bool): (r: Result<CountOutput>)
    ensures r.Success? <==> src.diam >= 2 && (save ==> src.hasOutput)
  {
    MedianWindowValid(src.diam);
    var median :- MedianFilter(tk, gray, FloorDiv(src.diam, 2));
    var bg := SubtractedBackground(tk, gray, (src.diam * 3) as real);
    var gauss := GaussianBlur(tk, bg, src.diam as real / 6.0);
    assert IsRect(gauss);
    var seg := Segment(tk, gauss, src.diam, src.thresh, pmin, useWatershed);
    assert IsRect(seg.cells);
    var table :- CellTableOf(tk, src, name, seg.cells, gauss, save);
    Success(CountOutput(seg.cells, seg.count, Size(gray), gray, gauss, seg.mask, table))
  }

  /** `Count(file, Channel, params, dirinfo, UseROI, UseWatershed, SaveIntensities)`; `UseROI` is not read. */
  function CountSpec(tk: Toolkit, file: int, channel: string, s: Settings, di: DirInfo, useWatershed: bool, save: bool): (r: Result<CountOutput>)
    ensures r.Success? ==> LegacySource(channel, s, di).Success? && LegacySource(channel, s, di).value.diam >= 2
  {
    var src :- LegacySource(channel, s, di);
    var name :- PyIndex(src.names, file);
    var gray :- ReadImage(tk, src.folder, name);
    LegacyCountImage(tk, src, name, gray, s.particleMin, useWatershed, save)
  }

  /** Whatever the median filter computes, the legacy count is the same: its result is unused. */
  lemma CountIgnoresMedian(tk: Toolkit, median: (Image, int, Pixel) -> int, file: int, channel: string, s: Settings, di: DirInfo, useWatershed: bool, save: bool)
    ensures CountSpec(tk.(medianAt := median), file, channel, s, di, useWatershed, save) == CountSpec(tk, file, channel, s, di, useWatershed, save)
  {
  }

  /**
   * The legacy count differs from the GUI's only in the image the background is taken from: on
   * an image the median filter leaves unchanged, the two agree.
   */
  lemma LegacyCountIsGuiCountOnMedianFixedImage(tk: Toolkit, src: Source, name: string, gray: Image, pmin: real, useWatershed: bool, save: bool)
    requires forall p :: InBounds(gray, p) ==> tk.medianAt(gray, OddKernel(FloorDiv(src.diam, 2)), p) == At(gray, p)
    ensures LegacyCountImage(tk, src, name, gray, pmin, useWatershed, save) == CountImage(tk, src, name, gray, pmin, useWatershed, save)
  {
    MedianWindowValid(src.diam);
    var m := MedianFilter(tk, gray, FloorDiv(src.diam, 2));
    if m.Success? {
      GridsEqual(m.value, gray, Height(gray), Width(gray));
    }
  }

  /**
   * A successful legacy count is the GUI's count of the raw image it read, with the median-filtered
   * image replaced by the raw one; `CountImageOutput` describes it.
   */
  lemma CountOutputShape(tk: Toolkit, file: int, channel: string, s: Settings, di: DirInfo, useWatershed: bool, save: bool)
    requires CountSpec(tk, file, channel, s, di, useWatershed, save).Success?
    ensures var src := LegacySource(channel, s, di).value;
      && PyIndex(src.names, file).Success?
      && var name := PyIndex(src.names, file).value;
      && tk.imread(src.folder, name).Some?
      && var gray := tk.imread(src.folder, name).value;
      && CountSpec(tk, file, channel, s, di, useWatershed, save)
        == CountImage(tk.(medianAt := (img: Image, k: int, p: Pixel) => if InBounds(img, p) then At(img, p) else 0), src, name, gray, s.particleMin, useWatershed, save)
  {
    var src := LegacySource(channel, s, di).value;
    var name := PyIndex(src.names, file).value;
    var gray := tk.imread(src.folder, name).value;
    var id := (img: Image, k: int, p: Pixel) => if InBounds(img, p) then At(img, p) else 0;
    var tk' := tk.(medianAt := id);
    CountIgnoresMedian(tk, id, file, channel, s, di, useWatershed, save);
    assert CountSpec(tk, file, channel, s, di, useWatershed, save) == LegacyCountImage(tk', src, name, gray, s.particleMin, useWatershed, save);
    LegacyCountIsGuiCountOnMedianFixedImage(tk', src, name, gray, s.particleMin, useWatershed, save);
  }

  /** `Count`. */
  method Count(tk: Toolkit, file: int, channel: string, params: Params, di: DirInfo, useWatershed: bool, save: bool)
    returns (r: Result<CountOutput>)
    ensures r == CountSpec(tk, file, channel, params.Snapshot(), di, useWatershed, save)
  {
    hide LegacyCountImage;
    var s := params.Snapshot();
    var src :- LegacySource(channel, s, di);
    var name :- PyIndex(src.names, file);
    var gray :- ReadImage(tk, src.folder, name);
    r := LegacyCountImageMethod(tk, src, name, gray, s.particleMin, useWatershed, save);
  }

  method LegacyCountImageMethod(tk: Toolkit, src: Source, name: string, gray: Image, pmin: real, useWatershed: bool, save: bool)
    returns (r: Result<CountOutput>)
    ensures r == LegacyCountImage(tk, src, name, gray, pmin, useWatershed, save)
  {
    hide Segment;
    hide CellInfo;
    hide SubtractedBackground;
    hide GaussianBlur;
    MedianWindowValid(src.diam);
    var median :- MedianFilter(tk, gray, FloorDiv(src.diam, 2));
    var bg := SubtractBg(tk, gray, (src.diam * 3) as real);
    var gauss := GaussianBlur(tk, bg, src.diam as real / 6.0);
    var seg := Segment(tk, gauss, src.diam, src.thresh, pmin, useWatershed);
    var table: Option<CellTable> := None;
    if save {
      if !src.hasOutput {
        return Failure(UnboundName("output"));
      }
      var info := CollectCellInfo(tk, name, seg.cells, gauss);
      table := Some(CellTable(CellInfoFileName(name), info));
    }
    r := Success(CountOutput(seg.cells, seg.count, Size(gray), gray, gauss, seg.mask, table));
  }

  /** What one call of `optim_getimages` returns: the images, the updated parameters and the count. */
  datatype Step = Step(images: Images, settings: Settings, count: CountOutput)

  /**
   * `optim_getimages(dirinfo, params)`: prepares the images at the current diameter, resets
   * `counts`, `otsu` and `thresh`, then counts the composite image at that threshold.
   */
  function GetImagesSpec(tk: Toolkit, di: DirInfo, s: Settings): (r: Result<Step>)
    ensures r.Success? ==> r.value.settings.diam == s.diam >= 2 && r.value.settings.counts.Some?
  {
    var images :- PreparedImages(tk, di, s.diam);
    var s' := AfterPreprocessing(tk, s, images);
    var out :- CountSpec(tk, 0, "Optim", s', di, s'.useWatershed, false);
    Success(Step(images, s', out))
  }

  /**
   * The values `optim_getimages` resets: the manual count becomes the manual image's foreground
   * pixel count and the threshold the Otsu value of the blurred image, whatever they were; the
   * count is made at that threshold and the other parameters are kept.
   */
  lemma GetImagesResets(tk: Toolkit, di: DirInfo, s: Settings)
    requires GetImagesSpec(tk, di, s).Success?
    ensures var st := GetImagesSpec(tk, di, s).value;
      && PreparedImages(tk, di, s.diam) == Success(st.images)
      && st.settings.counts == Some(CountPositive(st.images.manual))
      && st.settings.otsu == st.settings.thresh == Some(OtsuOf(tk, st.images.gauss))
      && st.settings.(counts := s.counts, otsu := s.otsu, thresh := s.thresh) == s
      && CountSpec(tk, 0, "Optim", st.settings, di, s.useWatershed, false) == Success(st.count)
      && st.images.otsu == Threshold(st.images.gauss, OtsuOf(tk, st.images.gauss))
  {
    hide CountSpec;
  }

  /** The step depends on the parameters it resets only through the values it resets them to. */
  lemma {:induction false} GetImagesForgets(tk: Toolkit, di: DirInfo, s1: Settings, s2: Settings)
    requires s1.(counts := None, otsu := None, thresh := None) == s2.(counts := None, otsu := None, thresh := None)
    ensures GetImagesSpec(tk, di, s1) == GetImagesSpec(tk, di, s2)
  {
    hide CountSpec;
    hide PreparedImages;
    assert s1.diam == s2.diam;
    var images := PreparedImages(tk, di, s1.diam);
    if images.Success? {
      assert AfterPreprocessing(tk, s1, images.value) == AfterPreprocessing(tk, s2, images.value);
    }
  }

  /** `optim_getimages`; `params` is updated as soon as the images are prepared, even if the count then raises. */
  method OptimGetImages(tk: Toolkit, di: DirInfo, params: Params) returns (r: Result<Step>)
    modifies params
    ensures r == GetImagesSpec(tk, di, old(params.Snapshot()))
    ensures PreparedImages(tk, di, old(params.diam)).Success? ==>
      params.Snapshot() == AfterPreprocessing(tk, old(params.Snapshot()), PreparedImages(tk, di, old(params.diam)).value)
    ensures PreparedImages(tk, di, old(params.diam)).Failure? ==> params.Snapshot() == old(params.Snapshot())
  {
    hide CountSpec;
    hide PreparedImages;
    var images :- ImagePreprocessing(tk, di, params);
    var out :- Count(tk, 0, "Optim", params, di, params.useWatershed, false);
    r := Success(Step(images, params.Snapshot(), out));
  }

  /** One test of the legacy diameter loop: stop with this step, or lower the diameter and start over. */
  function Continue(tk: Toolkit, di: DirInfo, st: Step): Result<Step>
    requires st.settings.counts.Some? && st.settings.diam >= 2
    decreases st.settings.diam, 0
  {
    if st.count.nrNuclei >= st.settings.counts.value then Success(st)
    else LegacyDiamSearch(tk, di, st.settings.(diam := st.settings.diam - 1))
  }

  /** The diameter loop of the legacy optimizer, each step a fresh `optim_getimages`. */
  function LegacyDiamSearch(tk: Toolkit, di: DirInfo, s: Settings): Result<Step>
    decreases s.diam, 1
  {
    var st :- GetImagesSpec(tk, di, s);
    Continue(tk, di, st)
  }

  /**
   * The search ends with step `st` exactly when `st` is the step at its own diameter e, no larger
   * than the start, with a count that reaches the manual count, and every diameter from the start
   * down to e + 1 was prepared and counted with fewer cells than its manual count.
   */
  lemma {:induction false} LegacyDiamSearchIff(tk: Toolkit, di: DirInfo, s: Settings, st: Step)
    ensures LegacyDiamSearch(tk, di, s) == Success(st) <==>
      && st.settings.diam <= s.diam
      && GetImagesSpec(tk, di, s.(diam := st.settings.diam)) == Success(st)
      && st.count.nrNuclei >= st.settings.counts.value
      && forall d' :: st.settings.diam < d' <= s.diam ==>
        GetImagesSpec(tk, di, s.(diam := d')).Success? && Stops(GetImagesSpec(tk, di, s.(diam := d')).value) == false
    decreases s.diam
  {
    hide CountSpec;
    hide PreparedImages;
    assert s.(diam := s.diam) == s;
    var g := GetImagesSpec(tk, di, s);
    if g.Success? && !Stops(g.value) {
      var s1 := g.value.settings.(diam := s.diam - 1);
      forall x: int
        ensures GetImagesSpec(tk, di, s1.(diam := x)) == GetImagesSpec(tk, di, s.(diam := x))
      {
        GetImagesForgets(tk, di, s1.(diam := x), s.(diam := x));
      }
      LegacyDiamSearchIff(tk, di, s1, st);
    }
  }

  /** The loop's exit test: the count reaches the manual count. */
  predicate Stops(st: Step) {
    st.settings.counts.Some? && st.count.nrNuclei >= st.settings.counts.value
  }

  /** The legacy sweep: as the GUI's, but each count is a legacy `Count`. */
  function LegacySweep(tk: Toolkit, di: DirInfo, s: Settings, ts: seq<int>): Result<seq<Measurement>>
    decreases |ts|
  {
    if |ts| == 0 then Success([])
    else
      var init :- LegacySweep(tk, di, s, ts[..|ts| - 1]);
      var t := ts[|ts| - 1];
      var out :- CountSpec(tk, 0, "Optim", s.(thresh := Some(t as real)), di, s.useWatershed, false);
      var m :- Measure(t, out, s.counts);
      Success(init + [m])
  }

  lemma {:induction false} LegacySweepRows(tk: Toolkit, di: DirInfo, s: Settings, ts: seq<int>)
    requires LegacySweep(tk, di, s, ts).Success?
    ensures var ms := LegacySweep(tk, di, s, ts).value;
      && |ms| == |ts|
      && forall i :: 0 <= i < |ts| ==>
        && CountSpec(tk, 0, "Optim", s.(thresh := Some(ts[i] as real)), di, s.useWatershed, false).Success?
        && Measure(ts[i], CountSpec(tk, 0, "Optim", s.(thresh := Some(ts[i] as real)), di, s.useWatershed, false).value, s.counts) == Success(ms[i])
    decreases |ts|
  {
    hide CountSpec;
    if |ts| > 0 {
      var init := ts[..|ts| - 1];
      LegacySweepRows(tk, di, s, init);
      var ms := LegacySweep(tk, di, s, ts).value;
      assert forall i :: 0 <= i < |init| ==> init[i] == ts[i];
      assert ms[..|init|] == LegacySweep(tk, di, s, init).value;
    }
  }

  lemma {:induction false} LegacySweepFailurePersists(tk: Toolkit, di: DirInfo, s: Settings, ts: seq<int>, k: nat)
    requires k <= |ts| && LegacySweep(tk, di, s, ts[..k]).Failure?
    ensures LegacySweep(tk, di, s, ts) == LegacySweep(tk, di, s, ts[..k])
    decreases |ts| - k
  {
    hide CountSpec;
    if k < |ts| {
      assert ts[..k + 1][..k] == ts[..k];
      LegacySweepFailurePersists(tk, di, s, ts, k + 1);
      assert ts[..|ts|] == ts;
    } else {
      assert ts[..k] == ts;
    }
  }

  /** `optim_iterate(images, dirinfo, params, interv)`: the sweep's table and the manual image. */
  function OptimIterateSpec(tk: Toolkit, images: Images, di: DirInfo, s: Settings, interv: int): Result<(seq<OptimizationRow>, Image)> {
    var ts :- ThresholdValues(images.gauss, interv);
    var ms :- LegacySweep(tk, di, s, ts);
    var rows :- Table(ms, s);
    Success((rows, images.manual))
  }

  /**
   * One row per threshold 0, interv, 2 * interv, ... below the blurred image's rounded-down
   * maximum, each from a legacy count at that threshold, with NaN area and accuracy when nothing
   * is counted; the manual image is returned beside the table.
   */
  lemma OptimIterateRows(tk: Toolkit, images: Images, di: DirInfo, s: Settings, interv: int)
    requires OptimIterateSpec(tk, images, di, s, interv).Success?
    ensures var (rows, manual) := OptimIterateSpec(tk, images, di, s, interv).value;
      var ts := ThresholdValues(images.gauss, interv).value;
      && manual == images.manual
      && ThresholdValues(images.gauss, interv).Success?
      && |rows| == |ts|
      && forall i :: 0 <= i < |rows| ==>
        && rows[i].autoCountThresh == ts[i] == i * interv
        && CountSpec(tk, 0, "Optim", s.(thresh := Some(ts[i] as real)), di, s.useWatershed, false).Success?
        && var out := CountSpec(tk, 0, "Optim", s.(thresh := Some(ts[i] as real)), di, s.useWatershed, false).value;
        && rows[i].autoCounts == out.nrNuclei
        && rows[i].avgCellArea == AvgCellArea(out.cells, out.nrNuclei)
        && rows[i].accuracy == (if out.nrNuclei > 0 then TrueDivide(out.nrNuclei, s.counts.value) else NaN)
        && rows[i].otsuThresh == s.otsu.value && rows[i].manualCellDiam == s.diam
        && rows[i].manualCounts == s.counts.value && rows[i].useWatershed == s.useWatershed
  {
    hide CountSpec;
    var ts := ThresholdValues(images.gauss, interv).value;
    LegacySweepRows(tk, di, s, ts);
  }

  /** `optim_iterate`: only `thresh` changes in `params`. */
  method OptimIterate(tk: Toolkit, images: Images, di: DirInfo, params: Params, interv: int)
    returns (r: Result<(seq<OptimizationRow>, Image)>)
    modifies params
    ensures r == OptimIterateSpec(tk, images, di, old(params.Snapshot()), interv)
    ensures params.Snapshot().(thresh := old(params.thresh)) == old(params.Snapshot())
    ensures ThresholdValues(images.gauss, interv).Success? && r.Success? ==>
      var ts := ThresholdValues(images.gauss, interv).value;
      params.thresh == if |ts| == 0 then old(params.thresh) else Some(ts[|ts| - 1] as real)
  {
    hide CountSpec;
    var s := params.Snapshot();
    var ts :- ThresholdValues(images.gauss, interv);
    var ms: seq<Measurement> := [];
    for k := 0 to |ts|
      invariant params.Snapshot() == s.(thresh := params.thresh)
      invariant LegacySweep(tk, di, s, ts[..k]) == Success(ms)
      invariant params.thresh == if k == 0 then s.thresh else Some(ts[k - 1] as real)
    {
      params.thresh := Some(ts[k] as real);
      assert ts[..k + 1][..k] == ts[..k];
      var out := Count(tk, 0, "Optim", params, di, params.useWatershed, false);
      if out.Failure? {
        LegacySweepFailurePersists(tk, di, s, ts, k + 1);
        return Failure(out.error);
      }
      var m := Measure(ts[k], out.value, params.counts);
      if m.Failure? {
        LegacySweepFailurePersists(tk, di, s, ts, k + 1);
        return Failure(m.error);
      }
      ms := ms + [m.value];
    }
    assert ts[..|ts|] == ts;
    var rows :- Table(ms, s);
    r := Success((rows, images.manual));
  }

  /** The legacy `cellcounting_param_optimizer(dirinfo, params)`. */
  function LegacyOptimizerSpec(tk: Toolkit, di: DirInfo, s0: Settings): Result<(int, int)> {
    var st :- LegacyDiamSearch(tk, di, s0);
    var res :- OptimIterateSpec(tk, st.images, di, st.settings, 10);
    var t :- ChosenThreshold(res.0);
    Success((st.settings.diam, t))
  }

  /**
   * What the legacy optimizer returns: the diameter of the step the search stops at, and the
   * threshold the backward scan picks from a sweep over that step's images and parameters, so
   * with the Otsu value and manual count of the final diameter.
   */
  lemma LegacyOptimizerResult(tk: Toolkit, di: DirInfo, s0: Settings, d: int, t: int)
    requires LegacyOptimizerSpec(tk, di, s0) == Success((d, t))
    ensures LegacyDiamSearch(tk, di, s0).Success?
    ensures var st := LegacyDiamSearch(tk, di, s0).value;
      && st.settings.diam == d <= s0.diam
      && GetImagesSpec(tk, di, s0.(diam := d)) == Success(st)
      && st.count.nrNuclei >= st.settings.counts.value
      && OptimIterateSpec(tk, st.images, di, st.settings, 10).Success?
      && exists i :: ChosenAt(OptimIterateSpec(tk, st.images, di, st.settings, 10).value.0, i, t)
  {
    hide CountSpec;
    hide PreparedImages;
    hide OptimIterateSpec;
    hide ChosenThreshold;
    hide LegacyDiamSearch;
    assert LegacyDiamSearch(tk, di, s0).Success?;
    var st := LegacyDiamSearch(tk, di, s0).value;
    assert st.settings.diam == d;
    var res := OptimIterateSpec(tk, st.images, di, st.settings, 10);
    assert res.Success? && ChosenThreshold(res.value.0) == Success(t);
    LegacyDiamSearchIff(tk, di, s0, st);
    ChosenThresholdIff(res.value.0, t);
  }

  /**
   * The legacy `cellcounting_param_optimizer`: while the count is below the manual count, lower
   * `params['diam']` by 1 and re-run `optim_getimages`; then sweep with interval 10 and scan back.
   */
  method CellcountingParamOptimizer(tk: Toolkit, di: DirInfo, params: Params) returns (r: Result<(int, int)>)
    modifies params
    ensures r == LegacyOptimizerSpec(tk, di, old(params.Snapshot()))
    ensures r.Success? ==> params.diam == r.value.0
    ensures params.Snapshot().(diam := old(params.diam), counts := old(params.counts), otsu := old(params.otsu), thresh := old(params.thresh))
      == old(params.Snapshot())
  {
    hide CountSpec;
    hide PreparedImages;
    hide OptimIterateSpec;
    hide ChosenThreshold;
    ghost var s0 := params.Snapshot();
    var st :- OptimGetImages(tk, di, params);
    while st.count.nrNuclei < params.counts.value
      invariant params.Snapshot() == st.settings
      invariant params.Snapshot().(diam := s0.diam, counts := s0.counts, otsu := s0.otsu, thresh := s0.thresh) == s0
      invariant st.settings.counts.Some? && st.settings.diam >= 2
      invariant LegacyDiamSearch(tk, di, s0) == Continue(tk, di, st)
      decreases params.diam
    {
      params.diam := params.diam - 1;
      var next := OptimGetImages(tk, di, params);
      if next.Failure? {
        return Failure(next.error);
      }
      st := next.value;
    }
    var d := params.diam;
    var res :- OptimIterate(tk, st.images, di, params, 10);
    var t :- ScanBackward(res.0);
    r := Success((d, t));
  }

  /** One row of the `Count_folder` summary. */
  datatype FolderRow = FolderRow(fileName: string, thresh: real, useRoi: bool, avgCellDiam: int, particleMin: real, counts: nat, roiSize: nat)

  /** The files, diameter and threshold `Count_folder` reads for a channel. */
  function FolderSource(channel: string, s: Settings, di: DirInfo): (r: Result<(seq<string>, int, real)>)
    ensures r.Success? <==> channel == "Ch1" && di.ch1Names.Some? && s.ch1Diam.Some? && s.ch1Thresh.Some?
    ensures r.Success? ==> r.value == (di.ch1Names.value, s.ch1Diam.value, s.ch1Thresh.value)
    ensures channel == "Ch2" ==> r == Failure(KeyMissing("ch2_fnames"))
    ensures channel != "Ch1" && channel != "Ch2" ==> r == Failure(UnboundName("fnames"))
  {
    if channel == "Ch1" then
      var names :- Need(di.ch1Names, "ch1_fnames");
      var diam :- Need(s.ch1Diam, "ch1_diam");
      var thresh :- Need(s.ch1Thresh, "ch1_thresh");
      Success((names, diam, thresh))
    else if channel == "Ch2" then Failure(KeyMissing("ch2_fnames"))
    else Failure(UnboundName("fnames"))
  }

  /** The loop of `Count_folder` over the first n files, ending at the first count that raises. */
  function FolderFiles(tk: Toolkit, channel: string, di: DirInfo, s: Settings, useWatershed: bool, save: bool, names: seq<string>, n: nat): (r: Result<seq<FileCount>>)
    requires n <= |names|
    ensures r.Success? ==> |r.value| == n
  {
    if n == 0 then Success([])
    else
      var init :- FolderFiles(tk, channel, di, s, useWatershed, save, names, n - 1);
      var out :- CountSpec(tk, n - 1, channel, s, di, useWatershed, save);
      Success(init + [FileCountOf(names[n - 1], out)])
  }

  lemma {:induction false} FolderFilesRows(tk: Toolkit, channel: string, di: DirInfo, s: Settings, useWatershed: bool, save: bool, names: seq<string>, n: nat)
    requires n <= |names| && FolderFiles(tk, channel, di, s, useWatershed, save, names, n).Success?
    ensures var files := FolderFiles(tk, channel, di, s, useWatershed, save, names, n).value;
      forall i :: 0 <= i < n ==>
        && CountSpec(tk, i, channel, s, di, useWatershed, save).Success?
        && files[i] == FileCountOf(names[i], CountSpec(tk, i, channel, s, di, useWatershed, save).value)
  {
    hide CountSpec;
    if n > 0 {
      FolderFilesRows(tk, channel, di, s, useWatershed, save, names, n - 1);
      var init := FolderFiles(tk, channel, di, s, useWatershed, save, names, n - 1).value;
      var out := CountSpec(tk, n - 1, channel, s, di, useWatershed, save);
      assert out.Success?;
      assert FolderFiles(tk, channel, di, s, useWatershed, save, names, n).value == init + [FileCountOf(names[n - 1], out.value)];
    }
  }

  lemma {:induction false} FolderFilesFailurePersists(tk: Toolkit, channel: string, di: DirInfo, s: Settings, useWatershed: bool, save: bool, names: seq<string>, k: nat)
    requires k <= |names| && FolderFiles(tk, channel, di, s, useWatershed, save, names, k).Failure?
    ensures FolderFiles(tk, channel, di, s, useWatershed, save, names, |names|) == FolderFiles(tk, channel, di, s, useWatershed, save, names, k)
    decreases |names| - k
  {
    hide CountSpec;
    if k < |names| {
      FolderFilesFailurePersists(tk, channel, di, s, useWatershed, save, names, k + 1);
    }
  }

  /** The `Count_folder` summary table and the label images written, one per file. */
  datatype FolderOutput = FolderOutput(summary: seq<FolderRow>, files: seq<FileCount>)

  /** `Count_folder(dirinfo, params, Channel, UseROI, UseWatershed, SaveIntensities)`. */
  function CountFolderSpec(tk: Toolkit, di: DirInfo, s: Settings, channel: string, useRoi: bool, useWatershed: bool, save: bool): Result<FolderOutput> {
    var src :- FolderSource(channel, s, di);
    var (names, diam, thresh) := src;
    var files :- FolderFiles(tk, channel, di, s, useWatershed, save, names, |names|);
    Success(FolderOutput(FolderRows(names, thresh, useRoi, diam, s.particleMin, files), files))
  }

  function FolderRows(names: seq<string>, thresh: real, useRoi: bool, diam: int, pmin: real, files: seq<FileCount>): (rows: seq<FolderRow>)
    requires |files| == |names|
    ensures |rows| == |names|
    ensures forall i :: 0 <= i < |rows| ==> rows[i] == FolderRow(names[i], thresh, useRoi, diam, pmin, files[i].count, files[i].roiSize)
  {
    seq(|names|, i requires 0 <= i < |names| => FolderRow(names[i], thresh, useRoi, diam, pmin, files[i].count, files[i].roiSize))
  }

  /**
   * `Count_folder` succeeds only for "Ch1" (the Ch2 keys are never set, and any other channel
   * leaves `fnames` unbound); then it has one summary row and one `_Counts.tif` label image per
   * file, in listing order, each from the legacy count of that file, with the threshold,
   * `UseROI`, diameter and particle-minimum columns constant.
   */
  lemma CountFolderRows(tk: Toolkit, di: DirInfo, s: Settings, channel: string, useRoi: bool, useWatershed: bool, save: bool)
    requires CountFolderSpec(tk, di, s, channel, useRoi, useWatershed, save).Success?
    ensures channel == "Ch1" && di.ch1Names.Some?
    ensures var f := CountFolderSpec(tk, di, s, channel, useRoi, useWatershed, save).value;
      var names := di.ch1Names.value;
      && |f.summary| == |names| && |f.files| == |names|
      && forall i :: 0 <= i < |names| ==>
        && CountSpec(tk, i, "Ch1", s, di, useWatershed, save).Success?
        && var out := CountSpec(tk, i, "Ch1", s, di, useWatershed, save).value;
        && f.summary[i] == FolderRow(names[i], s.ch1Thresh.value, useRoi, s.ch1Diam.value, s.particleMin, out.nrNuclei, out.roiSize)
        && f.files[i].labels == LabelImage(StripExt(names[i]) + "_Counts.tif", ToUint16Grid(out.cells))
  {
    hide CountSpec;
    var names := di.ch1Names.value;
    FolderFilesRows(tk, channel, di, s, useWatershed, save, names, |names|);
  }

  /** `Count_folder`; `params` is only read. */
  method CountFolder(tk: Toolkit, di: DirInfo, params: Params, channel: string, useRoi: bool, useWatershed: bool, save: bool)
    returns (r: Result<FolderOutput>)
    ensures r == CountFolderSpec(tk, di, params.Snapshot(), channel, useRoi, useWatershed, save)
  {
    hide CountSpec;
    var s := params.Snapshot();
    var src :- FolderSource(channel, s, di);
    var (names, diam, thresh) := src;
    var files: seq<FileCount> := [];
    for k := 0 to |names|
      invariant FolderFiles(tk, channel, di, s, useWatershed, save, names, k) == Success(files)
    {
      var out := Count(tk, k, channel, params, di, useWatershed, save);
      if out.Failure? {
        FolderFilesFailurePersists(tk, channel, di, s, useWatershed, save, names, k + 1);
        return Failure(out.error);
      }
      files := files + [FileCountOf(names[k], out.value)];
    }
    r := Success(FolderOutput(FolderRows(names, thresh, useRoi, diam, params.particleMin, files), files));
  }
}
