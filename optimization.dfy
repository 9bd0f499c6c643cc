/**
 * The parts of the parameter optimizer that both backends write identically: preparing the
 * composite and manual images, the grid of thresholds `np.arange(0, thresh_max, interv)`, the
 * average cell area and the accuracy of one sweep row, the optimization table, and the backward
 * scan that picks the optimal threshold from it.
 */
module Optimization {

  import opened Outcomes
  import opened Numerics
  import opened Grids
  import opened Kernels
  import opened Config
  import opened Stages

  /** The `images` dictionary: the first manual and composite files and the composite's filtering stages. */
  datatype Images = Images(
    manual: Image,
    composite: Image,
    median: Image,
    bg: Grid<real>,
    gauss: RealImage,
    otsu: Grid<bool>)

  /** `filters.threshold_otsu(image=gauss.astype('int64'))`. */
  function OtsuOf(tk: Toolkit, gauss: Grid<real>): real {
    tk.otsu(TruncGrid(gauss))
  }

  /**
   * The images prepared at diameter `diam`: the composite median-filtered with window diam // 2,
   * its background subtracted with sigma diam * 3, blurred with sigma diam / 6, and thresholded at
   * its Otsu value. The manual file is read first, but a failed read only raises once its pixels
   * are compared, after the composite has been filtered.
   */
  function PreparedImages(tk: Toolkit, di: DirInfo, diam: int): (r: Result<Images>)
    ensures r.Success? ==> diam >= 2
    ensures r.Success? <==>
      && |di.manualNames| > 0 && |di.compositeNames| > 0 && diam >= 2
      && tk.imread(Composite, di.compositeNames[0]).Some? && tk.imread(ManualCounts, di.manualNames[0]).Some?
    ensures r.Success? ==>
      && r.value.manual == tk.imread(ManualCounts, di.manualNames[0]).value
      && r.value.composite == tk.imread(Composite, di.compositeNames[0]).value
      && SameShape(r.value.composite, r.value.gauss)
      && r.value.otsu == Threshold(r.value.gauss, OtsuOf(tk, r.value.gauss))
  {
    MedianWindowValid(diam);
    var manualName :- PyIndex(di.manualNames, 0);
    var compositeName :- PyIndex(di.compositeNames, 0);
    var composite :- ReadImage(tk, Composite, compositeName);
    var median :- MedianFilter(tk, composite, FloorDiv(diam, 2));
    var bg := SubtractedBackground(tk, median, (diam * 3) as real);
    var gauss := GaussianBlur(tk, bg, diam as real / 6.0);
    assert IsRect(gauss);
    var manual :- ReadImage(tk, ManualCounts, manualName);
    Success(Images(manual, composite, median, bg, gauss, Threshold(gauss, OtsuOf(tk, gauss))))
  }

  /** `PreparedImages`, with the background subtraction done in place on an array. */
  method LoadImages(tk: Toolkit, di: DirInfo, diam: int) returns (r: Result<Images>)
    ensures r == PreparedImages(tk, di, diam)
  {
    var manualName :- PyIndex(di.manualNames, 0);
    var compositeName :- PyIndex(di.compositeNames, 0);
    var composite :- ReadImage(tk, Composite, compositeName);
    var median :- MedianFilter(tk, composite, FloorDiv(diam, 2));
    var bg := SubtractBg(tk, median, (diam * 3) as real);
    var gauss := GaussianBlur(tk, bg, diam as real / 6.0);
    var manual :- ReadImage(tk, ManualCounts, manualName);
    r := Success(Images(manual, composite, median, bg, gauss, Threshold(gauss, OtsuOf(tk, gauss))));
  }

  /** `params` after preprocessing: the manual count, Otsu's threshold, and the threshold reset to it. */
  function AfterPreprocessing(tk: Toolkit, s: Settings, images: Images): (s': Settings)
    ensures s'.counts == Some(CountPositive(images.manual))
    ensures s'.otsu == Some(OtsuOf(tk, images.gauss)) && s'.thresh == s'.otsu
    ensures s'.(counts := s.counts, otsu := s.otsu, thresh := s.thresh) == s
  {
    var o := OtsuOf(tk, images.gauss);
    s.(counts := Some(CountPositive(images.manual)), otsu := Some(o), thresh := Some(o))
  }

  /** `list(np.arange(start, stop, step))` for integers; a step of 0 raises. */
  function Arange(start: int, stop: int, step: int): (r: Result<seq<int>>)
    ensures r.Success? <==> step != 0
    ensures r.Success? ==> forall i :: 0 <= i < |r.value| ==> r.value[i] == start + i * step
    ensures r.Success? && step > 0 ==>
      (forall i :: 0 <= i < |r.value| ==> r.value[i] < stop) && start + |r.value| * step >= stop
    ensures r.Success? && step < 0 ==>
      (forall i :: 0 <= i < |r.value| ==> r.value[i] > stop) && start + |r.value| * step <= stop
  {
    if step == 0 then Failure(DivisionByZero)
    else
      var n := ArangeLength(start, stop, step);
      var values := seq(n, i => start + i * step);
      forall i | 0 <= i < n
        ensures if step > 0 then values[i] < stop else values[i] > stop
      {
        MulMonotone(i, n - 1, if step > 0 then step else -step);
      }
      Success(values)
  }

  /** ceil((stop - start) / step), or 0 when the range is empty. */
  function ArangeLength(start: int, stop: int, step: int): (n: nat)
    requires step != 0
    ensures n == 0 || (step > 0 && start + (n - 1) * step < stop) || (step < 0 && start + (n - 1) * step > stop)
    ensures step > 0 ==> start + n * step >= stop
    ensures step < 0 ==> start + n * step <= stop
  {
    if step > 0 then
      (if stop <= start then 0 else
        var n := FloorDiv(stop - start + step - 1, step);
        assert n * step <= stop - start + step - 1 < n * step + step;
        assert (n - 1) * step == n * step - step;
        n)
    else
      (if stop >= start then 0 else
        var n := FloorDiv(start - stop - step - 1, -step);
        assert n * -step <= start - stop - step - 1 < n * -step - step;
        assert (n - 1) * step == n * step - step;
        n)
  }

  lemma MulMonotone(i: int, j: int, b: int)
    requires i <= j && b >= 0
    ensures i * b <= j * b
  {
    assert j * b - i * b == (j - i) * b;
  }

  /** `list(np.arange(0, int(gauss.max() // 1), interv))`: the thresholds the sweep tests. */
  function ThresholdValues(gauss: RealImage, interv: int): Result<seq<int>> {
    Arange(0, FloorToInt(MaxOf(gauss)), interv)
  }

  /**
   * For a positive step the thresholds are exactly the multiples of the step from 0 up to, and
   * not including, the largest value of the blurred image rounded down.
   */
  lemma ThresholdGrid(gauss: RealImage, interv: int)
    requires interv > 0
    ensures ThresholdValues(gauss, interv).Success?
    ensures var ts := ThresholdValues(gauss, interv).value; var tmax := FloorToInt(MaxOf(gauss));
      forall t :: t in ts <==> 0 <= t < tmax && t % interv == 0
  {
    var ts := ThresholdValues(gauss, interv).value;
    var tmax := FloorToInt(MaxOf(gauss));
    forall t | t in ts
      ensures 0 <= t < tmax && t % interv == 0
    {
      var i :| 0 <= i < |ts| && ts[i] == t;
      assert t == i * interv;
      MulMonotone(0, i, interv);
      MultipleMod(i, interv);
    }
    forall t | 0 <= t < tmax && t % interv == 0
      ensures t in ts
    {
      var k := t / interv;
      assert t == k * interv;
      if k >= |ts| {
        MulMonotone(|ts|, k, interv);
        assert false;
      }
      assert ts[k] == t;
    }
  }

  lemma MultipleMod(i: int, b: int)
    requires b > 0
    ensures (i * b) % b == 0
  {
    var q := (i * b) / b;
    var r := (i * b) % b;
    assert i * b == q * b + r && 0 <= r < b;
    assert (i - q) * b == r;
    if i - q >= 1 {
      MulMonotone(1, i - q, b);
    } else if i - q <= -1 {
      MulMonotone(i - q, -1, b);
    }
  }

  /** The values one threshold contributes to the sweep lists. */
  datatype Measurement = Measurement(thresh: int, autoCounts: nat, avgCellArea: Float64, accuracy: Float64)

  /**
   * The average cell area of a sweep row: the number of labelled pixels over the number of cells,
   * NaN when no cell was found.
   */
  function AvgCellArea(cells: Grid<int>, nr: nat): (a: Float64)
    ensures a.NaN? <==> nr == 0
    ensures !a.PosInf?
    ensures a.Finite? ==> a.value * nr as real == CountPositive(cells) as real
  {
    if nr > 0 then Finite(CountPositive(cells) as real / nr as real) else NaN
  }

  /**
   * The accuracy of a sweep row, `nr / params['counts']`: NaN when no cell was found, +inf for a
   * manual count of 0, and a KeyError when cells were found but no manual count is set.
   */
  function Accuracy(nr: nat, counts: Option<nat>): (r: Result<Float64>)
    ensures nr == 0 ==> r == Success(NaN)
    ensures nr > 0 ==> (r.Success? <==> counts.Some?)
    ensures r.Failure? ==> r.error == KeyMissing("counts")
    ensures nr > 0 && counts == Some(0) ==> r == Success(PosInf)
    ensures nr > 0 && r.Success? && counts.value > 0 ==> r.value.Finite? && r.value.value * counts.value as real == nr as real
  {
    if nr > 0 then
      var c :- Need(counts, "counts");
      Success(TrueDivide(nr, c))
    else Success(NaN)
  }

  /** The row the sweep appends for threshold `t` and the count it produced. */
  function Measure(t: int, out: CountOutput, counts: Option<nat>): (r: Result<Measurement>)
    ensures r.Success? <==> out.nrNuclei == 0 || counts.Some?
    ensures r.Failure? ==> r.error == KeyMissing("counts")
    ensures r.Success? ==> r.value.thresh == t && r.value.autoCounts == out.nrNuclei
    ensures r.Success? ==> (r.value.avgCellArea.NaN? <==> out.nrNuclei == 0) && (r.value.accuracy.NaN? <==> out.nrNuclei == 0)
    ensures r.Success? && out.nrNuclei > 0 ==>
      && r.value.avgCellArea.Finite?
      && r.value.avgCellArea.value * out.nrNuclei as real == CountPositive(out.cells) as real
      && r.value.accuracy == TrueDivide(out.nrNuclei, counts.value)
  {
    var acc :- Accuracy(out.nrNuclei, counts);
    Success(Measurement(t, out.nrNuclei, AvgCellArea(out.cells, out.nrNuclei), acc))
  }

  /** One row of the optimization table. */
  datatype OptimizationRow = OptimizationRow(
    autoCountThresh: int,
    otsuThresh: real,
    manualCellDiam: int,
    manualCounts: nat,
    useWatershed: bool,
    autoCounts: nat,
    avgCellArea: Float64,
    accuracy: Float64)

  /**
   * The optimization table: one row per measurement, in order, with the Otsu threshold, diameter,
   * manual count and watershed switch of `params` repeated in every row.
   */
  function Table(ms: seq<Measurement>, s: Settings): (r: Result<seq<OptimizationRow>>)
    ensures r.Success? <==> s.otsu.Some? && s.counts.Some?
    ensures r.Failure? ==> r.error == (if s.otsu.None? then KeyMissing("otsu") else KeyMissing("counts"))
    ensures r.Success? ==> |r.value| == |ms| && forall i :: 0 <= i < |ms| ==>
      var row := r.value[i];
      && row.autoCountThresh == ms[i].thresh && row.autoCounts == ms[i].autoCounts
      && row.avgCellArea == ms[i].avgCellArea && row.accuracy == ms[i].accuracy
      && row.otsuThresh == s.otsu.value && row.manualCellDiam == s.diam
      && row.manualCounts == s.counts.value && row.useWatershed == s.useWatershed
  {
    var otsu :- Need(s.otsu, "otsu");
    var counts :- Need(s.counts, "counts");
    Success(seq(|ms|, i requires 0 <= i < |ms| =>
      OptimizationRow(ms[i].thresh, otsu, s.diam, counts, s.useWatershed, ms[i].autoCounts, ms[i].avgCellArea, ms[i].accuracy)))
  }

  /** The row's accuracy is below 1; NaN and +inf are not. */
  predicate BelowOne(row: OptimizationRow) {
    LessThan(row.accuracy, 1.0)
  }

  /** The last row before position k whose accuracy is not below 1, or -1. */
  function LastNotBelowOne(rows: seq<OptimizationRow>, k: int): (i: int)
    requires 0 <= k <= |rows|
    ensures -1 <= i < k
    ensures i >= 0 ==> !BelowOne(rows[i])
    ensures forall j :: i < j < k ==> BelowOne(rows[j])
  {
    if k == 0 then -1
    else if !BelowOne(rows[k - 1]) then k - 1
    else LastNotBelowOne(rows, k - 1)
  }

  /**
   * The optimal threshold: the threshold of the row after the last row whose accuracy is not
   * below 1. Looking up a row label outside the table raises KeyError: label -1 when every row
   * is below 1, label len(rows) when the last row is not.
   */
  function ChosenThreshold(rows: seq<OptimizationRow>): (r: Result<int>)
  {
    var i := LastNotBelowOne(rows, |rows|);
    if i < 0 then Failure(RowMissing(i))
    else if i + 1 >= |rows| then Failure(RowMissing(i + 1))
    else Success(rows[i + 1].autoCountThresh)
  }

  lemma {:induction false} LastNotBelowOneIsUnique(rows: seq<OptimizationRow>, k: int, i: int)
    requires 0 <= k <= |rows| && -1 <= i < k
    requires i >= 0 ==> !BelowOne(rows[i])
    requires forall j :: i < j < k ==> BelowOne(rows[j])
    ensures LastNotBelowOne(rows, k) == i
  {
    if k > 0 && i < k - 1 {
      LastNotBelowOneIsUnique(rows, k - 1, i);
    }
  }

  /** Row i is the last row not below 1, it is not the last row, and t is the threshold after it. */
  predicate ChosenAt(rows: seq<OptimizationRow>, i: int, t: int) {
    && 0 <= i < |rows| - 1
    && !BelowOne(rows[i])
    && (forall j :: i < j < |rows| ==> BelowOne(rows[j]))
    && t == rows[i + 1].autoCountThresh
  }

  /**
   * The chosen threshold is t exactly when some row i other than the last is not below 1, every
   * later row is below 1, and t is the threshold of row i + 1.
   */
  lemma ChosenThresholdIff(rows: seq<OptimizationRow>, t: int)
    ensures ChosenThreshold(rows) == Success(t) <==> exists i :: ChosenAt(rows, i, t)
  {
    if ChosenThreshold(rows) == Success(t) {
      assert ChosenAt(rows, LastNotBelowOne(rows, |rows|), t);
    }
    if exists i :: ChosenAt(rows, i, t) {
      var i :| ChosenAt(rows, i, t);
      LastNotBelowOneIsUnique(rows, |rows|, i);
    }
  }

  /** The scan fails exactly when every row is below 1 or the last row is not. */
  lemma ChosenThresholdFails(rows: seq<OptimizationRow>)
    ensures ChosenThreshold(rows).Failure? <==>
      (forall j :: 0 <= j < |rows| ==> BelowOne(rows[j])) || (|rows| > 0 && !BelowOne(rows[|rows| - 1]))
  {
    if forall j :: 0 <= j < |rows| ==> BelowOne(rows[j]) {
      LastNotBelowOneIsUnique(rows, |rows|, -1);
    }
  }

  /** `i = len(data) - 1; while data[...][i] < 1: i -= 1`, then the threshold at label i + 1. */
  method ScanBackward(rows: seq<OptimizationRow>) returns (r: Result<int>)
    ensures r == ChosenThreshold(rows)
  {
    var i := |rows| - 1;
    while true
      invariant -1 <= i < |rows|
      invariant forall j :: i < j < |rows| ==> BelowOne(rows[j])
      decreases i + 1
    {
      if i < 0 {
        LastNotBelowOneIsUnique(rows, |rows|, i);
        return Failure(RowMissing(i));
      }
      if !BelowOne(rows[i]) {
        break;
      }
      i := i - 1;
    }
    LastNotBelowOneIsUnique(rows, |rows|, i);
    if i + 1 >= |rows| {
      return Failure(RowMissing(i + 1));
    }
    r := Success(rows[i + 1].autoCountThresh);
  }
}
