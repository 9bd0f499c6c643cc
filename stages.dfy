/**
 * The image stages of the counting pipeline. `cell_counter_backend.py` and `backend.py` define
 * them with the same code (median_filter / medianFilter, subtract_bg / subtractbg,
 * rm_smallparts, watershed, and the per-cell record loop), so both backends use these members.
 */
module Stages {

  import opened Outcomes
  import opened Numerics
  import opened Grids
  import opened Connectivity
  import opened Labeling
  import opened Kernels
  import opened FileNames

  /** The window size `median_filter` passes on: an even request becomes the odd number below it. */
  function OddKernel(k: int): (size: int)
    ensures size % 2 == 1
    ensures k - 2 < size <= k
    ensures k % 2 == 1 ==> size == k
  {
    if k % 2 == 0 then k - 1 else k
  }

  /** The window requested for a cell diameter, `diam // 2`, is a valid one exactly from diameter 2 up. */
  lemma MedianWindowValid(diam: int)
    ensures OddKernel(FloorDiv(diam, 2)) >= 1 <==> diam >= 2
  {
    var k := FloorDiv(diam, 2);
    if diam >= 2 {
      assert k >= 1;
    } else {
      assert k <= 0;
    }
  }

  /**
   * `median_filter(image, kernel_size)`: a median over an odd window; scipy raises for a window
   * size below 1 (size 0 leaves the rank outside the footprint, a negative size cannot build one).
   */
  function MedianFilter(tk: Toolkit, img: Image, k: int): (r: Result<Image>)
    ensures r.Success? <==> OddKernel(k) >= 1
    ensures r.Failure? ==> r.error == InvalidWindow
    ensures r.Success? ==> SameShape(img, r.value)
    ensures r.Success? ==> forall p :: InBounds(img, p) ==> At(r.value, p) == tk.medianAt(img, OddKernel(k), p)
  {
    var size := OddKernel(k);
    if size < 1 then Failure(InvalidWindow)
    else
      var out := seq(|img|, i requires 0 <= i < |img| =>
        seq(|img[i]|, j requires 0 <= j < |img[i]| => tk.medianAt(img, size, Pixel(i, j))));
      assert IsRect(out);
      Success(out)
  }

  function ClipNegative(x: real): real {
    if x < 0.0 then 0.0 else x
  }

  /** `new_image[new_image < 0] = 0`. */
  method ClipInPlace(a: array2<real>)
    modifies a
    ensures forall i, j :: 0 <= i < a.Length0 && 0 <= j < a.Length1 ==> a[i, j] == ClipNegative(old(a[i, j]))
  {
    var i := 0;
    while i < a.Length0
      invariant 0 <= i <= a.Length0
      invariant forall r, c :: 0 <= r < i && 0 <= c < a.Length1 ==> a[r, c] == ClipNegative(old(a[r, c]))
      invariant forall r, c :: i <= r < a.Length0 && 0 <= c < a.Length1 ==> a[r, c] == old(a[r, c])
    {
      var j := 0;
      while j < a.Length1
        invariant 0 <= j <= a.Length1
        invariant forall r, c :: 0 <= r < i && 0 <= c < a.Length1 ==> a[r, c] == ClipNegative(old(a[r, c]))
        invariant forall c :: 0 <= c < j ==> a[i, c] == ClipNegative(old(a[i, c]))
        invariant forall c :: j <= c < a.Length1 ==> a[i, c] == old(a[i, c])
        invariant forall r, c :: i < r < a.Length0 && 0 <= c < a.Length1 ==> a[r, c] == old(a[r, c])
      {
        if a[i, j] < 0.0 {
          a[i, j] := 0.0;
        }
        j := j + 1;
      }
      i := i + 1;
    }
  }

  /**
   * `subtract_bg(image, kernel_size)`: the image as floats minus its Gaussian blur, with negative
   * differences set to 0.
   */
  function SubtractedBackground(tk: Toolkit, img: Image, sigma: real): (r: Grid<real>)
    ensures SameShape(img, r)
    ensures forall p :: InBounds(img, p) ==> At(r, p) >= 0.0
    ensures forall p :: InBounds(img, p) ==>
      var diff := At(img, p) as real - tk.gaussianAt(ToReal(img), sigma, p);
      diff >= 0.0 ==> At(r, p) == diff
    ensures forall p :: InBounds(img, p) ==>
      At(img, p) as real - tk.gaussianAt(ToReal(img), sigma, p) < 0.0 ==> At(r, p) == 0.0
  {
    var g := ToReal(img);
    var bg := GaussianBlur(tk, g, sigma);
    seq(|img|, i requires 0 <= i < |img| =>
      seq(|img[i]|, j requires 0 <= j < |img[i]| => ClipNegative(g[i][j] - bg[i][j])))
  }

  /** The contents of a two-dimensional array as a grid. */
  function ArrayGrid(a: array2<real>): (g: Grid<real>)
    reads a
    ensures IsGrid(g, a.Length0, a.Length1)
    ensures forall i, j :: 0 <= i < a.Length0 && 0 <= j < a.Length1 ==> g[i][j] == a[i, j]
  {
    seq(a.Length0, i requires 0 <= i < a.Length0 reads a =>
      seq(a.Length1, j requires 0 <= j < a.Length1 reads a => a[i, j]))
  }

  /** `subtract_bg`, computing the difference into a new array and clipping it in place. */
  method SubtractBg(tk: Toolkit, img: Image, sigma: real) returns (out: Grid<real>)
    ensures out == SubtractedBackground(tk, img, sigma)
  {
    var g := ToReal(img);
    var bg := GaussianBlur(tk, g, sigma);
    var h, w := |img|, |img[0]|;
    var a := new real[h, w];
    var i := 0;
    while i < h
      invariant 0 <= i <= h
      invariant forall r, c :: 0 <= r < i && 0 <= c < w ==> a[r, c] == g[r][c] - bg[r][c]
    {
      var j := 0;
      while j < w
        invariant 0 <= j <= w
        invariant forall r, c :: 0 <= r < i && 0 <= c < w ==> a[r, c] == g[r][c] - bg[r][c]
        invariant forall c :: 0 <= c < j ==> a[i, c] == g[i][c] - bg[i][c]
      {
        a[i, j] := g[i][j] - bg[i][j];
        j := j + 1;
      }
      i := i + 1;
    }
    ClipInPlace(a);
    out := ArrayGrid(a);
    GridsEqual(out, SubtractedBackground(tk, img, sigma), h, w);
  }

  /** `mh.labeled.remove_regions(labeled, regions)`: pixels whose label is listed become background. */
  function RemoveRegions(L: Grid<int>, regions: set<int>): (r: Grid<int>)
    ensures |r| == |L| && forall i :: 0 <= i < |L| ==> |r[i]| == |L[i]|
    ensures forall p :: InBounds(L, p) ==> At(r, p) == if At(L, p) in regions then 0 else At(L, p)
  {
    seq(|L|, i requires 0 <= i < |L| =>
      seq(|L[i]|, j requires 0 <= j < |L[i]| => if L[i][j] in regions then 0 else L[i][j]))
  }

  /** `labeled != 0`. */
  function NonZero(L: Grid<int>): (m: Grid<bool>)
    ensures |m| == |L| && forall i :: 0 <= i < |L| ==> |m[i]| == |L[i]|
    ensures forall p :: InBounds(L, p) ==> (At(m, p) <==> At(L, p) != 0)
  {
    seq(|L|, i requires 0 <= i < |L| => seq(|L[i]|, j requires 0 <= j < |L[i]| => L[i][j] != 0))
  }

  /** The smallest component size `rm_smallparts` keeps: diam * diam * particle_min pixels. */
  function MinParticle(diam: int, pmin: real): real {
    (diam * diam) as real * pmin
  }

  /**
   * `rm_smallparts(mask, diam, particle_min)`: a pixel stays foreground exactly when it was
   * foreground and its connected component has at least diam * diam * particle_min pixels.
   */
  function RmSmallparts(m: Grid<bool>, diam: int, pmin: real): (r: Grid<bool>)
    requires IsRect(m)
    ensures SameShape(m, r)
    ensures forall p :: InBounds(m, p) ==>
      (At(r, p) <==> At(m, p) && MinParticle(diam, pmin) <= |Component(m, p)| as real)
  {
    var (L, n) := Label(m);
    var sizes := LabeledSize(L, n);
    var tooSmall := set k | 0 <= k <= n && (sizes[k] as real) < MinParticle(diam, pmin);
    var r := NonZero(RemoveRegions(L, tooSmall));
    forall p | InBounds(m, p)
      ensures At(r, p) <==> At(m, p) && MinParticle(diam, pmin) <= |Component(m, p)| as real
    {
      KeptIffLarge(m, L, n, diam, pmin, p);
    }
    r
  }

  lemma KeptIffLarge(m: Grid<bool>, L: Grid<int>, n: nat, diam: int, pmin: real, p: Pixel)
    requires IsRect(m) && IsComponentLabelling(m, L, n) && InBounds(m, p)
    ensures var tooSmall := set k | 0 <= k <= n && (LabeledSize(L, n)[k] as real) < MinParticle(diam, pmin);
      At(NonZero(RemoveRegions(L, tooSmall)), p) <==> At(m, p) && MinParticle(diam, pmin) <= |Component(m, p)| as real
  {
    if At(m, p) {
      LabelOfPixelIsComponent(m, L, n, p);
    }
  }

  /**
   * `watershed(mask, diam, particle_min)`. A mask with some foreground pixel is flooded by the
   * library; an all-background mask gives an all-zero label map and no seeds.
   */
  function Watershed(tk: Toolkit, m: Grid<bool>, diam: int, pmin: real): (r: (Grid<int>, nat))
    requires IsRect(m)
    ensures SameShape(m, r.0)
    ensures forall p :: InBounds(m, p) && !At(m, p) ==> At(r.0, p) == 0
    ensures !AnyTrue(m) ==> r.1 == 0 && forall p :: InBounds(m, p) ==> At(r.0, p) == 0
  {
    if AnyTrue(m) then (Flood(tk, m, diam, pmin), tk.seedCount(m, diam, pmin))
    else
      assert forall p :: InBounds(m, p) ==> !At(m, p);
      (BoolToInt(m), 0)
  }

  /** The thresholded, pruned mask and the cells counted in it. */
  datatype Segmentation = Segmentation(mask: Grid<bool>, cells: Grid<int>, count: nat)

  /**
   * Lines shared by both counters: threshold the blurred image strictly above `thresh`, prune
   * small particles, then label the cells by watershed or by plain connected components.
   */
  function Segment(tk: Toolkit, gauss: Grid<real>, diam: int, thresh: real, pmin: real, useWatershed: bool): (s: Segmentation)
    requires IsRect(gauss)
    ensures SameShape(gauss, s.mask) && SameShape(gauss, s.cells)
    ensures forall p :: InBounds(gauss, p) ==>
      (At(s.mask, p) <==> At(gauss, p) > thresh && MinParticle(diam, pmin) <= |Component(Threshold(gauss, thresh), p)| as real)
    ensures forall p :: InBounds(gauss, p) && !At(s.mask, p) ==> At(s.cells, p) == 0
    ensures !useWatershed ==> IsComponentLabelling(s.mask, s.cells, s.count)
  {
    var raw := Threshold(gauss, thresh);
    assert IsRect(raw);
    var mask := RmSmallparts(raw, diam, pmin);
    var (cells, n) := if useWatershed then Watershed(tk, mask, diam, pmin) else Label(mask);
    Segmentation(mask, cells, n)
  }

  /** The labels `k` with lo <= k < hi that occur in `g` with a positive value, ascending. */
  function IdsBetween(g: Grid<int>, lo: int, hi: int): (ids: seq<int>)
    ensures forall i :: 0 <= i < |ids| ==> lo <= ids[i] < hi && ids[i] in PositiveValues(g)
    ensures forall i, j :: 0 <= i < j < |ids| ==> ids[i] < ids[j]
    ensures forall k :: lo <= k < hi && k in PositiveValues(g) ==> k in ids
    decreases hi - lo
  {
    if lo >= hi then []
    else (if lo in PositiveValues(g) then [lo] else []) + IdsBetween(g, lo + 1, hi)
  }

  /** `np.unique(cells[cells > 0])`: the distinct positive labels, in ascending order. */
  function CellIds(cells: Grid<int>): (ids: seq<int>)
    requires IsRect(cells)
    ensures forall i, j :: 0 <= i < j < |ids| ==> ids[i] < ids[j]
    ensures forall k :: k in ids <==> k in PositiveValues(cells)
  {
    var top := MaxIntOf(cells);
    assert forall k :: k in PositiveValues(cells) ==> 1 <= k < top + 1;
    IdsBetween(cells, 1, top + 1)
  }

  /** One row of the per-cell table. */
  datatype CellRecord = CellRecord(file: string, cellId: int, cellSize: nat, cellIntensity: real)

  /** The per-cell table of one image and the name of the file it is written to. */
  datatype CellTable = CellTable(fileName: string, records: seq<CellRecord>)

  /** The rows the record loop appends: one per id of `CellIds`, in that order. */
  function CellInfo(tk: Toolkit, file: string, cells: Grid<int>, gauss: Grid<real>): (rows: seq<CellRecord>)
    requires IsRect(cells)
    ensures |rows| == |CellIds(cells)|
    ensures forall i :: 0 <= i < |rows| ==>
      rows[i].cellId == CellIds(cells)[i] && rows[i].file == file && rows[i].cellSize == |Where(cells, rows[i].cellId)| &&
      rows[i].cellIntensity == tk.meanOver(gauss, cells, rows[i].cellId)
  {
    var ids := CellIds(cells);
    var rows := seq(|ids|, i requires 0 <= i < |ids| =>
      CellRecord(file, ids[i], CountWhere(cells, ids[i]), tk.meanOver(gauss, cells, ids[i])));
    assert forall i :: 0 <= i < |rows| ==> rows[i] == CellRecord(file, ids[i], CountWhere(cells, ids[i]), tk.meanOver(gauss, cells, ids[i]));
    rows
  }

  /**
   * The per-cell table has exactly one row per distinct positive label, in ascending label order,
   * and each row's size is the number of pixels with that label.
   */
  lemma CellInfoRows(tk: Toolkit, file: string, cells: Grid<int>, gauss: Grid<real>)
    requires IsRect(cells)
    ensures var rows := CellInfo(tk, file, cells, gauss);
      && (forall i, j :: 0 <= i < j < |rows| ==> rows[i].cellId < rows[j].cellId)
      && (forall k :: k in PositiveValues(cells) <==> exists i :: 0 <= i < |rows| && rows[i].cellId == k)
      && (forall i :: 0 <= i < |rows| ==> rows[i].cellSize == |Where(cells, rows[i].cellId)|)
  {
    var rows := CellInfo(tk, file, cells, gauss);
    var ids := CellIds(cells);
    forall k | k in PositiveValues(cells)
      ensures exists i :: 0 <= i < |rows| && rows[i].cellId == k
    {
      var i :| 0 <= i < |ids| && ids[i] == k;
      assert rows[i].cellId == k;
    }
  }

  /** The dictionary a counter returns; `cellTable` is the per-cell table it writes, if any. */
  datatype CountOutput = CountOutput(
    cells: Grid<int>,
    nrNuclei: nat,
    roiSize: nat,
    image: Image,
    gauss: Grid<real>,
    thresholded: Grid<bool>,
    cellTable: Option<CellTable>)

  /** The record loop of the counter, `pd.concat` growing the table one cell at a time. */
  method CollectCellInfo(tk: Toolkit, file: string, cells: Grid<int>, gauss: Grid<real>) returns (info: seq<CellRecord>)
    requires IsRect(cells)
    ensures info == CellInfo(tk, file, cells, gauss)
  {
    var ids := CellIds(cells);
    info := [];
    for k := 0 to |ids|
      invariant info == CellInfo(tk, file, cells, gauss)[..k]
    {
      var id := ids[k];
      info := info + [CellRecord(file, id, CountWhere(cells, id), tk.meanOver(gauss, cells, id))];
    }
  }

  /** With plain labelling, the cell ids are exactly 1..n and each cell is one connected component. */
  lemma LabelledCellIds(m: Grid<bool>, cells: Grid<int>, n: nat)
    requires IsRect(m) && IsComponentLabelling(m, cells, n)
    ensures IsRect(cells)
    ensures CellIds(cells) == seq(n, i => i + 1)
    ensures forall p :: Fg(m, p) ==> Where(cells, At(cells, p)) == Component(m, p)
  {
    LabelValues(m, cells, n);
    var ids := CellIds(cells);
    var expected := seq(n, i => i + 1);
    forall i | 0 <= i < |ids|
      ensures 1 <= ids[i] <= n
    {
      assert ids[i] in PositiveValues(cells);
    }
    IncreasingRangeIsRange(ids, n);
    forall p | Fg(m, p)
      ensures Where(cells, At(cells, p)) == Component(m, p)
    {
      LabelOfPixelIsComponent(m, cells, n, p);
    }
  }

  lemma IncreasingRangeIsRange(ids: seq<int>, n: nat)
    requires forall i, j :: 0 <= i < j < |ids| ==> ids[i] < ids[j]
    requires forall i :: 0 <= i < |ids| ==> 1 <= ids[i] <= n
    requires forall k :: 1 <= k <= n ==> k in ids
    ensures ids == seq(n, i => i + 1)
  {
    IncreasingBoundedLength(ids, n);
    if n > 0 {
      RangePrefix(ids, n, n - 1);
    }
    forall i | 0 <= i < n
      ensures ids[i] == i + 1
    {
      RangePrefix(ids, n, i);
    }
  }

  /** The first i + 1 entries of an increasing sequence that covers 1..n are 1..i + 1. */
  lemma {:induction false} RangePrefix(ids: seq<int>, n: nat, i: nat)
    requires forall a, b :: 0 <= a < b < |ids| ==> ids[a] < ids[b]
    requires forall a :: 0 <= a < |ids| ==> 1 <= ids[a] <= n
    requires forall k :: 1 <= k <= n ==> k in ids
    requires i < n
    ensures i < |ids| && ids[i] == i + 1
  {
    assert i + 1 in ids;
    var j :| 0 <= j < |ids| && ids[j] == i + 1;
    if i > 0 {
      RangePrefix(ids, n, i - 1);
      assert j >= i;
    }
    IncreasingLowerBound(ids, j);
    IncreasingLowerBound(ids, i);
  }

  lemma {:induction false} IncreasingLowerBound(ids: seq<int>, i: nat)
    requires forall a, b :: 0 <= a < b < |ids| ==> ids[a] < ids[b]
    requires forall a :: 0 <= a < |ids| ==> 1 <= ids[a]
    requires i < |ids|
    ensures ids[i] >= i + 1
  {
    if i > 0 {
      IncreasingLowerBound(ids, i - 1);
    }
  }

  lemma IncreasingBoundedLength(ids: seq<int>, n: nat)
    requires forall a, b :: 0 <= a < b < |ids| ==> ids[a] < ids[b]
    requires forall a :: 0 <= a < |ids| ==> 1 <= ids[a] <= n
    ensures |ids| <= n
  {
    if |ids| > 0 {
      IncreasingLowerBound(ids, |ids| - 1);
    }
  }
}
