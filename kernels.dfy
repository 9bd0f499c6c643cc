/**
 * The library computations the pipeline delegates to and that are not modelled here: reading a
 * 16-bit image, the scipy median window, the OpenCV Gaussian blur, Otsu's threshold, and the
 * skimage watershed flood with its seeds from a distance transform and peak_local_max, and a
 * mean intensity over a label. Each is a field of a `Toolkit` value that every operation takes
 * as a parameter, so every property proved below holds for any such library behaviour.
 * Per-pixel kernels are given as functions of the pixel, so a filtered image keeps the shape
 * of its input by construction.
 */
module Kernels {

  import opened Outcomes
  import opened Grids

  /** The image folders under the working directory that the pipeline reads. */
  datatype Folder = Composite | ManualCounts | Ch1

  datatype Toolkit = Toolkit(
    imread: (Folder, string) -> Option<Image>,          // cv2.imread(path, cv2.IMREAD_ANYDEPTH)
    medianAt: (Image, int, Pixel) -> int,               // sp.ndimage.median_filter at a pixel, window size given
    gaussianAt: (Grid<real>, real, Pixel) -> real,      // cv2.GaussianBlur(g, (0, 0), sigma) at a pixel
    otsu: Grid<int> -> real,                            // skimage.filters.threshold_otsu
    seedCount: (Grid<bool>, int, real) -> nat,          // number of watershed seeds for (mask, diam, particle_min)
    floodAt: (Grid<bool>, int, real, Pixel) -> nat,     // watershed label at a pixel of the mask
    meanOver: (Grid<real>, Grid<int>, int) -> real)     // gauss[cells == id].mean()

  /** `cv2.imread`: a file that cannot be read gives None, and the next array operation raises. */
  function ReadImage(tk: Toolkit, folder: Folder, name: string): (r: Result<Image>)
    ensures r.Success? <==> tk.imread(folder, name).Some?
    ensures r.Success? ==> r.value == tk.imread(folder, name).value
    ensures r.Failure? ==> r.error == UnreadableImage(name)
  {
    match tk.imread(folder, name)
    case None => Failure(UnreadableImage(name))
    case Some(img) => Success(img)
  }

  /** `cv2.GaussianBlur(g, (0, 0), sigma)`. */
  function GaussianBlur(tk: Toolkit, g: Grid<real>, sigma: real): (b: Grid<real>)
    ensures |b| == |g| && forall i :: 0 <= i < |g| ==> |b[i]| == |g[i]|
    ensures forall p :: InBounds(g, p) ==> At(b, p) == tk.gaussianAt(g, sigma, p)
  {
    seq(|g|, i requires 0 <= i < |g| =>
      seq(|g[i]|, j requires 0 <= j < |g[i]| => tk.gaussianAt(g, sigma, Pixel(i, j))))
  }

  /** The watershed label map; `skwatershed(..., mask=m)` leaves every pixel outside the mask at 0. */
  function Flood(tk: Toolkit, m: Grid<bool>, diam: int, pmin: real): (labels: Grid<int>)
    ensures |labels| == |m| && forall i :: 0 <= i < |m| ==> |labels[i]| == |m[i]|
    ensures forall p :: InBounds(m, p) ==> At(labels, p) == if At(m, p) then tk.floodAt(m, diam, pmin, p) else 0
  {
    seq(|m|, i requires 0 <= i < |m| =>
      seq(|m[i]|, j requires 0 <= j < |m[i]| => if m[i][j] then tk.floodAt(m, diam, pmin, Pixel(i, j)) else 0))
  }
}
