# Cell counting pipeline and parameter optimizer, in Dafny

This project models the counting core of a cell-counting application for fluorescence
microscopy. The application works in three stages:

1. **Counting one image.** It reads a 16-bit grayscale image and median-filters it. It subtracts
   a wide Gaussian background, clipping negative values to zero, and blurs the result. It keeps
   the pixels strictly above a threshold, removes connected particles smaller than
   `diam² · particle_min`, and labels the cells. Labelling uses plain connected components or a
   watershed. On request it also records one row per cell: its id, its size in pixels and its
   mean intensity.
2. **Optimizing the parameters** against a hand-counted image:
   - Lower the expected cell diameter by 1 until the automatic count reaches the manual count.
   - Sweep the thresholds `0, 10, 20, …` below the blurred image's maximum.
   - For each threshold, record the count, the average cell area and the accuracy (count / manual count).
   - Scan the table backwards. The chosen threshold is the one just after the last row whose
     accuracy is not below 1.
3. **Counting a batch**: every file of the Ch1 folder, giving one summary row and one uint16
   label image per file.

There are two versions of the core:

- `cell_counter_backend.py` is the one the GUI uses. It is modelled in module
  `CellCounterBackend`.
- `backend.py` is an older near-copy. It is modelled in module `Backend`. Its `medianFilter`,
  `subtractbg`, `rm_smallparts` and `watershed` are the same lines as the GUI's `median_filter`,
  `subtract_bg`, `rm_smallparts` and `watershed`, so module `Stages` models them for both files.

Where the two versions behave differently, each is modelled as written:

- The legacy `Count` subtracts the background from the raw image, not from the median-filtered
  one. It still runs the median filter and so still fails on an invalid window.
- The legacy diameter loop re-runs `optim_getimages` at every step. That resets the manual count,
  the Otsu value and the threshold.
- The GUI computes those values once, at the initial diameter. Its threshold sweep then uses the
  blurred image of the initial diameter.

Module layout:

| module | contents |
|---|---|
| `Outcomes` | `Option`, `Result`, and the Python exceptions the core can raise. Each exception is a value of `Error`. |
| `Numerics` | The parts of float64 arithmetic that decisions depend on: NaN and +inf, numpy true division, `<` with NaN, floor division, truncating casts, the uint16 wrap-around. |
| `Grids`, `Connectivity`, `Labeling` | Images as `seq<seq<_>>`. 4-connected components, defined by paths and computed by closure. Connected-component labelling, proved to number the components `1..n`. |
| `Kernels` | The library computations, given as an input `Toolkit` of functions: image reading, median window, Gaussian blur, Otsu, watershed flood and seeds, mean intensity. |
| `Config` | `params`, a class whose fields the optimizer updates in place; a key that may be missing is an `Option` field. `dirinfo`, the file listings after the directory scan. |
| `Stages` | The shared per-image stages, in functional form, with the clip step done in place on an `array2`. |
| `Optimization` | The shared optimizer pieces: image preparation, threshold grid, per-row area and accuracy, the table, and the backward scan. |
| `CellCounterBackend`, `Backend` | The two files' operations. Each method is proved equal to a specification function, and lemmas state what those functions promise. |

Every error path of the source is modelled, not excluded by a precondition:

- a missing dictionary key;
- an index out of range;
- an unreadable image;
- a median window below 1;
- a name that was never bound;
- a zero step in `np.arange`.

Behaviours of the code worth noting:

- Pruning and labelling use the 4-connected cross, which `mh.label` and `sp.ndimage.label` use by
  default. They do not use 8-connectivity.
- The median kernel is not clamped. `diam // 2` is only made odd, so a diameter below 2 gives a
  window below 1 and the filter raises. This is also the only way the diameter loop ends without
  reaching the manual count. It is why the model's loops decrease the diameter without an explicit
  bound.
- `backend.py`'s `Count` takes the background from the raw image.
- `Count_folder` with a channel other than Ch1 or Ch2 does not return nothing: it raises on the
  unbound `fnames`. With Ch2 it raises on the key `ch2_fnames`, which the directory scan never
  sets.
- The GUI's `cellcounting_batch` counts the Ch1 files whatever `channel` says. For a channel other
  than "Ch1", it returns the global `Ch1_Counts` table of an earlier call, or raises if there was
  none.
- `cellcounter` with `save_intensities` on the "Optim" channel raises on the unbound `output`.
  With a channel other than "Ch1" or "Optim", it raises on `directory_current`; in `backend.py`
  the name is `Directory_Current`.
- A manual count of 0 makes the accuracy `count / 0`. That is +inf, not an error.

## Model

| member | source | states |
|---|---|---|
| Outcomes.PyIndex | cell_counter_backend.py:160 | `filenames_current[file]` succeeds exactly for `-len <= file < len`, giving `xs[file]`, or `xs[len + file]` for a negative `file` |
| Outcomes.ReadBound | cell_counter_backend.py:568 | `return Ch1_Counts` on a global never assigned raises NameError naming it, and otherwise gives the assigned value |
| Numerics.TrueDivide | cell_counter_backend.py:356 | numpy division of counts: NaN exactly for 0/0, +inf exactly for a positive count over 0, otherwise the quotient times the divisor gives back the dividend |
| Numerics.FloorToInt | cell_counter_backend.py:338 | `int(x // 1)` is the largest integer not above x |
| Numerics.TruncToInt | cell_counter_backend.py:293 | `astype('int64')` truncates toward zero, for both signs |
| Numerics.ToUint16 | cell_counter_backend.py:551 | `astype(np.uint16)` gives a value in [0, 65536) congruent to the label, which is unchanged when already in range |
| Grids.Threshold | cell_counter_backend.py:169 | `gauss > thresh` is set exactly at the pixels strictly above the threshold, same shape |
| Grids.MaxOf | cell_counter_backend.py:338 | `gauss.max()` bounds every pixel and is attained at some pixel |
| Grids.ToUint16Grid | cell_counter_backend.py:551 | the label image is written with every label taken modulo 2^16, same shape |
| Connectivity.Component | cell_counter_backend.py:103 | the computed component of a foreground pixel is exactly the set of pixels joined to it by a 4-connected foreground path |
| Connectivity.ConnectedSymmetric | cell_counter_backend.py:103 | `Connected`, joining two pixels by a 4-connected path of foreground pixels of the mask, is symmetric |
| Connectivity.ConnectedTransitive | cell_counter_backend.py:103 | `Connected`, joining two pixels by a 4-connected path of foreground pixels of the mask, is transitive |
| Labeling.Label | cell_counter_backend.py:175 | `sp.ndimage.label(mask)` labels background 0 and gives each 4-connected component its own label in 1..n, every label in 1..n being used |
| Labeling.LabeledSize | cell_counter_backend.py:104 | `labeled_size` gives, for each label k, the number of pixels carrying k |
| Labeling.LabelOfPixelIsComponent | cell_counter_backend.py:103-104 | the pixels sharing a foreground pixel's label are exactly its connected component |
| Labeling.LabelValues | cell_counter_backend.py:175 | the positive labels present are exactly 1..nr_nuclei |
| FileNames.StripExt | cell_counter_backend.py:545-550 | `os.path.splitext(name)[0]` removes the last dot and what follows, unless only dots precede it |
| FileNames.StripTifExtension | cell_counter_backend.py:545-550 | for a `.tif` file whose stem has a character other than a dot, the root is exactly that stem, so `_Counts.tif` and `_CellInfo.csv` replace the extension |
| Kernels.ReadImage | cell_counter_backend.py:161 | reading succeeds exactly when the file decodes; an unreadable file is reported by name |
| Kernels.GaussianBlur | cell_counter_backend.py:168 | the blur keeps the image's shape |
| Kernels.Flood | cell_counter_backend.py:418 | the watershed flood with `mask=` leaves every pixel outside the mask at 0 |
| Config.Need | cell_counter_backend.py:148-149 | reading a dictionary key succeeds exactly when it is set, and raises KeyError naming it otherwise |
| Config.Params.constructor | GUI_frontend.py:74-77 | `params` starts with a diameter, particle minimum and watershed switch, and no other key |
| Stages.OddKernel | cell_counter_backend.py:49 | the window is odd: an even request k becomes k − 1, an odd one is unchanged; `backend.py` line 71 is the same code |
| Stages.MedianWindowValid | cell_counter_backend.py:166 | the window made from `diam // 2` is at least 1 exactly when diam ≥ 2 |
| Stages.MedianFilter | cell_counter_backend.py:49-50 | the filter succeeds exactly when the odd window made from the requested size is at least 1, raises InvalidWindow otherwise, keeps the shape, and is the library's median over that window at each pixel; `backend.py` lines 70-73 are the same code |
| Stages.ClipInPlace | cell_counter_backend.py:77 | `new_image[new_image < 0] = 0` in place: every negative pixel becomes 0 and every other pixel is unchanged; `backend.py` line 86 is the same code |
| Stages.SubtractedBackground | cell_counter_backend.py:72-77 | the result has the image's shape, no negative pixel, and equals image − background wherever that is non-negative and 0 wherever it is negative; `backend.py` lines 80-87 are the same code |
| Stages.SubtractBg | cell_counter_backend.py:72-78 | the array computation equals `SubtractedBackground` |
| Stages.RmSmallparts | cell_counter_backend.py:103-107 | a pixel stays foreground exactly when it was foreground and its component has at least diam·diam·particle_min pixels (components at the bound are kept); same shape; `backend.py` lines 56-62 are the same code |
| Stages.KeptIffLarge | cell_counter_backend.py:105-107 | removing the labels whose size is below the bound keeps a pixel exactly when its component is large enough |
| Stages.Watershed | cell_counter_backend.py:403-423 | the label map has the mask's shape and is 0 off the mask; a mask with no foreground gives all zeros and 0 seeds; `backend.py` lines 348-371 are the same code |
| Stages.Segment | cell_counter_backend.py:169-175 | the thresholded mask is the pixels above `thresh` whose component of `gauss > thresh` is large enough; cells are 0 off the mask; without watershed the cells are the mask's components numbered 1..nr_nuclei |
| Stages.CellIds | cell_counter_backend.py:179 | `np.unique(cells[cells > 0])` is strictly increasing and holds exactly the positive labels present |
| Stages.CellInfo | cell_counter_backend.py:179-188 | one record per id of `CellIds`, in that order, with the file name, the id, the id's pixel count and the mean intensity over it |
| Stages.CellInfoRows | cell_counter_backend.py:179-188 | the records are in ascending id order, cover exactly the positive labels, and each size is that label's pixel count |
| Stages.CollectCellInfo | cell_counter_backend.py:177-188 | the record loop builds exactly `CellInfo` |
| Stages.LabelledCellIds | cell_counter_backend.py:175-179 | after plain labelling the cell ids are exactly 1..nr_nuclei and each id's pixels are one component |
| Optimization.PreparedImages | cell_counter_backend.py:279-296 | preparation succeeds exactly when both listings are non-empty, diam ≥ 2 and both first files decode; the images are those files, the blurred image has the composite's shape, and `images['otsu']` is the blurred image above its Otsu value |
| Optimization.LoadImages | cell_counter_backend.py:279-296 | the preparation, with the clip done on an array, equals `PreparedImages` |
| Optimization.AfterPreprocessing | cell_counter_backend.py:292-294 | `counts` becomes the manual image's foreground pixel count, `otsu` and `thresh` its Otsu value, and nothing else changes |
| Optimization.Arange | cell_counter_backend.py:339 | `np.arange(start, stop, step)` raises for step 0, and otherwise lists start + i·step for as long as these stay before `stop` |
| Optimization.ThresholdGrid | cell_counter_backend.py:337-339 | the sweep's thresholds are exactly the multiples of interv in [0, thresh_max), ascending |
| Optimization.AvgCellArea | cell_counter_backend.py:348-352 | the average area is NaN exactly when no cell was found, never +inf, and otherwise times the count gives the labelled pixel count |
| Optimization.Accuracy | cell_counter_backend.py:356 | NaN when no cell was found; +inf for a manual count of 0; otherwise count / manual count |
| Optimization.Measure | cell_counter_backend.py:345-357 | a sweep row holds the threshold and the count; area and accuracy are NaN exactly when no cell was found, and otherwise the area times the count is the labelled pixel count and the accuracy is count / manual count; KeyError on `counts` only when cells were found |
| Optimization.Table | cell_counter_backend.py:360-372 | one table row per sweep row, in order, with `otsu`, `diam`, `counts` and `UseWatershed` repeated in each; KeyError if `otsu` or `counts` is missing |
| Optimization.LastNotBelowOneIsUnique | cell_counter_backend.py:488-490 | the scan stops at the one index whose row is not below 1 and after which every row is below 1 |
| Optimization.ChosenThresholdIff | cell_counter_backend.py:488-491 | the chosen threshold is t exactly when some row i is not below 1, every later row is below 1, and row i + 1 exists with threshold t; `backend.py` lines 391-394 are the same code |
| Optimization.ChosenThresholdFails | cell_counter_backend.py:488-491 | the choice fails exactly when every row is below 1 or the last row is not |
| Optimization.ScanBackward | cell_counter_backend.py:488-491 | the `while … i -= 1` loop computes exactly `ChosenThreshold` |
| CellCounterBackend.ChannelSource | cell_counter_backend.py:147-160 | "Ch1" reads the ch1 diameter, threshold and listing and has an output folder; "Optim" reads `diam`, `thresh` and the composite listing and has none; each missing key raises KeyError in source order; any other channel raises on the unbound `directory_current` |
| CellCounterBackend.CellTableOf | cell_counter_backend.py:177-197 | with `save_intensities` the table is `CellInfo` written to `<stem>_CellInfo.csv`; without an output folder that write raises; without `save_intensities` there is no table |
| CellCounterBackend.CountImage | cell_counter_backend.py:166-207 | counting a decoded image succeeds exactly when diam ≥ 2 and, if tables are saved, an output folder exists |
| CellCounterBackend.CountImageOutput | cell_counter_backend.py:166-207 | the count holds the image, `roi_size` is its pixel count, and the mask and cells are as `Segment` states; with intensities saved there is one record per cell in ascending label order |
| CellCounterBackend.CellCounterSpec | cell_counter_backend.py:147-207 | a successful count has a valid channel whose diameter is at least 2 |
| CellCounterBackend.CellCounterSucceeds | cell_counter_backend.py:147-177 | `cellcounter` succeeds exactly when the channel's keys are set, `file` indexes the listing, the image decodes, diam ≥ 2, and an output folder exists if tables are saved |
| CellCounterBackend.CellCounterOutput | cell_counter_backend.py:160-166 | a successful count is the count of the decoded file number `file` of the channel's listing |
| CellCounterBackend.CountImageMethod | cell_counter_backend.py:166-207 | the in-place background step and the record loop compute exactly `CountImage` |
| CellCounterBackend.CellCounter | cell_counter_backend.py:147-207 | `cellcounter` on the current `params` computes exactly `CellCounterSpec` |
| CellCounterBackend.ImagePreprocessing | cell_counter_backend.py:279-298 | `image_preprocessing` returns `PreparedImages` at the current diameter and sets `counts`, `otsu` and `thresh` as `AfterPreprocessing` says; if it raises, `params` is unchanged |
| CellCounterBackend.SweepMeasurementsRows | cell_counter_backend.py:340-357 | one sweep row per threshold, in order, each from the count at that threshold |
| CellCounterBackend.SweepFailurePersists | cell_counter_backend.py:340-344 | a count that raises ends the sweep with its error |
| CellCounterBackend.ThresholdOptimizerRows | cell_counter_backend.py:337-373 | the table has one row per threshold i·interv below thresh_max, with the count at that threshold, its average area, NaN accuracy for no cells and count / manual otherwise, and the constant columns |
| CellCounterBackend.ThresholdOptimizer | cell_counter_backend.py:337-373 | the loop computes exactly the sweep's table; only `params['thresh']` changes, and after a complete sweep it holds the last threshold swept, or its old value when there was none |
| CellCounterBackend.DiamSearchIff | cell_counter_backend.py:468-478 | the search stops at diameter e with a count exactly when the count at e reaches the manual count and every diameter from the start down to e + 1 counted fewer (the diameter drops by 1 per step) |
| CellCounterBackend.OptimizerResult | cell_counter_backend.py:454-493 | the optimal diameter is where the search stops, at most the initial one, with a count that reaches the manual count; the threshold is the backward scan's choice from the sweep at that diameter over the initial diameter's images |
| CellCounterBackend.CellcountingParamOptimizer | cell_counter_backend.py:454-493 | the optimizer's loops compute exactly `OptimizerSpec`; `params['diam']` ends at the returned diameter, and every key other than `diam`, `counts`, `otsu` and `thresh` (`particle_min`, `UseWatershed`, the ch1 keys) is unchanged |
| CellCounterBackend.CountFiles | cell_counter_backend.py:532-552 | a successful batch loop yields one result per file |
| CellCounterBackend.CountFilesRows | cell_counter_backend.py:532-552 | the i-th result is the count of file i, with its label image |
| CellCounterBackend.CountFilesFailurePersists | cell_counter_backend.py:532-540 | a count that raises ends the batch with its error |
| CellCounterBackend.BatchRows | cell_counter_backend.py:523-563 | a "Ch1" batch has one summary row and one `<stem>_Counts.tif` uint16 label image per file, in listing order, with constant threshold, diameter and particle-minimum columns |
| CellCounterBackend.CellCountingBatch | cell_counter_backend.py:523-568 | the batch loop computes exactly `BatchSpec` |
| Backend.LegacySource | backend.py:96-109 | the legacy dispatch is the GUI's for "Ch1" and "Optim"; any other channel raises on the unbound `Directory_Current` |
| Backend.LegacyCountImage | backend.py:114-155 | the legacy count of an image succeeds exactly when diam ≥ 2 and, if tables are saved, an output folder exists |
| Backend.CountSpec | backend.py:94-155 | a successful legacy count has a valid channel whose diameter is at least 2 |
| Backend.CountIgnoresMedian | backend.py:114-116 | the legacy count does not depend on what the median filter computes |
| Backend.LegacyCountIsGuiCountOnMedianFixedImage | backend.py:114-116 | the legacy and GUI counts agree exactly on images the median filter leaves unchanged |
| Backend.CountOutputShape | backend.py:114-123 | a legacy count is the GUI's count of the raw image with the median filter taken as the identity |
| Backend.Count | backend.py:94-155 | `Count` computes exactly `CountSpec` |
| Backend.LegacyCountImageMethod | backend.py:114-155 | the in-place background step and the record loop compute exactly `LegacyCountImage` |
| Backend.GetImagesSpec | backend.py:191-219 | a successful step keeps the diameter, which is at least 2, and has a manual count |
| Backend.GetImagesResets | backend.py:205-217 | each step resets `counts` to the manual foreground count and `otsu` and `thresh` to the Otsu value, keeps every other parameter, and counts at that threshold |
| Backend.GetImagesForgets | backend.py:205-207 | the step does not depend on the previous `counts`, `otsu` or `thresh` |
| Backend.OptimGetImages | backend.py:191-219 | `optim_getimages` computes exactly `GetImagesSpec`; `params` is updated once the images are prepared, even when the count then raises |
| Backend.LegacyDiamSearchIff | backend.py:381-386 | the loop stops with step s exactly when s is the fresh step at its diameter, its count reaches its own manual count, and every larger diameter down from the start was prepared and fell short |
| Backend.LegacySweepRows | backend.py:240-257 | one sweep row per threshold, in order, each from the legacy count at that threshold |
| Backend.LegacySweepFailurePersists | backend.py:240-244 | a count that raises ends the sweep with its error |
| Backend.OptimIterateRows | backend.py:236-273 | one row per threshold i·interv in `arange(0, TMax, interv)`, with NaN area and accuracy when nothing is counted, and the manual image returned |
| Backend.OptimIterate | backend.py:226-273 | the loop computes exactly `OptimIterateSpec`; only `params['thresh']` changes, and after a complete sweep it holds the last threshold swept, or its old value when there was none |
| Backend.LegacyOptimizerResult | backend.py:376-396 | the optimal diameter is the stopping step's, at most the start; the threshold is the backward scan's choice from a sweep with that step's images, Otsu value and manual count |
| Backend.CellcountingParamOptimizer | backend.py:376-396 | the legacy optimizer's loops compute exactly `LegacyOptimizerSpec`; `params['diam']` ends at the returned diameter, and every key other than `diam`, `counts`, `otsu` and `thresh` is unchanged |
| Backend.FolderSource | backend.py:281-297 | only "Ch1" succeeds, when its listing and parameters are set; "Ch2" raises on `ch2_fnames`; any other channel raises on the unbound `fnames` |
| Backend.FolderFiles | backend.py:297-317 | a successful loop yields one result per file |
| Backend.FolderFilesRows | backend.py:297-317 | the i-th result is the legacy count of file i, with its label image |
| Backend.FolderFilesFailurePersists | backend.py:297-306 | a count that raises ends `Count_folder` with its error |
| Backend.CountFolderRows | backend.py:279-341 | a successful `Count_folder` was called for "Ch1" and has one summary row and one `<stem>_Counts.tif` uint16 label image per file, in listing order |
| Backend.CountFolder | backend.py:279-341 | the loop computes exactly `CountFolderSpec` |

## Left out

- Filesystem and I/O: the directory scan `getdirinfo`, `os.listdir`, `mkdir`, `cv2.imread`
  (an input function), `cv2.imwrite` and `to_csv`. The files written are values in the result
  (the label images with their names, the per-cell tables); the summary CSVs are not modelled.
  `print`, `suppress_stdout` and the holoviews setup produce only output and are left out too.
- The floating-point library kernels are inputs of type `Kernels.Toolkit`; every property holds
  for any behaviour they have. These are the scipy median window, the OpenCV Gaussian blur,
  Otsu's threshold, the distance transform, `peak_local_max`, the skimage watershed flood and
  its seed count, and the mean intensity. Their numeric results are not modelled.
- Float rounding: finite float64 values are reals. The table columns numpy stores as floats
  (`np.ones(n) * x`) are kept in their source types.
- Images are 2-D with at least one pixel. Other dimensions, and `cv2.imread` returning an array
  of another depth, are not modelled.
- Files written before a failing count are not part of a `Failure` result. When the count of file k
  raises in `cellcounting_batch` or `Count_folder`, the `_Counts.tif` images of files 0..k-1, and
  with `save_intensities` their `_CellInfo.csv` tables, are already on disk; the model's failure
  carries only the error.
- Only the first error is reported, as Python raises it. Tracebacks and lines printed before an
  error are not modelled.
- `backend.py:402-412` `cellcounting_batch` is not modelled. The glue refers to a `dirinfo` that
  does not exist in its scope, so it raises NameError after counting.
- The per-cell table's column header `'{channel}_file'` is not modelled; the records' `file`
  field stands for it.
- The Qt front end (GUI_frontend.py, qtTestUI.py, test_table_qtGUI.py) and main.py are not part
  of this model.
- Backend.CountSpec: the `UseROI` flag of the legacy `Count` is not a parameter, because `Count`
  never reads it. `Count_folder` keeps it for its `UseROI` column.
