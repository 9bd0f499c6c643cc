/**
 * Connected-component labelling of a boolean mask, as `mahotas.label(mask)` and
 * `scipy.ndimage.label(mask)` compute it with their default cross-shaped structuring element.
 *
 * The label map is built the way these libraries number components: pixels are visited in
 * raster order, and the first unlabelled foreground pixel met starts a new label, which is
 * given to its whole component. `Label` is proved to return a component labelling: background
 * is 0, labels are 1..n, every label is used, and two foreground pixels share a label exactly
 * when they are connected.
 */
module Labeling {

  import opened Grids
  import opened Connectivity

  /** `L` numbers the components of `m`: 0 is background and 1..n are the n components. */
  ghost predicate IsComponentLabelling(m: Grid<bool>, L: Grid<int>, n: nat) {
    && SameShape(m, L)
    && (forall p :: InBounds(m, p) ==> 0 <= At(L, p) <= n)
    && (forall p :: InBounds(m, p) ==> (At(L, p) == 0 <==> !At(m, p)))
    && (forall p, q :: InBounds(m, p) && InBounds(m, q) && At(L, p) != 0 ==>
          (At(L, q) == At(L, p) <==> Connected(m, p, q)))
    && (forall k :: 1 <= k <= n ==> LabelUsed(m, L, k))
  }

  /** Some pixel of the image carries label `k`. */
  ghost predicate LabelUsed(m: Grid<bool>, L: Grid<int>, k: int) {
    SameShape(m, L) && exists p :: InBounds(m, p) && At(L, p) == k
  }

  /** Gives label `k` to every pixel of `comp`. */
  function Paint(L: Grid<int>, comp: set<Pixel>, k: int): (L': Grid<int>)
    ensures |L'| == |L| && forall i :: 0 <= i < |L| ==> |L'[i]| == |L[i]|
    ensures forall p :: InBounds(L, p) ==> At(L', p) == if p in comp then k else At(L, p)
  {
    seq(|L|, i requires 0 <= i < |L| =>
      seq(|L[i]|, j requires 0 <= j < |L[i]| => if Pixel(i, j) in comp then k else L[i][j]))
  }

  /** The raster scan visits `p` before position (r, c). */
  predicate Before(p: Pixel, r: int, c: int) {
    p.r < r || (p.r == r && p.c < c)
  }

  /** Label k + 1 is carried by exactly the pixels connected to `seed`. */
  ghost predicate LabelClass(m: Grid<bool>, L: Grid<int>, k: nat, seed: Pixel) {
    SameShape(m, L) && forall p :: InBounds(m, p) ==> (At(L, p) == k + 1 <==> Connected(m, seed, p))
  }

  /** What holds of the partial label map when the scan reaches position (r, c). */
  ghost predicate ScanInvariant(m: Grid<bool>, L: Grid<int>, n: nat, seeds: seq<Pixel>, r: int, c: int) {
    && IsRect(m)
    && SameShape(m, L)
    && |seeds| == n
    && (forall k :: 0 <= k < n ==> Fg(m, seeds[k]))
    && (forall k :: 0 <= k < n ==> LabelClass(m, L, k, seeds[k]))
    && (forall p :: InBounds(m, p) ==> 0 <= At(L, p) <= n)
    && (forall p :: InBounds(m, p) && Before(p, r, c) && At(m, p) ==> At(L, p) != 0)
  }

  /** The raster scan from position (r, c) on, with `n` labels given so far. */
  function LabelFrom(m: Grid<bool>, L: Grid<int>, n: nat, r: nat, c: nat): (Grid<int>, nat)
    requires IsRect(m) && IsGrid(L, |m|, |m[0]|) && r <= |m| && c <= |m[0]|
    decreases |m| - r, |m[0]| - c
  {
    if r == |m| then (L, n)
    else if c == |m[0]| then LabelFrom(m, L, n, r + 1, 0)
    else if m[r][c] && L[r][c] == 0 then
      LabelFrom(m, Paint(L, Component(m, Pixel(r, c)), n + 1), n + 1, r, c + 1)
    else LabelFrom(m, L, n, r, c + 1)
  }

  /** `scipy.ndimage.label(mask)` / `mahotas.label(mask)`: the label map and the number of components. */
  function Label(m: Grid<bool>): (res: (Grid<int>, nat))
    requires IsRect(m)
    ensures IsComponentLabelling(m, res.0, res.1)
  {
    var zeros := Zeros(|m|, |m[0]|);
    assert ScanInvariant(m, zeros, 0, [], 0, 0);
    LabelFromCorrect(m, zeros, 0, [], 0, 0);
    LabelFrom(m, zeros, 0, 0, 0)
  }

  lemma {:induction false} LabelFromCorrect(m: Grid<bool>, L: Grid<int>, n: nat, seeds: seq<Pixel>, r: nat, c: nat)
    requires r <= |m| && ScanInvariant(m, L, n, seeds, r, c) && c <= |m[0]|
    ensures IsComponentLabelling(m, LabelFrom(m, L, n, r, c).0, LabelFrom(m, L, n, r, c).1)
    decreases |m| - r, |m[0]| - c
  {
    if r == |m| {
      ScanCompleteIsLabelling(m, L, n, seeds);
    } else if c == |m[0]| {
      assert forall p :: InBounds(m, p) && Before(p, r + 1, 0) ==> Before(p, r, c);
      LabelFromCorrect(m, L, n, seeds, r + 1, 0);
    } else if m[r][c] && L[r][c] == 0 {
      PaintKeepsInvariant(m, L, n, seeds, r, c);
      LabelFromCorrect(m, Paint(L, Component(m, Pixel(r, c)), n + 1), n + 1, seeds + [Pixel(r, c)], r, c + 1);
    } else {
      assert forall p :: Before(p, r, c + 1) ==> Before(p, r, c) || p == Pixel(r, c);
      LabelFromCorrect(m, L, n, seeds, r, c + 1);
    }
  }

  /** Painting the component of the first unlabelled foreground pixel with a fresh label. */
  lemma PaintKeepsInvariant(m: Grid<bool>, L: Grid<int>, n: nat, seeds: seq<Pixel>, r: nat, c: nat)
    requires ScanInvariant(m, L, n, seeds, r, c)
    requires r < |m| && c < |m[0]| && m[r][c] && L[r][c] == 0
    ensures ScanInvariant(m, Paint(L, Component(m, Pixel(r, c)), n + 1), n + 1, seeds + [Pixel(r, c)], r, c + 1)
  {
    var s := Pixel(r, c);
    var L' := Paint(L, Component(m, s), n + 1);
    var seeds' := seeds + [s];
    PaintedValues(m, L, s, n + 1);
    assert InBounds(m, s) && At(L, s) == 0;
    forall k | 0 <= k < n
      ensures LabelClass(m, L', k, seeds'[k]) && Fg(m, seeds'[k])
    {
      assert seeds'[k] == seeds[k];
      RepaintedClass(m, L, L', k, seeds[k], s, n + 1);
    }
    NewClass(m, L, L', n, s);
    assert seeds'[n] == s;
    PaintedScanned(m, L, L', n, s, r, c);
  }

  /** The painted map: the component of `s` carries `lbl`, every other pixel keeps its label. */
  lemma PaintedValues(m: Grid<bool>, L: Grid<int>, s: Pixel, lbl: int)
    requires IsRect(m) && SameShape(m, L) && Fg(m, s)
    ensures SameShape(m, Paint(L, Component(m, s), lbl))
    ensures forall p :: InBounds(m, p) ==>
      At(Paint(L, Component(m, s), lbl), p) == if Connected(m, s, p) then lbl else At(L, p)
  {
  }

  lemma NewClass(m: Grid<bool>, L: Grid<int>, L': Grid<int>, n: nat, s: Pixel)
    requires SameShape(m, L) && SameShape(m, L') && Fg(m, s)
    requires forall p :: InBounds(m, p) ==> 0 <= At(L, p) <= n
    requires forall p :: InBounds(m, p) ==> At(L', p) == if Connected(m, s, p) then n + 1 else At(L, p)
    ensures LabelClass(m, L', n, s)
    ensures forall p :: InBounds(m, p) ==> 0 <= At(L', p) <= n + 1
  {
  }

  lemma PaintedScanned(m: Grid<bool>, L: Grid<int>, L': Grid<int>, n: nat, s: Pixel, r: int, c: int)
    requires SameShape(m, L) && SameShape(m, L') && s == Pixel(r, c) && Fg(m, s)
    requires forall p :: InBounds(m, p) && Before(p, r, c) && At(m, p) ==> At(L, p) != 0
    requires forall p :: InBounds(m, p) ==> At(L', p) == if Connected(m, s, p) then n + 1 else At(L, p)
    ensures forall p :: InBounds(m, p) && Before(p, r, c + 1) && At(m, p) ==> At(L', p) != 0
  {
    ConnectedReflexive(m, s);
    forall p | InBounds(m, p) && Before(p, r, c + 1) && At(m, p)
      ensures At(L', p) != 0
    {
      if p != s {
        assert Before(p, r, c);
      }
    }
  }

  /** Giving a new label `lbl` to the component of `s` leaves the class of an older label intact. */
  lemma RepaintedClass(m: Grid<bool>, L: Grid<int>, L': Grid<int>, k: nat, seed: Pixel, s: Pixel, lbl: int)
    requires LabelClass(m, L, k, seed) && SameShape(m, L')
    requires InBounds(m, s) && At(L, s) != k + 1 && lbl != k + 1
    requires forall p :: InBounds(m, p) ==> At(L', p) == if Connected(m, s, p) then lbl else At(L, p)
    ensures LabelClass(m, L', k, seed)
  {
    forall p | InBounds(m, p)
      ensures At(L', p) == k + 1 <==> Connected(m, seed, p)
    {
      if Connected(m, s, p) && Connected(m, seed, p) {
        ConnectedSymmetric(m, s, p);
        ConnectedTransitive(m, seed, p, s);
      }
    }
  }

  /** Once every pixel has been scanned, the invariant is the labelling property. */
  lemma ScanCompleteIsLabelling(m: Grid<bool>, L: Grid<int>, n: nat, seeds: seq<Pixel>)
    requires ScanInvariant(m, L, n, seeds, |m|, 0)
    ensures IsComponentLabelling(m, L, n)
  {
    forall p | InBounds(m, p)
      ensures At(L, p) == 0 <==> !At(m, p)
    {
      assert Before(p, |m|, 0);
      if At(L, p) != 0 {
        var k := At(L, p) - 1;
        ClassMembersAreForeground(m, L, k, seeds[k], p);
      }
    }
    forall p, q | InBounds(m, p) && InBounds(m, q) && At(L, p) != 0
      ensures At(L, q) == At(L, p) <==> Connected(m, p, q)
    {
      var k := At(L, p) - 1;
      SameClassIffConnected(m, L, k, seeds[k], p, q);
    }
    forall k | 1 <= k <= n
      ensures LabelUsed(m, L, k)
    {
      var seed := seeds[k - 1];
      assert LabelClass(m, L, k - 1, seed);
      ConnectedReflexive(m, seed);
      assert InBounds(m, seed) && At(L, seed) == k;
    }
  }

  lemma ClassMembersAreForeground(m: Grid<bool>, L: Grid<int>, k: nat, seed: Pixel, p: Pixel)
    requires LabelClass(m, L, k, seed) && InBounds(m, p) && At(L, p) == k + 1
    ensures At(m, p)
  {
    ConnectedEndsAreForeground(m, seed, p);
  }

  lemma SameClassIffConnected(m: Grid<bool>, L: Grid<int>, k: nat, seed: Pixel, p: Pixel, q: Pixel)
    requires LabelClass(m, L, k, seed) && InBounds(m, p) && InBounds(m, q) && At(L, p) == k + 1
    ensures At(L, q) == k + 1 <==> Connected(m, p, q)
  {
    assert Connected(m, seed, p);
    ConnectedSymmetric(m, seed, p);
    if At(L, q) == k + 1 {
      ConnectedTransitive(m, p, seed, q);
    }
    if Connected(m, p, q) {
      ConnectedTransitive(m, seed, p, q);
    }
  }

  /** `mahotas.labeled.labeled_size(L)`: entry k is the number of pixels labelled k, for k in 0..n. */
  function LabeledSize(L: Grid<int>, n: nat): (sizes: seq<nat>)
    ensures |sizes| == n + 1
    ensures forall k :: 0 <= k <= n ==> sizes[k] == |Where(L, k)|
  {
    seq(n + 1, k requires 0 <= k <= n => CountWhere(L, k))
  }

  /** The pixels that share the label of a foreground pixel form its connected component. */
  lemma LabelOfPixelIsComponent(m: Grid<bool>, L: Grid<int>, n: nat, p: Pixel)
    requires IsComponentLabelling(m, L, n) && Fg(m, p)
    ensures Where(L, At(L, p)) == Component(m, p)
  {
    forall q
      ensures q in Where(L, At(L, p)) <==> q in Component(m, p)
    {
      if q in Component(m, p) {
        ConnectedEndsAreForeground(m, p, q);
      }
    }
  }

  /** The positive labels that occur are exactly 1..n. */
  lemma LabelValues(m: Grid<bool>, L: Grid<int>, n: nat)
    requires IsComponentLabelling(m, L, n)
    ensures forall k :: k in PositiveValues(L) <==> 1 <= k <= n
  {
    forall k | k in PositiveValues(L)
      ensures k <= n
    {
      var p :| InBounds(L, p) && At(L, p) == k;
      assert InBounds(m, p);
    }
    forall k | 1 <= k <= n
      ensures k in PositiveValues(L)
    {
      assert LabelUsed(m, L, k);
      var p :| InBounds(m, p) && At(L, p) == k;
      assert InBounds(L, p);
    }
  }
}
