/**
 * Two-dimensional single-channel images as sequences of rows. A numpy array of shape (h, w)
 * is a `Grid` of h rows of w values; a 16-bit grayscale file read with cv2.IMREAD_ANYDEPTH
 * is an `Image`, a grid of integers with at least one pixel.
 */
module Grids {

  import opened Numerics

  type Grid<T> = seq<seq<T>>

  datatype Pixel = Pixel(r: int, c: int)

  /** The grid has exactly h rows of w values each. */
  predicate IsGrid<T>(g: Grid<T>, h: nat, w: nat) {
    |g| == h && forall r :: 0 <= r < h ==> |g[r]| == w
  }

  /** A rectangular grid with at least one pixel. */
  predicate IsRect<T>(g: Grid<T>) {
    |g| >= 1 && |g[0]| >= 1 && IsGrid(g, |g|, |g[0]|)
  }

  function Height<T>(g: Grid<T>): nat {
    |g|
  }

  function Width<T>(g: Grid<T>): nat {
    if |g| == 0 then 0 else |g[0]|
  }

  /** Two grids have the same shape. */
  predicate SameShape<T, U>(g: Grid<T>, h: Grid<U>) {
    IsGrid(h, Height(g), Width(g)) && IsGrid(g, Height(g), Width(g))
  }

  type Image = g: Grid<int> | IsRect(g) witness [[0]]

  /** A float image with at least one pixel, such as a filtered `Image`. */
  type RealImage = g: Grid<real> | IsRect(g) witness [[0.0]]

  predicate InBounds<T>(g: Grid<T>, p: Pixel) {
    0 <= p.r < |g| && 0 <= p.c < |g[p.r]|
  }

  function At<T>(g: Grid<T>, p: Pixel): T
    requires InBounds(g, p)
  {
    g[p.r][p.c]
  }

  /** `image.size`: the number of pixels. */
  function Size<T>(g: Grid<T>): nat {
    Height(g) * Width(g)
  }

  /** The pixels whose value is `k`, the pixels selected by `g == k`. */
  function Where(g: Grid<int>, k: int): (s: set<Pixel>)
    ensures forall p :: p in s <==> InBounds(g, p) && At(g, p) == k
  {
    set r, c | 0 <= r < |g| && 0 <= c < |g[r]| && g[r][c] == k :: Pixel(r, c)
  }

  /** `len(g[g == k])`: how many pixels have value `k`. */
  function CountWhere(g: Grid<int>, k: int): nat {
    |Where(g, k)|
  }

  /** The pixels with a positive value. */
  function Positive(g: Grid<int>): (s: set<Pixel>)
    ensures forall p :: p in s <==> InBounds(g, p) && At(g, p) > 0
  {
    set r, c | 0 <= r < |g| && 0 <= c < |g[r]| && g[r][c] > 0 :: Pixel(r, c)
  }

  /** `(g > 0).sum()`. */
  function CountPositive(g: Grid<int>): nat {
    |Positive(g)|
  }

  /** The set of positive values that occur in the grid. */
  function PositiveValues(g: Grid<int>): (s: set<int>)
    ensures forall k :: k in s <==> k > 0 && exists p :: InBounds(g, p) && At(g, p) == k
  {
    var s := set r, c | 0 <= r < |g| && 0 <= c < |g[r]| && g[r][c] > 0 :: g[r][c];
    assert forall k :: k in s ==> exists p :: InBounds(g, p) && At(g, p) == k by {
      forall k | k in s ensures exists p :: InBounds(g, p) && At(g, p) == k {
        var r, c :| 0 <= r < |g| && 0 <= c < |g[r]| && g[r][c] > 0 && g[r][c] == k;
        assert InBounds(g, Pixel(r, c)) && At(g, Pixel(r, c)) == k;
      }
    }
    s
  }

  /** `g.max() == True` for a boolean mask: some pixel is set. */
  predicate AnyTrue(g: Grid<bool>) {
    exists r, c | 0 <= r < |g| && 0 <= c < |g[r]| :: g[r][c]
  }

  /** `g.astype(int)` for a boolean mask. */
  function BoolToInt(g: Grid<bool>): (r: Grid<int>)
    ensures SameShape(g, r) || !IsRect(g)
    ensures forall p :: InBounds(g, p) ==> InBounds(r, p) && At(r, p) == if At(g, p) then 1 else 0
  {
    seq(|g|, i requires 0 <= i < |g| => seq(|g[i]|, j requires 0 <= j < |g[i]| => if g[i][j] then 1 else 0))
  }

  /** `g.astype('float')`. */
  function ToReal(g: Grid<int>): (r: Grid<real>)
    ensures |r| == |g| && forall i :: 0 <= i < |g| ==> |r[i]| == |g[i]|
    ensures forall p :: InBounds(g, p) ==> At(r, p) == At(g, p) as real
  {
    seq(|g|, i requires 0 <= i < |g| => seq(|g[i]|, j requires 0 <= j < |g[i]| => g[i][j] as real))
  }

  /** `g.astype('int64')` for a float grid: every value truncated toward zero. */
  function TruncGrid(g: Grid<real>): (r: Grid<int>)
    ensures |r| == |g| && forall i :: 0 <= i < |g| ==> |r[i]| == |g[i]|
    ensures forall p :: InBounds(g, p) ==> At(r, p) == TruncToInt(At(g, p))
  {
    seq(|g|, i requires 0 <= i < |g| => seq(|g[i]|, j requires 0 <= j < |g[i]| => TruncToInt(g[i][j])))
  }

  /** `g > t`: the mask of pixels strictly brighter than `t`. */
  function Threshold(g: Grid<real>, t: real): (m: Grid<bool>)
    ensures |m| == |g| && forall i :: 0 <= i < |g| ==> |m[i]| == |g[i]|
    ensures forall p :: InBounds(g, p) ==> (At(m, p) <==> At(g, p) > t)
  {
    seq(|g|, i requires 0 <= i < |g| => seq(|g[i]|, j requires 0 <= j < |g[i]| => g[i][j] > t))
  }

  /** The largest value of a sequence of reals. */
  function MaxOfRow(row: seq<real>): (m: real)
    requires |row| >= 1
    ensures forall j :: 0 <= j < |row| ==> row[j] <= m
    ensures exists j :: 0 <= j < |row| && row[j] == m
  {
    if |row| == 1 then row[0]
    else
      var rest := MaxOfRow(row[1..]);
      assert forall j :: 1 <= j < |row| ==> row[j] == row[1..][j - 1];
      if row[0] >= rest then row[0] else rest
  }

  /** `g.max()`: the largest value of a grid with at least one pixel. */
  function MaxOf(g: Grid<real>): (m: real)
    requires IsRect(g)
    ensures forall p :: InBounds(g, p) ==> At(g, p) <= m
    ensures exists p :: InBounds(g, p) && At(g, p) == m
    decreases |g|
  {
    var first := MaxOfRow(g[0]);
    assert exists p :: InBounds(g, p) && At(g, p) == first by {
      var j :| 0 <= j < |g[0]| && g[0][j] == first;
      assert InBounds(g, Pixel(0, j));
    }
    if |g| == 1 then
      assert forall p :: InBounds(g, p) ==> p.r == 0;
      first
    else
      var rest := MaxOf(g[1..]);
      assert forall p :: InBounds(g, p) && p.r >= 1 ==>
        InBounds(g[1..], Pixel(p.r - 1, p.c)) && At(g, p) == At(g[1..], Pixel(p.r - 1, p.c));
      assert exists p :: InBounds(g, p) && At(g, p) == rest by {
        var q :| InBounds(g[1..], q) && At(g[1..], q) == rest;
        assert InBounds(g, Pixel(q.r + 1, q.c)) && At(g, Pixel(q.r + 1, q.c)) == rest;
      }
      if first >= rest then first else rest
  }

  /** The largest value of a grid of integers with at least one pixel. */
  function MaxIntOf(g: Grid<int>): (m: int)
    requires IsRect(g)
    ensures forall p :: InBounds(g, p) ==> At(g, p) <= m
  {
    var v := MaxOf(ToReal(g));
    assert forall p :: InBounds(g, p) ==> At(g, p) as real <= v;
    v.Floor
  }

  /** `g.astype(np.uint16)` for a label map: every label modulo 2^16. */
  function ToUint16Grid(g: Grid<int>): (r: Grid<int>)
    ensures |r| == |g| && forall i :: 0 <= i < |g| ==> |r[i]| == |g[i]|
    ensures forall p :: InBounds(g, p) ==> At(r, p) == ToUint16(At(g, p))
  {
    seq(|g|, i requires 0 <= i < |g| => seq(|g[i]|, j requires 0 <= j < |g[i]| => ToUint16(g[i][j])))
  }

  /** A grid of the given shape filled with zeros. */
  function Zeros(h: nat, w: nat): (z: Grid<int>)
    ensures IsGrid(z, h, w)
    ensures forall p :: InBounds(z, p) ==> At(z, p) == 0
  {
    seq(h, i => seq(w, j => 0))
  }

  /** Two grids of the same shape that agree at every pixel are equal. */
  lemma GridsEqual<T>(a: Grid<T>, b: Grid<T>, h: nat, w: nat)
    requires IsGrid(a, h, w) && IsGrid(b, h, w)
    requires forall p :: InBounds(a, p) ==> At(a, p) == At(b, p)
    ensures a == b
  {
    forall i | 0 <= i < h
      ensures a[i] == b[i]
    {
      forall j | 0 <= j < w
        ensures a[i][j] == b[i][j]
      {
        assert InBounds(a, Pixel(i, j));
      }
    }
  }
}
