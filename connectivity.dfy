/**
 * Connected components of a boolean mask under 4-adjacency, the cross-shaped structuring
 * element that mahotas.label and scipy.ndimage.label use when none is given.
 *
 * `Connected` is the reference definition (a path of foreground pixels, each adjacent to the
 * next); `Component` computes a component by growing a set of pixels until no foreground
 * neighbour is missing. `ComponentIsConnected` proves that the two agree.
 */
module Connectivity {

  import opened Grids

  /** A foreground pixel of the mask. */
  predicate Fg(m: Grid<bool>, p: Pixel) {
    InBounds(m, p) && At(m, p)
  }

  /** `q` is one of the four pixels that share an edge with `p`. */
  predicate Adjacent(p: Pixel, q: Pixel) {
    q == Pixel(p.r - 1, p.c) || q == Pixel(p.r + 1, p.c) || q == Pixel(p.r, p.c - 1) || q == Pixel(p.r, p.c + 1)
  }

  /** A non-empty walk through foreground pixels, each step to an adjacent pixel. */
  predicate IsPath(m: Grid<bool>, path: seq<Pixel>) {
    && |path| >= 1
    && (forall i :: 0 <= i < |path| ==> Fg(m, path[i]))
    && (forall i :: 0 <= i < |path| - 1 ==> Adjacent(path[i], path[i + 1]))
  }

  /** `p` and `q` lie in the same connected component of the mask's foreground. */
  ghost predicate Connected(m: Grid<bool>, p: Pixel, q: Pixel) {
    exists path :: IsPath(m, path) && path[0] == p && path[|path| - 1] == q
  }

  lemma AdjacentSymmetric(p: Pixel, q: Pixel)
    requires Adjacent(p, q)
    ensures Adjacent(q, p)
  {
  }

  lemma ConnectedEndsAreForeground(m: Grid<bool>, p: Pixel, q: Pixel)
    requires Connected(m, p, q)
    ensures Fg(m, p) && Fg(m, q)
  {
    var path :| IsPath(m, path) && path[0] == p && path[|path| - 1] == q;
    assert Fg(m, path[0]) && Fg(m, path[|path| - 1]);
  }

  lemma ConnectedReflexive(m: Grid<bool>, p: Pixel)
    requires Fg(m, p)
    ensures Connected(m, p, p)
  {
    assert IsPath(m, [p]);
  }

  /** A connection can be extended by one step to a foreground neighbour. */
  lemma ConnectedStep(m: Grid<bool>, p: Pixel, q: Pixel, n: Pixel)
    requires Connected(m, p, q) && Fg(m, n) && Adjacent(q, n)
    ensures Connected(m, p, n)
  {
    var path :| IsPath(m, path) && path[0] == p && path[|path| - 1] == q;
    var longer := path + [n];
    assert forall i :: 0 <= i < |path| ==> longer[i] == path[i];
    assert IsPath(m, longer);
    assert longer[0] == p && longer[|longer| - 1] == n;
  }

  lemma {:induction false} ConnectedSymmetric(m: Grid<bool>, p: Pixel, q: Pixel)
    requires Connected(m, p, q)
    ensures Connected(m, q, p)
  {
    var path :| IsPath(m, path) && path[0] == p && path[|path| - 1] == q;
    var n := |path|;
    var back := seq(n, i requires 0 <= i < n => path[n - 1 - i]);
    forall i | 0 <= i < n - 1
      ensures Adjacent(back[i], back[i + 1])
    {
      assert Adjacent(path[n - 2 - i], path[n - 1 - i]);
      AdjacentSymmetric(path[n - 2 - i], path[n - 1 - i]);
    }
    assert IsPath(m, back);
    assert back[0] == q && back[n - 1] == p;
  }

  lemma {:induction false} ConnectedTransitive(m: Grid<bool>, p: Pixel, q: Pixel, s: Pixel)
    requires Connected(m, p, q) && Connected(m, q, s)
    ensures Connected(m, p, s)
  {
    var a :| IsPath(m, a) && a[0] == p && a[|a| - 1] == q;
    var b :| IsPath(m, b) && b[0] == q && b[|b| - 1] == s;
    var ab := a + b[1..];
    assert forall i :: 0 <= i < |a| ==> ab[i] == a[i];
    assert forall i :: |a| <= i < |ab| ==> ab[i] == b[i - |a| + 1];
    forall i | 0 <= i < |ab| - 1
      ensures Adjacent(ab[i], ab[i + 1])
    {
      if i < |a| - 1 {
        assert Adjacent(a[i], a[i + 1]);
      } else {
        assert Adjacent(b[i - |a| + 1], b[i - |a| + 2]);
      }
    }
    assert IsPath(m, ab);
    assert ab[|ab| - 1] == s;
  }

  /** The foreground pixels of the mask. */
  function FgSet(m: Grid<bool>): (s: set<Pixel>)
    ensures forall p :: p in s <==> Fg(m, p)
  {
    set r, c | 0 <= r < |m| && 0 <= c < |m[r]| && m[r][c] :: Pixel(r, c)
  }

  /** One of the four neighbours of `q` is in `s`. */
  predicate HasNeighborIn(s: set<Pixel>, q: Pixel) {
    Pixel(q.r - 1, q.c) in s || Pixel(q.r + 1, q.c) in s || Pixel(q.r, q.c - 1) in s || Pixel(q.r, q.c + 1) in s
  }

  lemma AdjacentNeighborIn(s: set<Pixel>, p: Pixel, q: Pixel)
    requires p in s && Adjacent(p, q)
    ensures HasNeighborIn(s, q)
  {
  }

  /** `s` together with every foreground pixel next to it. */
  function Expand(m: Grid<bool>, s: set<Pixel>): set<Pixel> {
    s + set q | q in FgSet(m) && HasNeighborIn(s, q)
  }

  /** Grows `s` one ring at a time until it is closed under foreground adjacency. */
  function Grow(m: Grid<bool>, s: set<Pixel>): (t: set<Pixel>)
    requires s <= FgSet(m)
    ensures s <= t <= FgSet(m)
    ensures Expand(m, t) == t
    decreases FgSet(m) - s
  {
    var s' := Expand(m, s);
    if s' == s then s
    else
      assert FgSet(m) - s' < FgSet(m) - s by {
        var x :| x in s' && x !in s;
        assert x in FgSet(m) - s && x !in FgSet(m) - s';
      }
      Grow(m, s')
  }

  /** The connected component that contains the foreground pixel `p`. */
  function Component(m: Grid<bool>, p: Pixel): (t: set<Pixel>)
    requires Fg(m, p)
    ensures forall q :: q in t <==> Connected(m, p, q)
  {
    ComponentIsConnected(m, p);
    Grow(m, {p})
  }

  lemma {:induction false} GrowSound(m: Grid<bool>, p: Pixel, s: set<Pixel>)
    requires s <= FgSet(m)
    requires forall x :: x in s ==> Connected(m, p, x)
    ensures forall q :: q in Grow(m, s) ==> Connected(m, p, q)
    decreases FgSet(m) - s
  {
    var s' := Expand(m, s);
    forall q | q in s'
      ensures Connected(m, p, q)
    {
      if q !in s {
        assert Fg(m, q) && HasNeighborIn(s, q);
        var n :=
          if Pixel(q.r - 1, q.c) in s then Pixel(q.r - 1, q.c)
          else if Pixel(q.r + 1, q.c) in s then Pixel(q.r + 1, q.c)
          else if Pixel(q.r, q.c - 1) in s then Pixel(q.r, q.c - 1)
          else Pixel(q.r, q.c + 1);
        assert n in s && Adjacent(n, q);
        ConnectedStep(m, p, n, q);
      }
    }
    if s' != s {
      assert FgSet(m) - s' < FgSet(m) - s by {
        var x :| x in s' && x !in s;
        assert x in FgSet(m) - s && x !in FgSet(m) - s';
      }
      GrowSound(m, p, s');
    }
  }

  /** A path that starts inside a set closed under foreground adjacency never leaves it. */
  lemma {:induction false} PathStaysInClosed(m: Grid<bool>, t: set<Pixel>, path: seq<Pixel>, i: nat)
    requires Expand(m, t) == t && IsPath(m, path) && path[0] in t && i < |path|
    ensures path[i] in t
  {
    if i > 0 {
      PathStaysInClosed(m, t, path, i - 1);
      assert Adjacent(path[i - 1], path[i]);
      AdjacentNeighborIn(t, path[i - 1], path[i]);
      assert Fg(m, path[i]);
      assert path[i] in Expand(m, t);
    }
  }

  lemma ComponentIsConnected(m: Grid<bool>, p: Pixel)
    requires Fg(m, p)
    ensures forall q :: q in Grow(m, {p}) <==> Connected(m, p, q)
  {
    ConnectedReflexive(m, p);
    GrowSound(m, p, {p});
    var t := Grow(m, {p});
    forall q | Connected(m, p, q)
      ensures q in t
    {
      var path :| IsPath(m, path) && path[0] == p && path[|path| - 1] == q;
      PathStaysInClosed(m, t, path, |path| - 1);
    }
  }
}
