/** The binning of a photon table: a list of axes, each given by its bin
    edges, laid out in row-major order (the last axis varies fastest), with
    the bin volumes of the spherical and cylindrical table geometries.  The
    axis objects themselves are not part of this model: an axis is its
    sequence of bin edges, GetBinEdge(i) is the i-th edge and GetNBins the
    number of edges less one. */
module Binning {

  datatype Axis = Axis(edges: seq<real>)

  function NBins(a: Axis): int {
    |a.edges| - 1
  }

  /** Every axis has at least one bin. */
  predicate HasBins(axes: seq<Axis>) {
    forall k :: 0 <= k < |axes| ==> |axes[k].edges| >= 2
  }

  /** The two table geometries; their bin volumes differ. */
  datatype Geometry = Spherical | Cylindrical

  // ---------------------------------------------------------------------
  // Row-major layout

  function Product(s: seq<int>): int {
    if |s| == 0 then 1 else s[0] * Product(s[1..])
  }

  predicate Positive(s: seq<int>) {
    forall k :: 0 <= k < |s| ==> s[k] >= 1
  }

  lemma {:induction false} ProductPositive(s: seq<int>)
    requires Positive(s)
    ensures Product(s) >= 1
  {
    if |s| > 0 {
      ProductPositive(s[1..]);
      assert s[0] * Product(s[1..]) >= Product(s[1..]);
    }
  }

  predicate Natural(s: seq<int>) {
    forall k :: 0 <= k < |s| ==> s[k] >= 0
  }

  /** A shape without negative dimensions has a cell count of at least
      zero. */
  lemma {:induction false} ProductNatural(s: seq<int>)
    requires Natural(s)
    ensures Product(s) >= 0
  {
    if |s| > 0 {
      ProductNatural(s[1..]);
      ProductOfNaturals(s[0], Product(s[1..]));
    }
  }

  lemma ProductOfNaturals(a: int, b: int)
    requires a >= 0 && b >= 0
    ensures a * b >= 0
  {
  }

  /** The shape the intended constructor gives: every axis's bin count. */
  function Shape(axes: seq<Axis>): (shape: seq<int>)
    ensures |shape| == |axes|
    ensures HasBins(axes) ==> Positive(shape)
  {
    seq(|axes|, k requires 0 <= k < |axes| => NBins(axes[k]))
  }

  /** The stride of dimension j: the number of bins of all later
      dimensions together. */
  function Strides(shape: seq<int>): (strides: seq<int>)
    ensures |strides| == |shape|
  {
    seq(|shape|, j requires 0 <= j < |shape| => Product(shape[j + 1..]))
  }

  /** The strides are those the constructor's loop builds from the back:
      one for the last dimension, and each earlier one the next stride times
      the next dimension's size; the first stride times the first size is
      the number of bins. */
  lemma {:induction false} StridesMeaning(shape: seq<int>)
    requires |shape| >= 1
    ensures Strides(shape)[|shape| - 1] == 1
    ensures forall i :: 0 <= i < |shape| - 1 ==>
      Strides(shape)[i] == Strides(shape)[i + 1] * shape[i + 1]
    ensures Strides(shape)[0] * shape[0] == Product(shape)
  {
    forall i | 0 <= i < |shape| - 1
      ensures Strides(shape)[i] == Strides(shape)[i + 1] * shape[i + 1]
    {
      ProductStep(shape, i + 1);
    }
    assert shape[|shape|..] == [];
    ProductStep(shape, 0);
    assert shape[0..] == shape;
  }

  /** The per-dimension indices of flat index `idx`: its quotient by the
      dimension's stride, modulo the dimension's size. */
  function Unravel(idx: int, shape: seq<int>): (idxs: seq<int>)
    requires idx >= 0 && Positive(shape)
    ensures |idxs| == |shape|
    ensures forall j :: 0 <= j < |shape| ==> 0 <= idxs[j] < shape[j]
  {
    seq(|shape|, j requires 0 <= j < |shape| =>
      ProductPositive(shape[j + 1..]);
      idx / Product(shape[j + 1..]) % shape[j])
  }

  /** The flat index of per-dimension indices: the sum of each index times
      its stride. */
  function Ravel(idxs: seq<int>, shape: seq<int>): int
    requires |idxs| == |shape|
  {
    if |shape| == 0 then 0 else idxs[0] * Product(shape[1..]) + Ravel(idxs[1..], shape[1..])
  }

  lemma UnravelTail(idx: int, shape: seq<int>)
    requires idx >= 0 && Positive(shape) && |shape| >= 1
    ensures Unravel(idx, shape)[1..] == Unravel(idx, shape[1..])
  {
    forall j | 0 <= j < |shape| - 1
      ensures Unravel(idx, shape)[1..][j] == Unravel(idx, shape[1..])[j]
    {
      assert shape[1..][j + 1..] == shape[j + 2..];
    }
  }

  /** Raveling the unraveled index gives the index back, modulo the number
      of bins: every index below the number of bins round-trips. */
  lemma {:induction false} RavelUnravel(idx: int, shape: seq<int>)
    requires idx >= 0 && Positive(shape)
    ensures Product(shape) >= 1
    ensures Ravel(Unravel(idx, shape), shape) == idx % Product(shape)
    ensures idx < Product(shape) ==> Ravel(Unravel(idx, shape), shape) == idx
  {
    ProductPositive(shape);
    if |shape| > 0 {
      var tail := shape[1..];
      ProductPositive(tail);
      RavelUnravel(idx, tail);
      UnravelTail(idx, shape);
      assert shape[0 + 1..] == tail;
      MixedRadix(idx, shape[0], Product(tail));
    }
    if idx < Product(shape) {
      RemainderUnique(idx, Product(shape), 0, idx);
    }
  }

  /** One digit of a mixed-radix number: the remainder modulo a * p splits
      into the digit of weight p and the remainder modulo p. */
  lemma MixedRadix(x: int, a: int, p: int)
    requires x >= 0 && a >= 1 && p >= 1
    ensures (x / p) % a * p + x % p == x % (a * p)
  {
    var q := x / p;
    var r := x % p;
    var m := (q % a) * p + r;
    Regroup(q / a, a, q % a, p);
    assert x == (q / a) * (a * p) + m;
    DigitBound(q % a, a, p, r);
    RemainderUnique(x, a * p, q / a, m);
  }

  lemma Regroup(u: int, a: int, v: int, p: int)
    ensures (u * a + v) * p == u * (a * p) + v * p
  {
  }

  lemma DigitBound(v: int, a: int, p: int, r: int)
    requires 0 <= v <= a - 1 && 0 <= r < p
    ensures 0 <= v * p + r < a * p
  {
    assert v * p <= (a - 1) * p;
  }

  lemma RemainderUnique(x: int, d: int, k: int, m: int)
    requires d > 0 && 0 <= m < d && x == k * d + m
    ensures x % d == m
  {
    var k' := x / d;
    assert (k - k') * d == x % d - m;
    SmallMultiple(k - k', d);
  }

  lemma SmallMultiple(c: int, d: int)
    requires d > 0 && -d < c * d < d
    ensures c == 0
  {
    if c >= 1 {
      MulAtLeast(c, d);
    } else if c <= -1 {
      MulAtLeast(-c, d);
    }
  }

  lemma MulAtLeast(c: int, d: int)
    requires c >= 1 && d > 0
    ensures c * d >= d
  {
  }

  // ---------------------------------------------------------------------
  // The constructor as written

  /** The shape the constructor leaves: only the last dimension's size is
      read from its axis, the others keep their initial 1. */
  function ShapeAsWritten(axes: seq<Axis>): (shape: seq<int>)
    requires |axes| >= 1
    ensures |shape| == |axes|
  {
    seq(|axes| - 1, _ => 1) + [NBins(axes[|axes| - 1])]
  }

  /** As written, the number of bins is that of the last axis alone; a
      radius axis with 3 bins and a time axis with 4 give 4 bins instead
      of 12. */
  lemma {:induction false} AsWrittenCountsLastAxisOnly(axes: seq<Axis>)
    requires |axes| >= 1
    ensures var shape := ShapeAsWritten(axes);
      Strides(shape)[0] * shape[0] == Product(shape) == NBins(axes[|axes| - 1])
    ensures axes == [Axis([0.0, 1.0, 2.0, 3.0]), Axis([0.0, 1.0, 2.0, 3.0, 4.0])] ==>
      Product(ShapeAsWritten(axes)) == 4 && Product(Shape(axes)) == 12
  {
    var shape := ShapeAsWritten(axes);
    StridesMeaning(shape);
    OnesThenLast(shape);
    if axes == [Axis([0.0, 1.0, 2.0, 3.0]), Axis([0.0, 1.0, 2.0, 3.0, 4.0])] {
      assert Shape(axes) == [3, 4];
      assert Shape(axes)[1..] == [4];
    }
  }

  /** The product from position j on is the size at j times the product
      after it. */
  lemma ProductStep(s: seq<int>, j: int)
    requires 0 <= j < |s|
    ensures Product(s[j..]) == Product(s[j + 1..]) * s[j]
  {
    assert s[j..][1..] == s[j + 1..];
  }

  lemma {:induction false} OnesThenLast(s: seq<int>)
    requires |s| >= 1 && forall k :: 0 <= k < |s| - 1 ==> s[k] == 1
    ensures Product(s) == s[|s| - 1]
  {
    if |s| > 1 {
      OnesThenLast(s[1..]);
    }
  }

  // ---------------------------------------------------------------------
  // Bin volumes

  /** Per-dimension indices that name a bin on every axis. */
  predicate InBins(axes: seq<Axis>, idxs: seq<int>) {
    |idxs| == |axes| && forall k :: 0 <= k < |axes| ==> 0 <= idxs[k] < NBins(axes[k])
  }

  /** The width of bin i of an axis. */
  function Width(a: Axis, i: int): real
    requires 0 <= i < NBins(a)
  {
    a.edges[i + 1] - a.edges[i]
  }

  /** The spherical bin volume: radial shell, twice the nominal azimuth
      width in degrees, and the width in the cosine of the zenith angle.
      Azimuths beyond 180 degrees are folded onto the other half, hence the
      factor two. */
  function SphericalVolume(axes: seq<Axis>, idxs: seq<int>, degree: real): real
    requires |axes| >= 3 && InBins(axes, idxs)
  {
    var r0 := axes[0].edges[idxs[0]];
    var r1 := axes[0].edges[idxs[0] + 1];
    (r1 * r1 * r1 - r0 * r0 * r0) / 3.0 * 2.0 * degree * Width(axes[1], idxs[1]) * Width(axes[2], idxs[2])
  }

  /** The cylindrical bin volume: annulus area over the nominal angle,
      doubled for the folded half, times the height. */
  function CylindricalVolume(axes: seq<Axis>, idxs: seq<int>): real
    requires |axes| >= 3 && InBins(axes, idxs)
  {
    var r0 := axes[0].edges[idxs[0]];
    var r1 := axes[0].edges[idxs[0] + 1];
    (r1 * r1 - r0 * r0) / 2.0 * 2.0 * Width(axes[1], idxs[1]) * Width(axes[2], idxs[2])
  }

  function Volume(geometry: Geometry, axes: seq<Axis>, idxs: seq<int>, degree: real): real
    requires |axes| >= 3 && InBins(axes, idxs)
  {
    match geometry
    case Spherical => SphericalVolume(axes, idxs, degree)
    case Cylindrical => CylindricalVolume(axes, idxs)
  }

  predicate Ascending(a: Axis) {
    forall i :: 0 <= i < |a.edges| - 1 ==> a.edges[i] <= a.edges[i + 1]
  }

  lemma CubeMonotone(r0: real, r1: real)
    requires r0 <= r1
    ensures r0 * r0 * r0 <= r1 * r1 * r1
  {
    var d := r1 - r0;
    var s := r1 * r1 + r1 * r0 + r0 * r0;
    assert r1 * r1 * r1 - r0 * r0 * r0 == d * s;
    assert s == (r1 + r0 / 2.0) * (r1 + r0 / 2.0) + 3.0 * (r0 * r0) / 4.0;
    SquareNonNegative(r1 + r0 / 2.0);
    SquareNonNegative(r0);
    assert d * s >= 0.0;
  }

  lemma SquareNonNegative(x: real)
    ensures x * x >= 0.0
  {
    if x < 0.0 {
      assert x * x == (-x) * (-x);
    }
  }

  lemma SquareMonotone(r0: real, r1: real)
    requires 0.0 <= r0 <= r1
    ensures r0 * r0 <= r1 * r1
  {
    assert r0 * r0 <= r0 * r1;
    assert r0 * r1 <= r1 * r1;
  }

  lemma ProductNonNegative(a: real, b: real, c: real, d: real)
    requires a >= 0.0 && b >= 0.0 && c >= 0.0 && d >= 0.0
    ensures a * b * c * d >= 0.0
  {
    assert a * b >= 0.0;
    assert a * b * c >= 0.0;
  }

  /** With ascending edges a spherical bin has a non-negative volume, and
      so has a cylindrical bin whose radial edges are non-negative. */
  lemma VolumeNonNegative(geometry: Geometry, axes: seq<Axis>, idxs: seq<int>, degree: real)
    requires |axes| >= 3 && InBins(axes, idxs) && degree > 0.0
    requires Ascending(axes[0]) && Ascending(axes[1]) && Ascending(axes[2])
    requires geometry == Cylindrical ==> axes[0].edges[idxs[0]] >= 0.0
    ensures Volume(geometry, axes, idxs, degree) >= 0.0
  {
    var r0 := axes[0].edges[idxs[0]];
    var r1 := axes[0].edges[idxs[0] + 1];
    var w1 := Width(axes[1], idxs[1]);
    var w2 := Width(axes[2], idxs[2]);
    assert w1 >= 0.0 && w2 >= 0.0;
    match geometry
    case Spherical =>
      CubeMonotone(r0, r1);
      ProductNonNegative((r1 * r1 * r1 - r0 * r0 * r0) / 3.0 * 2.0, degree, w1, w2);
    case Cylindrical =>
      SquareMonotone(r0, r1);
      ProductNonNegative((r1 * r1 - r0 * r0) / 2.0, 2.0, w1, w2);
  }

  /** The loop of the Axes constructor: every dimension's size is read from
      its axis, and the strides are filled from the back, each the next
      stride times the next size. */
  method RowMajorLayout(axes: seq<Axis>) returns (sh: seq<int>, st: seq<int>)
    requires |axes| >= 1 && HasBins(axes)
    ensures sh == Shape(axes) && st == Strides(sh)
  {
    var n := |axes|;
    ghost var target := Shape(axes);
    ghost var strides := Strides(target);
    StrideLast(target);
    sh := seq(n, _ => 1);
    st := seq(n, _ => 1);
    var i := n - 1;
    sh := sh[i := NBins(axes[i])];
    i := i - 1;
    while i >= 0
      invariant -1 <= i < n - 1 && |sh| == n && |st| == n
      invariant forall k :: 0 <= k <= i ==> st[k] == 1
      invariant forall k :: i < k < n ==> sh[k] == target[k]
      invariant forall k :: i < k < n ==> st[k] == strides[k]
    {
      StrideStep(target, i);
      sh := sh[i := NBins(axes[i])];
      var next := st[i + 1] * sh[i + 1];
      assert next == strides[i];
      assert st[i] == 1;
      st := st[i := st[i] * next];
      i := i - 1;
    }
    assert sh == target;
    assert st == strides;
  }

  lemma StrideLast(shape: seq<int>)
    requires |shape| >= 1
    ensures Strides(shape)[|shape| - 1] == 1
  {
    assert shape[|shape|..] == [];
  }

  lemma StrideStep(shape: seq<int>, i: int)
    requires 0 <= i < |shape| - 1
    ensures Strides(shape)[i] == Strides(shape)[i + 1] * shape[i + 1]
  {
    ProductStep(shape, i + 1);
  }

  // ---------------------------------------------------------------------
  // The Axes object

  class Axes {
    const axes: seq<Axis>
    const geometry: Geometry
    var shape: seq<int>
    var strides: seq<int>
    var nBins: int

    /** The layout the constructor establishes: every dimension's size is
        its axis's bin count, the strides are row-major and the number of
        bins is the product of the sizes. */
    predicate Valid()
      reads this
    {
      |axes| >= 1 && HasBins(axes)
      && shape == Shape(axes) && strides == Strides(shape) && nBins == Product(shape)
    }

    /** The constructor with every dimension's size read from its axis
        inside the loop; the strides are filled from the back. */
    constructor (axes: seq<Axis>, geometry: Geometry)
      requires |axes| >= 1 && HasBins(axes)
      ensures this.axes == axes && this.geometry == geometry && Valid()
    {
      var sh, st := RowMajorLayout(axes);
      StridesMeaning(sh);
      this.axes := axes;
      this.geometry := geometry;
      shape := sh;
      strides := st;
      nBins := st[0] * sh[0];
    }

    /** GetBinVolume of a flat index: unravel it, then take the geometry's
        volume of the bin so named. */
    method BinVolume(idx: nat, degree: real) returns (v: real)
      requires Valid() && |axes| >= 3
      ensures v == Volume(geometry, axes, Unravel(idx, shape), degree)
    {
      var n := |shape|;
      var idxs := new int[n];
      for j := 0 to n
        invariant forall k :: 0 <= k < j ==> idxs[k] == Unravel(idx, shape)[k]
      {
        var stride := strides[j];
        assert stride == Product(shape[j + 1..]);
        ProductPositive(shape[j + 1..]);
        idxs[j] := idx / stride % shape[j];
      }
      assert idxs[..] == Unravel(idx, shape);
      v := Volume(geometry, axes, idxs[..], degree);
    }
  }
}
