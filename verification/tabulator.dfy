/** The Python photon tables of the table maker: a PhotoTable holds bin
    edges, value and weight arrays and a header, and is stacked, scaled and
    normalised in place; a Tabulator sets up zero-filled arrays for given
    bin edges and clamps the bin indices of a sample into the table. */
module PhotoTables {
  import opened Wrappers
  import Binning

  // ---------------------------------------------------------------------
  // Arrays

  /** One array element: a finite number, or a NaN or an infinity, which
      arithmetic keeps non-finite. */
  datatype Cell = Finite(v: real) | NonFinite

  /** A numpy array: its shape and its elements in row-major order. */
  datatype Grid = Grid(shape: seq<int>, cells: seq<Cell>)

  predicate WellFormed(g: Grid) {
    Binning.Natural(g.shape) && |g.cells| == Binning.Product(g.shape)
  }

  function Plus(a: Cell, b: Cell): Cell {
    if a.Finite? && b.Finite? then Finite(a.v + b.v) else NonFinite
  }

  function Times(a: Cell, k: real): Cell {
    if a.Finite? then Finite(a.v * k) else NonFinite
  }

  /** In-place `+=` of two arrays of the same shape. */
  function AddGrid(g: Grid, h: Grid): (r: Grid)
    requires |g.cells| == |h.cells|
    ensures r.shape == g.shape && |r.cells| == |g.cells|
  {
    Grid(g.shape, seq(|g.cells|, i requires 0 <= i < |g.cells| => Plus(g.cells[i], h.cells[i])))
  }

  /** In-place `*=` by a number. */
  function ScaleGrid(g: Grid, k: real): (r: Grid)
    ensures r.shape == g.shape && |r.cells| == |g.cells|
  {
    Grid(g.shape, seq(|g.cells|, i requires 0 <= i < |g.cells| => Times(g.cells[i], k)))
  }

  predicate HasNonFinite(g: Grid) {
    exists i :: 0 <= i < |g.cells| && g.cells[i].NonFinite?
  }

  /** numpy.zeros of a shape. */
  function Zeros(shape: seq<int>): (g: Grid)
    requires Binning.Natural(shape)
    ensures WellFormed(g) && g.shape == shape
  {
    Binning.ProductNatural(shape);
    Grid(shape, seq(Binning.Product(shape), _ => Finite(0.0)))
  }

  /** Adding a zero-filled array of the same shape changes nothing, and
      scaling one leaves it zero-filled. */
  lemma ZerosAreNeutral(g: Grid, k: real)
    requires WellFormed(g)
    ensures AddGrid(g, Zeros(g.shape)) == g
    ensures ScaleGrid(Zeros(g.shape), k) == Zeros(g.shape)
  {
    var z := Zeros(g.shape);
    forall i | 0 <= i < |g.cells|
      ensures AddGrid(g, z).cells[i] == g.cells[i]
    {
    }
    forall i | 0 <= i < |z.cells|
      ensures ScaleGrid(z, k).cells[i] == z.cells[i]
    {
    }
  }

  // ---------------------------------------------------------------------
  // Bin centres and widths

  /** The midpoint of every pair of neighbouring edges. */
  function Centers(edges: seq<real>): (c: seq<real>)
    ensures |c| == if |edges| == 0 then 0 else |edges| - 1
  {
    if |edges| == 0 then []
    else seq(|edges| - 1, i requires 0 <= i < |edges| - 1 => (edges[i + 1] + edges[i]) / 2.0)
  }

  /** The difference of every pair of neighbouring edges. */
  function Widths(edges: seq<real>): (w: seq<real>)
    ensures |w| == if |edges| == 0 then 0 else |edges| - 1
  {
    if |edges| == 0 then []
    else seq(|edges| - 1, i requires 0 <= i < |edges| - 1 => edges[i + 1] - edges[i])
  }

  /** Each bin is its centre plus or minus half its width, so for ascending
      edges the width is not negative and the centre lies inside the bin. */
  lemma CenterAndWidthSpanBin(edges: seq<real>, i: int)
    requires 0 <= i < |edges| - 1
    ensures Centers(edges)[i] - Widths(edges)[i] / 2.0 == edges[i]
    ensures Centers(edges)[i] + Widths(edges)[i] / 2.0 == edges[i + 1]
    ensures edges[i] <= edges[i + 1] ==>
      Widths(edges)[i] >= 0.0 && edges[i] <= Centers(edges)[i] <= edges[i + 1]
  {
  }

  // ---------------------------------------------------------------------
  // The table contents and their operations

  datatype EfficiencyFlag = NPhoton | OtherFlag(name: string)

  /** The table header: the photon count, the efficiency bit set, and the
      remaining keys (geometry, parity, zenith, z, energy, type, level and
      the refractive indices) with their values. */
  datatype Header = Header(nPhotons: int, efficiency: set<EfficiencyFlag>, others: map<string, real>)

  /** What the in-place operations of a PhotoTable change. */
  datatype TableData = TableData(values: Grid, weights: Grid, header: Header)

  predicate Consistent(c: TableData) {
    WellFormed(c.values) && c.weights.shape == c.values.shape && |c.weights.cells| == |c.values.cells|
  }

  /** What makes a table refuse to be combined or divided. */
  datatype TableError =
    | ShapeMismatch
    | NonFiniteInThis
    | NonFiniteInOther
    | HeaderMismatch
    | ZeroDivision
    | NegativeDimension

  /** Every header key of `h` but the photon count is present in `o` with
      the same value; `o` may carry more keys. */
  predicate HeadersAgree(h: Header, o: Header) {
    h.efficiency == o.efficiency
    && forall k :: k in h.others ==> k in o.others && o.others[k] == h.others[k]
  }

  /** raise_if_incompatible: the first failing check, in the order the
      source makes them, or `None`. */
  function Incompatibility(a: TableData, b: TableData): (r: Option<TableError>)
    ensures r.None? <==>
      a.values.shape == b.values.shape && !HasNonFinite(a.values) && !HasNonFinite(b.values)
      && HeadersAgree(a.header, b.header)
    ensures r.Some? ==> r.value in {ShapeMismatch, NonFiniteInThis, NonFiniteInOther, HeaderMismatch}
  {
    if a.values.shape != b.values.shape then Some(ShapeMismatch)
    else if HasNonFinite(a.values) then Some(NonFiniteInThis)
    else if HasNonFinite(b.values) then Some(NonFiniteInOther)
    else if !HeadersAgree(a.header, b.header) then Some(HeaderMismatch)
    else None
  }

  /** A table without non-finite values can be stacked onto itself. */
  lemma CompatibleWithItself(c: TableData)
    requires !HasNonFinite(c.values)
    ensures Incompatibility(c, c).None?
  {
  }

  /** __iadd__ after the check: values and weights added elementwise and the
      photon counts summed; every other header entry is this table's. */
  function Added(a: TableData, b: TableData): (r: TableData)
    requires Consistent(a) && Consistent(b) && a.values.shape == b.values.shape
    ensures Consistent(r)
  {
    TableData(AddGrid(a.values, b.values), AddGrid(a.weights, b.weights),
             a.header.(nPhotons := a.header.nPhotons + b.header.nPhotons))
  }

  /** __imul__: values scaled by the number and weights by its square. */
  function Scaled(c: TableData, k: real): (r: TableData)
    ensures Consistent(c) ==> Consistent(r)
  {
    TableData(ScaleGrid(c.values, k), ScaleGrid(c.weights, Square(k)), c.header)
  }

  function Square(k: real): real {
    k * k
  }

  /** __idiv__: multiplication by the reciprocal, which Python refuses for
      zero. */
  function Divided(c: TableData, k: real): (r: Result<TableData, TableError>)
    ensures r.Failure? <==> k == 0.0
    ensures r.Failure? ==> r.error == ZeroDivision
  {
    if k == 0.0 then Failure(ZeroDivision) else Success(Scaled(c, 1.0 / k))
  }

  /** normalize: unless the photon-count bit is set, divide by the photon
      count and set the bit. */
  function Normalized(c: TableData): (r: Result<TableData, TableError>)
    ensures r.Success? ==> NPhoton in r.value.header.efficiency
  {
    if NPhoton in c.header.efficiency then Success(c)
    else
      match Divided(c, c.header.nPhotons as real)
      case Failure(e) => Failure(e)
      case Success(d) =>
        Success(d.(header := d.header.(efficiency := d.header.efficiency + {NPhoton})))
  }

  /** Scaling commutes with stacking: scaling both tables and then adding
      them gives the scaled sum. */
  lemma ScalingDistributesOverAdding(a: TableData, b: TableData, k: real)
    requires Consistent(a) && Consistent(b) && a.values.shape == b.values.shape
    ensures Added(Scaled(a, k), Scaled(b, k)) == Scaled(Added(a, b), k)
  {
    var l := Added(Scaled(a, k), Scaled(b, k));
    var r := Scaled(Added(a, b), k);
    forall i | 0 <= i < |a.values.cells|
      ensures l.values.cells[i] == r.values.cells[i]
    {
      Distributes(a.values.cells[i], b.values.cells[i], k);
    }
    forall i | 0 <= i < |a.weights.cells|
      ensures l.weights.cells[i] == r.weights.cells[i]
    {
      Distributes(a.weights.cells[i], b.weights.cells[i], Square(k));
    }
    assert l.values == r.values;
    assert l.weights == r.weights;
  }

  lemma Distributes(x: Cell, y: Cell, k: real)
    ensures Plus(Times(x, k), Times(y, k)) == Times(Plus(x, y), k)
  {
    if x.Finite? && y.Finite? {
      assert (x.v + y.v) * k == x.v * k + y.v * k;
    }
  }

  /** Dividing by a nonzero number and multiplying by it again restores both
      arrays. */
  lemma DivideThenMultiplyRestores(c: TableData, k: real)
    requires k != 0.0
    ensures Scaled(Divided(c, k).value, k) == c
  {
    var d := Divided(c, k).value;
    forall i | 0 <= i < |c.values.cells|
      ensures Scaled(d, k).values.cells[i] == c.values.cells[i]
    {
      Inverse(c.values.cells[i], 1.0 / k, k);
    }
    forall i | 0 <= i < |c.weights.cells|
      ensures Scaled(d, k).weights.cells[i] == c.weights.cells[i]
    {
      SquareInverse(k);
      Inverse(c.weights.cells[i], Square(1.0 / k), Square(k));
    }
    assert Scaled(d, k).values == c.values;
    assert Scaled(d, k).weights == c.weights;
  }

  lemma Inverse(x: Cell, u: real, k: real)
    requires u * k == 1.0
    ensures Times(Times(x, u), k) == x
  {
    if x.Finite? {
      assert (x.v * u) * k == x.v * (u * k);
    }
  }

  lemma SquareInverse(k: real)
    requires k != 0.0
    ensures Square(1.0 / k) * Square(k) == 1.0
  {
    var u := 1.0 / k;
    assert u * k == 1.0;
    assert (u * u) * (k * k) == (u * k) * (u * k);
  }

  /** normalize fails exactly when it would divide by a photon count of
      zero, does nothing to a table that already carries the bit, and
      otherwise divides values by the count and weights by its square. */
  lemma NormalizedMeaning(c: TableData)
    ensures Normalized(c).Failure? <==> NPhoton !in c.header.efficiency && c.header.nPhotons == 0
    ensures NPhoton in c.header.efficiency ==> Normalized(c) == Success(c)
    ensures NPhoton !in c.header.efficiency && c.header.nPhotons != 0 ==>
      var d := Normalized(c).value;
      var u := 1.0 / (c.header.nPhotons as real);
      d.values == ScaleGrid(c.values, u)
      && d.weights == ScaleGrid(c.weights, Square(u))
      && d.header == c.header.(efficiency := c.header.efficiency + {NPhoton})
  {
  }

  /** Normalising twice is normalising once. */
  lemma NormalizeIsIdempotent(c: TableData)
    requires Normalized(c).Success?
    ensures Normalized(Normalized(c).value) == Normalized(c)
  {
  }

  // ---------------------------------------------------------------------
  // PhotoTable

  class PhotoTable {
    const binEdges: seq<seq<real>>
    const binCenters: seq<seq<real>>
    const binWidths: seq<seq<real>>
    var values: Grid
    var weights: Grid
    var header: Header

    function Contents(): TableData
      reads this
    {
      TableData(values, weights, header)
    }

    predicate Valid()
      reads this
    {
      Consistent(Contents())
    }

    /** __init__: the arrays and header as given, and the centres and widths
        of every axis's bins. */
    constructor (binEdges: seq<seq<real>>, values: Grid, weights: Grid, header: Header)
      ensures this.binEdges == binEdges && this.values == values
      ensures this.weights == weights && this.header == header
      ensures |binCenters| == |binWidths| == |binEdges|
      ensures forall j :: 0 <= j < |binEdges| ==>
        binCenters[j] == Centers(binEdges[j]) && binWidths[j] == Widths(binEdges[j])
    {
      this.binEdges := binEdges;
      this.values := values;
      this.weights := weights;
      this.binCenters := seq(|binEdges|, j requires 0 <= j < |binEdges| => Centers(binEdges[j]));
      this.binWidths := seq(|binEdges|, j requires 0 <= j < |binEdges| => Widths(binEdges[j]));
      this.header := header;
    }

    /** __iadd__: stack `other` onto this table if the two are compatible;
        an incompatible table is reported and nothing changes.  `other` may
        be this table itself. */
    method Add(other: PhotoTable) returns (error: Option<TableError>)
      requires Valid() && other.Valid()
      modifies this
      ensures error == Incompatibility(old(Contents()), old(other.Contents()))
      ensures error.Some? ==> Contents() == old(Contents())
      ensures error.None? ==> Contents() == Added(old(Contents()), old(other.Contents()))
    {
      error := Incompatibility(Contents(), other.Contents());
      if error.Some? {
        return;
      }
      ghost var before := Contents();
      ghost var added := other.Contents();
      values := AddGrid(values, other.values);
      weights := AddGrid(weights, other.weights);
      header := header.(nPhotons := header.nPhotons + other.header.nPhotons);
      assert Contents() == Added(before, added);
    }

    /** __imul__. */
    method Multiply(k: real)
      modifies this
      ensures Contents() == Scaled(old(Contents()), k)
    {
      values := ScaleGrid(values, k);
      weights := ScaleGrid(weights, Square(k));
    }

    /** __idiv__. */
    method Divide(k: real) returns (error: Option<TableError>)
      modifies this
      ensures error.Some? <==> Divided(old(Contents()), k).Failure?
      ensures error.Some? ==> error.value == ZeroDivision && Contents() == old(Contents())
      ensures error.None? ==> Contents() == Divided(old(Contents()), k).value
    {
      if k == 0.0 {
        return Some(ZeroDivision);
      }
      Multiply(1.0 / k);
      error := None;
    }

    /** normalize. */
    method Normalize() returns (error: Option<TableError>)
      modifies this
      ensures error.Some? <==> Normalized(old(Contents())).Failure?
      ensures error.Some? ==> Contents() == old(Contents())
      ensures error.None? ==> Contents() == Normalized(old(Contents())).value
    {
      error := None;
      if NPhoton !in header.efficiency {
        error := Divide(header.nPhotons as real);
        if error.Some? {
          return;
        }
        header := header.(efficiency := header.efficiency + {NPhoton});
      }
    }
  }

  // ---------------------------------------------------------------------
  // Tabulator

  /** The number of bins of every axis. */
  function BinCounts(binEdges: seq<seq<real>>): (counts: seq<int>)
    ensures |counts| == |binEdges|
  {
    seq(|binEdges|, j requires 0 <= j < |binEdges| => |binEdges[j]| - 1)
  }

  /** numpy.searchsorted: the position of the first edge at or above `v`,
      which for ascending edges is where `v` would be inserted. */
  function SearchSorted(edges: seq<real>, v: real): (i: int)
    ensures 0 <= i <= |edges|
    ensures forall k :: 0 <= k < i ==> edges[k] < v
    ensures i < |edges| ==> edges[i] >= v
  {
    if |edges| == 0 || edges[0] >= v then 0
    else
      var rest := SearchSorted(edges[1..], v);
      assert forall k :: 1 <= k < rest + 1 ==> edges[k] == edges[1..][k - 1];
      rest + 1
  }

  /** The raw bin index of every coordinate along its axis; like `zip`, it
      stops at the shorter of the coordinates and the axes. */
  function SearchIndices(coords: seq<real>, binEdges: seq<seq<real>>): (idx: seq<int>)
    ensures |idx| <= |coords| && |idx| <= |binEdges|
    ensures |idx| == |coords| || |idx| == |binEdges|
  {
    var n := if |coords| <= |binEdges| then |coords| else |binEdges|;
    seq(n, j requires 0 <= j < n => SearchSorted(binEdges[j], coords[j]))
  }

  /** Each index lowered to at most the axis's last bin. */
  function Clamped(idx: seq<int>, binEdges: seq<seq<real>>): (r: seq<int>)
    requires |idx| <= |binEdges|
    ensures |r| == |idx|
  {
    seq(|idx|, j requires 0 <= j < |idx| =>
      if idx[j] > |binEdges[j]| - 2 then |binEdges[j]| - 2 else idx[j])
  }

  class Tabulator {
    var binEdges: seq<seq<real>>
    var values: Grid
    var weights: Grid
    var stepLength: real

    /** SetBins: the edges are stored first; then zero-filled value and
        weight arrays of one entry per bin are made, which numpy refuses
        when an axis has no edges at all. */
    method SetBins(binEdges: seq<seq<real>>, stepLength: real) returns (error: Option<TableError>)
      modifies this
      ensures this.binEdges == binEdges
      ensures error.Some? <==> !Binning.Natural(BinCounts(binEdges))
      ensures error.Some? ==>
        (error.value == NegativeDimension
         && values == old(values) && weights == old(weights) && this.stepLength == old(this.stepLength))
      ensures error.None? ==>
        (Binning.Natural(BinCounts(binEdges))
         && values == Zeros(BinCounts(binEdges)) && weights == Zeros(BinCounts(binEdges))
         && this.stepLength == stepLength)
    {
      this.binEdges := binEdges;
      var counts := BinCounts(binEdges);
      if !Binning.Natural(counts) {
        return Some(NegativeDimension);
      }
      values := Zeros(counts);
      weights := Zeros(values.shape);
      this.stepLength := stepLength;
      error := None;
    }

    /** The end of _getBinIndices: the raw indices of the coordinates, with
        every index past an axis's last bin lowered onto that bin. */
    method BinIndices(coords: seq<real>) returns (idx: seq<int>)
      ensures idx == Clamped(SearchIndices(coords, binEdges), binEdges)
    {
      idx := SearchIndices(coords, binEdges);
      ghost var raw := idx;
      for j := 0 to |idx|
        invariant |idx| == |raw|
        invariant forall k :: 0 <= k < j ==> idx[k] == Clamped(raw, binEdges)[k]
        invariant forall k :: j <= k < |idx| ==> idx[k] == raw[k]
      {
        if idx[j] > |binEdges[j]| - 2 {
          idx := idx[j := |binEdges[j]| - 2];
        }
      }
    }
  }

  /** Every clamped index names a bin: it is at most the last bin, equal to
      the raw index when that is a bin already, and not negative on an
      axis with at least two edges. */
  lemma ClampedIndicesAreBins(coords: seq<real>, binEdges: seq<seq<real>>, j: int)
    requires 0 <= j < |coords| && j < |binEdges|
    ensures var raw := SearchIndices(coords, binEdges)[j];
      var r := Clamped(SearchIndices(coords, binEdges), binEdges)[j];
      r <= |binEdges[j]| - 2
      && (raw <= |binEdges[j]| - 2 ==> r == raw)
      && (|binEdges[j]| >= 2 ==> 0 <= r)
  {
  }

  predicate Ascending(edges: seq<real>) {
    forall i, j :: 0 <= i < j < |edges| ==> edges[i] <= edges[j]
  }

  /** RecordPhoton's bail-out test, on the indices _getBinIndices returns:
      the radius or time index equals the axis's number of edges. */
  predicate RunsOffTable(idx: seq<int>, binEdges: seq<seq<real>>)
    requires |idx| == 4 && |binEdges| == 4
  {
    idx[0] == |binEdges[0]| || idx[3] == |binEdges[3]|
  }

  /** Because of the clamp the bail-out never fires: a sample beyond the
      last radius edge is recorded in the last radial bin. */
  lemma BailOutNeverTaken(coords: seq<real>, binEdges: seq<seq<real>>)
    requires |coords| == 4 && |binEdges| == 4
    ensures !RunsOffTable(Clamped(SearchIndices(coords, binEdges), binEdges), binEdges)
    ensures |binEdges[0]| >= 2 && Ascending(binEdges[0]) && coords[0] > binEdges[0][|binEdges[0]| - 1] ==>
      Clamped(SearchIndices(coords, binEdges), binEdges)[0] == |binEdges[0]| - 2
  {
    var e := binEdges[0];
    if |e| >= 2 && Ascending(e) && coords[0] > e[|e| - 1] {
      BeyondLastEdge(e, coords[0]);
    }
  }

  /** A value beyond the last of ascending edges is inserted after all of
      them. */
  lemma BeyondLastEdge(edges: seq<real>, v: real)
    requires |edges| >= 1 && Ascending(edges) && v > edges[|edges| - 1]
    ensures SearchSorted(edges, v) == |edges|
  {
  }

  /** The bin indices of a sample as RecordPhoton means them: `None` when
      the sample has run off the radius or time axis, else the clamped
      indices. */
  function BinIndicesOrBail(coords: seq<real>, binEdges: seq<seq<real>>): (r: Option<seq<int>>)
    requires |coords| == 4 && |binEdges| == 4
    ensures r.None? <==> RunsOffTable(SearchIndices(coords, binEdges), binEdges)
    ensures r.Some? ==> r.value == Clamped(SearchIndices(coords, binEdges), binEdges)
  {
    var raw := SearchIndices(coords, binEdges);
    if RunsOffTable(raw, binEdges) then None else Some(Clamped(raw, binEdges))
  }

  /** The intended bail-out fires exactly for a radius or time beyond the
      axis's last edge. */
  lemma BailsOutBeyondLastEdge(coords: seq<real>, binEdges: seq<seq<real>>)
    requires |coords| == 4 && |binEdges| == 4
    requires |binEdges[0]| >= 1 && |binEdges[3]| >= 1
    requires Ascending(binEdges[0]) && Ascending(binEdges[3])
    ensures BinIndicesOrBail(coords, binEdges).None? <==>
      coords[0] > binEdges[0][|binEdges[0]| - 1] || coords[3] > binEdges[3][|binEdges[3]| - 1]
  {
    var raw := SearchIndices(coords, binEdges);
    assert raw[0] == SearchSorted(binEdges[0], coords[0]);
    assert raw[3] == SearchSorted(binEdges[3], coords[3]);
    if coords[0] > binEdges[0][|binEdges[0]| - 1] {
      BeyondLastEdge(binEdges[0], coords[0]);
    }
    if coords[3] > binEdges[3][|binEdges[3]| - 1] {
      BeyondLastEdge(binEdges[3], coords[3]);
    }
  }
}
