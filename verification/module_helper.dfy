/** Wavelength-generator construction and OpenCL work sizing from
    I3CLSimModuleHelper: the spectrum's wavelength range is clipped to the
    medium's, a sampling grid of at most 10 nm spacing (or the binning of a
    tabulated function) is filled with bias times spectrum, and the
    workgroup and work-item counts are derived from the device limits. */
module WavelengthGeneration {
  import opened Wrappers

  /** One entry of a tabulated function. */
  datatype TableEntry = TableEntry(wavelength: real, value: real)

  /** An I3CLSimFunctionFromTable: its entries, first wavelength and, in
      equal-spacing mode, the common stepping. */
  datatype Table = Table(entries: seq<TableEntry>, firstWavelength: real,
                         equalSpacing: bool, stepping: real)

  /** The dynamic type of an I3CLSimFunction, as the helper inspects it. */
  datatype FunctionKind =
    | DeltaPeak(peak: real)
    | Constant(level: real)
    | FromTable(table: Table)
    | Parametrised

  /** A wavelength-dependent function: its kind, its declared wavelength
      range and its values (a constant function has its level everywhere). */
  datatype WlenFunction = WlenFunction(kind: FunctionKind, minWlen: real, maxWlen: real,
                                       values: real -> real)

  /** What the helper reads from the medium properties: the wavelength range,
      whether the phase refractive index has a native implementation, and
      the dispersive Cherenkov yield dN/dx dλ built from that index. */
  datatype MediumProperties = MediumProperties(minWlen: real, maxWlen: real,
                                               nativePhaseIndex: bool,
                                               dispersiveYield: real -> real)

  /** The random-value generators the helper returns. */
  datatype Generator =
    | ConstantWavelength(wavelength: real)
    | EquallySpaced(firstWlen: real, step: real, spectrum: seq<real>)
    | Tabulated(wavelengths: seq<real>, spectrum: seq<real>)
    | CherenkovNoDispersion(minWlen: real, maxWlen: real)

  /** The log_fatal conditions. */
  datatype Fatal = RangeNotPositive | BiasRangeTooNarrow | NoNativePhaseIndex

  function Value(f: WlenFunction, wl: real): real {
    match f.kind
    case Constant(level) => level
    case _ => f.values(wl)
  }

  /** The Cherenkov yield without dispersion, 1/λ²; the pole at λ = 0 is
      given the value 0. */
  function NoDispersionYield(wl: real): real {
    if wl == 0.0 then 0.0 else 1.0 / (wl * wl)
  }

  /** What each grid point is weighted with besides the bias: the unbiased
      spectrum, or the Cherenkov yield with or without dispersion. */
  datatype Sampler =
    | Spectrum(f: WlenFunction)
    | Cherenkov(medium: MediumProperties, withoutDispersion: bool)

  function Entry(s: Sampler, wl: real): real {
    match s
    case Spectrum(f) => Value(f, wl)
    case Cherenkov(m, withoutDispersion) =>
      if withoutDispersion then NoDispersionYield(wl) else m.dispersiveYield(wl)
  }

  // ---------------------------------------------------------------------
  // Range clipping

  /** The wavelength range of the spectrum: a tabulated spectrum keeps its
      own, any other is intersected with the medium's. */
  function ClipRange(f: WlenFunction, m: MediumProperties): (r: (real, real))
    ensures f.kind.FromTable? ==> r == (f.minWlen, f.maxWlen)
    ensures !f.kind.FromTable? ==>
      r.0 >= f.minWlen && r.0 >= m.minWlen && (r.0 == f.minWlen || r.0 == m.minWlen)
    ensures !f.kind.FromTable? ==>
      r.1 <= f.maxWlen && r.1 <= m.maxWlen && (r.1 == f.maxWlen || r.1 == m.maxWlen)
  {
    if f.kind.FromTable? then (f.minWlen, f.maxWlen)
    else
      var lo := if m.minWlen > f.minWlen then m.minWlen else f.minWlen;
      var hi := if m.maxWlen < f.maxWlen then m.maxWlen else f.maxWlen;
      (lo, hi)
  }

  /** A wavelength lies in the clipped range of a parametrised spectrum
      exactly when it lies in both the spectrum's and the medium's range. */
  lemma ClipIsIntersection(f: WlenFunction, m: MediumProperties, wl: real)
    requires !f.kind.FromTable?
    ensures ClipRange(f, m).0 <= wl <= ClipRange(f, m).1 <==>
      (f.minWlen <= wl <= f.maxWlen && m.minWlen <= wl <= m.maxWlen)
  {
  }

  // ---------------------------------------------------------------------
  // The uniform grid

  /** Number of grid points for a range: one per started 10 nm plus two. */
  function GridPoints(range: real, nanometer: real): int
    requires range > 0.0 && nanometer > 0.0
  {
    (range / (10.0 * nanometer)).Floor + 2
  }

  /** The spacing of the grid: the range divided into points - 1 steps. */
  function GridStep(range: real, nanometer: real): real
    requires range > 0.0 && nanometer > 0.0
  {
    FloorBelow(range / (10.0 * nanometer));
    range / ((GridPoints(range, nanometer) - 1) as real)
  }

  function GridWavelength(first: real, step: real, i: int): real {
    first + (i as real) * step
  }

  /** The grid has at least two points, a positive step below 10 nm, and
      its points - 1 steps cover the range exactly. */
  lemma GridMeaning(range: real, nanometer: real)
    requires range > 0.0 && nanometer > 0.0
    ensures GridPoints(range, nanometer) >= 2
    ensures 0.0 < GridStep(range, nanometer) < 10.0 * nanometer
    ensures ((GridPoints(range, nanometer) - 1) as real) * GridStep(range, nanometer) == range
  {
    var x := range / (10.0 * nanometer);
    FloorBelow(x);
    var p := (GridPoints(range, nanometer) - 1) as real;
    assert p == (x.Floor as real) + 1.0;
    assert x < p;
    var step := GridStep(range, nanometer);
    assert step * p == range;
    assert range == x * (10.0 * nanometer);
    StepBelow(step, p, x, 10.0 * nanometer);
  }

  lemma FloorBelow(x: real)
    requires x > 0.0
    ensures 0 <= x.Floor && x < (x.Floor as real) + 1.0
  {
  }

  lemma StepBelow(step: real, p: real, x: real, unit: real)
    requires p > 0.0 && unit > 0.0 && x < p && step * p == x * unit
    ensures step < unit
  {
    assert x * unit < p * unit;
  }

  /** The first grid point is the lower end, the last is the upper end, and
      every point lies between them. */
  lemma GridInsideRange(lo: real, hi: real, nanometer: real, i: int)
    requires hi - lo > 0.0 && nanometer > 0.0
    requires 0 <= i < GridPoints(hi - lo, nanometer)
    ensures GridWavelength(lo, GridStep(hi - lo, nanometer), 0) == lo
    ensures GridWavelength(lo, GridStep(hi - lo, nanometer), GridPoints(hi - lo, nanometer) - 1) == hi
    ensures lo <= GridWavelength(lo, GridStep(hi - lo, nanometer), i) <= hi
  {
    GridMeaning(hi - lo, nanometer);
    var step := GridStep(hi - lo, nanometer);
    var last := (GridPoints(hi - lo, nanometer) - 1) as real;
    ScaledBelow(i as real, last, step);
  }

  lemma ScaledBelow(a: real, b: real, step: real)
    requires 0.0 <= a <= b && step > 0.0
    ensures 0.0 <= a * step <= b * step
  {
  }

  /** Bias times entry at every grid point. */
  function GridSpectrum(first: real, step: real, points: nat, s: Sampler, bias: WlenFunction): (r: seq<real>)
    ensures |r| == points
  {
    seq(points, i requires 0 <= i < points =>
      Value(bias, GridWavelength(first, step, i)) * Entry(s, GridWavelength(first, step, i)))
  }

  /** The grid loop: one entry per point, filled in order. */
  method SampleGrid(first: real, step: real, points: nat, s: Sampler, bias: WlenFunction)
    returns (spectrum: seq<real>)
    ensures spectrum == GridSpectrum(first, step, points, s, bias)
  {
    var a := new real[points];
    for i := 0 to points
      invariant forall k :: 0 <= k < i ==>
        a[k] == Value(bias, GridWavelength(first, step, k)) * Entry(s, GridWavelength(first, step, k))
    {
      var wavelength := first + (i as real) * step;
      a[i] := Value(bias, wavelength) * Entry(s, wavelength);
    }
    spectrum := a[..];
    forall k | 0 <= k < points
      ensures spectrum[k] == GridSpectrum(first, step, points, s, bias)[k]
    {
    }
  }

  // ---------------------------------------------------------------------
  // Tabulated binning

  function TableWavelengths(t: Table): (r: seq<real>)
    ensures |r| == |t.entries|
  {
    seq(|t.entries|, i requires 0 <= i < |t.entries| => t.entries[i].wavelength)
  }

  /** A tabulated spectrum weighted by the bias at each table wavelength. */
  function BiasedTable(t: Table, bias: WlenFunction): (r: seq<real>)
    ensures |r| == |t.entries|
  {
    seq(|t.entries|, i requires 0 <= i < |t.entries| =>
      Value(bias, t.entries[i].wavelength) * t.entries[i].value)
  }

  /** A tabulated bias weighting the Cherenkov yield at each table
      wavelength. */
  function BiasTimesYield(t: Table, s: Sampler): (r: seq<real>)
    ensures |r| == |t.entries|
  {
    seq(|t.entries|, i requires 0 <= i < |t.entries| =>
      t.entries[i].value * Entry(s, t.entries[i].wavelength))
  }

  /** The generator over a table's own binning. */
  function TableGenerator(t: Table, spectrum: seq<real>): Generator {
    if t.equalSpacing then EquallySpaced(t.firstWavelength, t.stepping, spectrum)
    else Tabulated(TableWavelengths(t), spectrum)
  }

  /** The table loop of makeWavelengthGenerator. */
  method SampleBiasedTable(t: Table, bias: WlenFunction) returns (wavelengths: seq<real>, spectrum: seq<real>)
    ensures wavelengths == TableWavelengths(t) && spectrum == BiasedTable(t, bias)
  {
    var n := |t.entries|;
    var s := new real[n];
    var w := new real[n];
    for i := 0 to n
      invariant forall k :: 0 <= k < i ==>
        w[k] == t.entries[k].wavelength && s[k] == Value(bias, t.entries[k].wavelength) * t.entries[k].value
    {
      var wavelength := t.entries[i].wavelength;
      s[i] := Value(bias, wavelength) * t.entries[i].value;
      w[i] := wavelength;
    }
    wavelengths, spectrum := w[..], s[..];
    forall k | 0 <= k < n
      ensures wavelengths[k] == TableWavelengths(t)[k] && spectrum[k] == BiasedTable(t, bias)[k]
    {
    }
  }

  /** The table loop of makeCherenkovWavelengthGenerator. */
  method SampleBiasTable(t: Table, s: Sampler) returns (wavelengths: seq<real>, spectrum: seq<real>)
    ensures wavelengths == TableWavelengths(t) && spectrum == BiasTimesYield(t, s)
  {
    var n := |t.entries|;
    var a := new real[n];
    var w := new real[n];
    for i := 0 to n
      invariant forall k :: 0 <= k < i ==>
        w[k] == t.entries[k].wavelength && a[k] == t.entries[k].value * Entry(s, t.entries[k].wavelength)
    {
      var wavelength := t.entries[i].wavelength;
      a[i] := t.entries[i].value * Entry(s, wavelength);
      w[i] := wavelength;
    }
    wavelengths, spectrum := w[..], a[..];
    forall k | 0 <= k < n
      ensures wavelengths[k] == TableWavelengths(t)[k] && spectrum[k] == BiasTimesYield(t, s)[k]
    {
    }
  }

  // ---------------------------------------------------------------------
  // makeWavelengthGenerator

  /** The bias must be defined over the whole of [lo, hi]. */
  predicate BiasCovers(bias: WlenFunction, lo: real, hi: real) {
    bias.minWlen <= lo && hi <= bias.maxWlen
  }

  /** The generator for a biased spectrum: a delta peak is returned as a
      constant; otherwise the clipped range must be non-empty and inside the
      bias's, and the spectrum is sampled on its table or on the grid. */
  function WavelengthGenerator(spectrum: WlenFunction, bias: WlenFunction, m: MediumProperties,
                               nanometer: real): Result<Generator, Fatal>
    requires nanometer > 0.0
  {
    if spectrum.kind.DeltaPeak? then Success(ConstantWavelength(spectrum.kind.peak))
    else
      var (lo, hi) := ClipRange(spectrum, m);
      if hi - lo <= 0.0 then Failure(RangeNotPositive)
      else if !BiasCovers(bias, lo, hi) then Failure(BiasRangeTooNarrow)
      else if spectrum.kind.FromTable? then
        Success(TableGenerator(spectrum.kind.table, BiasedTable(spectrum.kind.table, bias)))
      else
        var points := GridPoints(hi - lo, nanometer);
        var step := GridStep(hi - lo, nanometer);
        Success(EquallySpaced(lo, step, GridSpectrum(lo, step, points, Spectrum(spectrum), bias)))
  }

  method MakeWavelengthGenerator(spectrum: WlenFunction, bias: WlenFunction, m: MediumProperties,
                                 nanometer: real) returns (r: Result<Generator, Fatal>)
    requires nanometer > 0.0
    ensures r == WavelengthGenerator(spectrum, bias, m, nanometer)
  {
    if spectrum.kind.DeltaPeak? {
      return Success(ConstantWavelength(spectrum.kind.peak));
    }
    var lo, hi := spectrum.minWlen, spectrum.maxWlen;
    if !spectrum.kind.FromTable? {
      if m.minWlen > lo { lo := m.minWlen; }
      if m.maxWlen < hi { hi := m.maxWlen; }
    }
    var range := hi - lo;
    if range <= 0.0 {
      return Failure(RangeNotPositive);
    }
    if bias.minWlen > lo || bias.maxWlen < hi {
      return Failure(BiasRangeTooNarrow);
    }
    if spectrum.kind.FromTable? {
      var t := spectrum.kind.table;
      var wavelengths, values := SampleBiasedTable(t, bias);
      if t.equalSpacing {
        r := Success(EquallySpaced(t.firstWavelength, t.stepping, values));
      } else {
        r := Success(Tabulated(wavelengths, values));
      }
    } else {
      var points := (range / (10.0 * nanometer)).Floor + 2;
      FloorBelow(range / (10.0 * nanometer));
      var step := range / ((points - 1) as real);
      var values := SampleGrid(lo, step, points, Spectrum(spectrum), bias);
      r := Success(EquallySpaced(lo, step, values));
    }
  }

  /** A delta-peak spectrum yields a constant generator at the peak, whatever
      the ranges. */
  lemma DeltaPeakIsConstant(spectrum: WlenFunction, bias: WlenFunction, m: MediumProperties, nanometer: real)
    requires nanometer > 0.0 && spectrum.kind.DeltaPeak?
    ensures WavelengthGenerator(spectrum, bias, m, nanometer) == Success(ConstantWavelength(spectrum.kind.peak))
  {
  }

  /** Any other spectrum fails exactly when its clipped range is empty or
      the bias does not cover it. */
  lemma WavelengthGeneratorFails(spectrum: WlenFunction, bias: WlenFunction, m: MediumProperties, nanometer: real)
    requires nanometer > 0.0 && !spectrum.kind.DeltaPeak?
    ensures WavelengthGenerator(spectrum, bias, m, nanometer).Failure? <==>
      (ClipRange(spectrum, m).1 - ClipRange(spectrum, m).0 <= 0.0
       || !BiasCovers(bias, ClipRange(spectrum, m).0, ClipRange(spectrum, m).1))
    ensures WavelengthGenerator(spectrum, bias, m, nanometer) == Failure(RangeNotPositive) <==>
      ClipRange(spectrum, m).1 - ClipRange(spectrum, m).0 <= 0.0
  {
  }

  /** A parametrised spectrum is sampled on a grid from the lower to the
      upper end of its clipped range, with steps below 10 nm, and each entry
      is the bias times the spectrum at a wavelength the bias covers. */
  lemma GridGeneratorSpansRange(spectrum: WlenFunction, bias: WlenFunction, m: MediumProperties,
                                nanometer: real, i: int)
    requires nanometer > 0.0
    requires !spectrum.kind.DeltaPeak? && !spectrum.kind.FromTable?
    requires WavelengthGenerator(spectrum, bias, m, nanometer).Success?
    ensures WavelengthGenerator(spectrum, bias, m, nanometer).value.EquallySpaced?
    ensures var g := WavelengthGenerator(spectrum, bias, m, nanometer).value;
      var (lo, hi) := ClipRange(spectrum, m);
      |g.spectrum| >= 2 && g.firstWlen == lo && 0.0 < g.step < 10.0 * nanometer
      && GridWavelength(g.firstWlen, g.step, |g.spectrum| - 1) == hi
      && (0 <= i < |g.spectrum| ==>
            var wl := GridWavelength(g.firstWlen, g.step, i);
            bias.minWlen <= wl <= bias.maxWlen
            && g.spectrum[i] == Value(bias, wl) * Value(spectrum, wl))
  {
    var (lo, hi) := ClipRange(spectrum, m);
    GridMeaning(hi - lo, nanometer);
    if 0 <= i < GridPoints(hi - lo, nanometer) {
      GridInsideRange(lo, hi, nanometer, i);
    } else {
      GridInsideRange(lo, hi, nanometer, 0);
    }
  }

  /** A tabulated spectrum keeps its own binning: one entry per table entry,
      each the bias at the entry's wavelength times the entry. */
  lemma TableGeneratorKeepsBinning(spectrum: WlenFunction, bias: WlenFunction, m: MediumProperties,
                                   nanometer: real, i: int)
    requires nanometer > 0.0 && spectrum.kind.FromTable?
    requires WavelengthGenerator(spectrum, bias, m, nanometer).Success?
    requires 0 <= i < |spectrum.kind.table.entries|
    ensures var g := WavelengthGenerator(spectrum, bias, m, nanometer).value;
      var e := spectrum.kind.table.entries[i];
      (g.EquallySpaced? <==> spectrum.kind.table.equalSpacing)
      && |g.spectrum| == |spectrum.kind.table.entries|
      && g.spectrum[i] == Value(bias, e.wavelength) * e.value
      && (g.Tabulated? ==> g.wavelengths[i] == e.wavelength)
  {
  }

  // ---------------------------------------------------------------------
  // makeCherenkovWavelengthGenerator

  /** The bias is a constant function within 1e-10 of one at mid-range. */
  predicate NoBias(bias: WlenFunction, lo: real, hi: real) {
    bias.kind.Constant? && -0.0000000001 < Value(bias, (lo + hi) / 2.0) - 1.0 < 0.0000000001
  }

  /** The generator for Cherenkov photons: over the medium's range, on the
      bias's table if it has one, as the closed-form no-dispersion
      generator when there is no bias and no dispersion is asked for, and
      on the grid otherwise; the dispersive yield needs a native phase
      refractive index as soon as it is evaluated. */
  function CherenkovGenerator(bias: WlenFunction, withoutDispersion: bool, m: MediumProperties,
                              nanometer: real): Result<Generator, Fatal>
    requires nanometer > 0.0
  {
    var lo := m.minWlen;
    var hi := m.maxWlen;
    if hi - lo <= 0.0 then Failure(RangeNotPositive)
    else if !BiasCovers(bias, lo, hi) then Failure(BiasRangeTooNarrow)
    else
      var s := Cherenkov(m, withoutDispersion);
      var dispersiveUnavailable := !withoutDispersion && !m.nativePhaseIndex;
      if bias.kind.FromTable? then
        var t := bias.kind.table;
        if dispersiveUnavailable && |t.entries| > 0 then Failure(NoNativePhaseIndex)
        else Success(TableGenerator(t, BiasTimesYield(t, s)))
      else if NoBias(bias, lo, hi) && withoutDispersion then
        Success(CherenkovNoDispersion(lo, hi))
      else if dispersiveUnavailable then Failure(NoNativePhaseIndex)
      else
        var points := GridPoints(hi - lo, nanometer);
        var step := GridStep(hi - lo, nanometer);
        Success(EquallySpaced(lo, step, GridSpectrum(lo, step, points, s, bias)))
  }

  method MakeCherenkovWavelengthGenerator(bias: WlenFunction, withoutDispersion: bool,
                                          m: MediumProperties, nanometer: real)
    returns (r: Result<Generator, Fatal>)
    requires nanometer > 0.0
    ensures r == CherenkovGenerator(bias, withoutDispersion, m, nanometer)
  {
    var lo, hi := m.minWlen, m.maxWlen;
    var range := hi - lo;
    if range <= 0.0 {
      return Failure(RangeNotPositive);
    }
    if bias.minWlen > lo || bias.maxWlen < hi {
      return Failure(BiasRangeTooNarrow);
    }
    var noBias := false;
    if bias.kind.Constant? {
      var d := Value(bias, (lo + hi) / 2.0) - 1.0;
      if -0.0000000001 < d < 0.0000000001 {
        noBias := true;
      }
    }
    var s := Cherenkov(m, withoutDispersion);
    if bias.kind.FromTable? {
      var t := bias.kind.table;
      if !withoutDispersion && !m.nativePhaseIndex && |t.entries| > 0 {
        return Failure(NoNativePhaseIndex);
      }
      var wavelengths, values := SampleBiasTable(t, s);
      if t.equalSpacing {
        r := Success(EquallySpaced(t.firstWavelength, t.stepping, values));
      } else {
        r := Success(Tabulated(wavelengths, values));
      }
    } else if noBias && withoutDispersion {
      r := Success(CherenkovNoDispersion(lo, hi));
    } else {
      if !withoutDispersion && !m.nativePhaseIndex {
        return Failure(NoNativePhaseIndex);
      }
      var points := (range / (10.0 * nanometer)).Floor + 2;
      FloorBelow(range / (10.0 * nanometer));
      var step := range / ((points - 1) as real);
      var values := SampleGrid(lo, step, points, s, bias);
      r := Success(EquallySpaced(lo, step, values));
    }
  }

  /** The closed-form no-dispersion generator is chosen exactly when the
      ranges are valid, the bias is not tabulated, there is no bias and no
      dispersion is asked for. */
  lemma NoDispersionGeneratorWhen(bias: WlenFunction, withoutDispersion: bool, m: MediumProperties,
                                  nanometer: real)
    requires nanometer > 0.0
    ensures (CherenkovGenerator(bias, withoutDispersion, m, nanometer).Success?
             && CherenkovGenerator(bias, withoutDispersion, m, nanometer).value.CherenkovNoDispersion?)
      <==>
      (m.maxWlen - m.minWlen > 0.0 && BiasCovers(bias, m.minWlen, m.maxWlen)
       && !bias.kind.FromTable? && NoBias(bias, m.minWlen, m.maxWlen) && withoutDispersion)
  {
  }

  /** Without a tabulated bias, the Cherenkov grid runs from the medium's
      lower to its upper wavelength, and each entry is the bias times the
      chosen yield. */
  lemma CherenkovGridSpansMedium(bias: WlenFunction, withoutDispersion: bool, m: MediumProperties,
                                 nanometer: real, i: int)
    requires nanometer > 0.0 && !bias.kind.FromTable?
    requires CherenkovGenerator(bias, withoutDispersion, m, nanometer).Success?
    requires !CherenkovGenerator(bias, withoutDispersion, m, nanometer).value.CherenkovNoDispersion?
    ensures var g := CherenkovGenerator(bias, withoutDispersion, m, nanometer).value;
      g.EquallySpaced? && |g.spectrum| >= 2 && g.firstWlen == m.minWlen
      && GridWavelength(g.firstWlen, g.step, |g.spectrum| - 1) == m.maxWlen
      && (withoutDispersion || m.nativePhaseIndex)
      && (0 <= i < |g.spectrum| ==>
            var wl := GridWavelength(g.firstWlen, g.step, i);
            m.minWlen <= wl <= m.maxWlen
            && g.spectrum[i] == Value(bias, wl)
               * (if withoutDispersion then NoDispersionYield(wl) else m.dispersiveYield(wl)))
  {
    var lo, hi := m.minWlen, m.maxWlen;
    GridMeaning(hi - lo, nanometer);
    if 0 <= i < GridPoints(hi - lo, nanometer) {
      GridInsideRange(lo, hi, nanometer, i);
    } else {
      GridInsideRange(lo, hi, nanometer, 0);
    }
  }

  // ---------------------------------------------------------------------
  // Work sizing in initializeOpenCL

  /** The workgroup size: the device maximum, lowered to the configured
      limit when one is set. */
  function WorkgroupSize(limit: nat, deviceMax: nat): (w: nat)
    ensures w <= deviceMax && (limit != 0 ==> w <= limit)
    ensures w == deviceMax || (limit != 0 && w == limit)
  {
    if limit != 0 then (if limit < deviceMax then limit else deviceMax) else deviceMax
  }

  /** The number of work items: the approximate number rounded down to a
      multiple of the workgroup size, or one workgroup if that is zero. */
  function WorkItems(approximate: nat, workgroupSize: nat): (n: nat)
    requires workgroupSize >= 1
    ensures n >= workgroupSize && n % workgroupSize == 0
    ensures approximate >= workgroupSize ==> n <= approximate < n + workgroupSize
    ensures approximate < workgroupSize ==> n == workgroupSize
  {
    var q := approximate / workgroupSize;
    RoundedDown(approximate, workgroupSize);
    if q * workgroupSize == 0 then workgroupSize else q * workgroupSize
  }

  lemma RoundedDown(a: nat, w: nat)
    requires w >= 1
    ensures (a / w) * w <= a < (a / w) * w + w
    ensures ((a / w) * w) % w == 0
    ensures (a / w) * w == 0 <==> a < w
  {
    var q := a / w;
    assert a == q * w + a % w;
    MultipleMod(q, w);
    if q >= 1 {
      assert q * w >= w by { MulAtLeastOne(q, w); }
    }
  }

  lemma MultipleMod(q: nat, w: nat)
    requires w >= 1
    ensures (q * w) % w == 0
  {
    var r := (q * w) % w;
    var d := (q * w) / w;
    assert q * w == d * w + r;
    assert (q - d) * w == r;
    if q - d >= 1 {
      MulAtLeastOne(q - d, w);
    } else if q - d <= -1 {
      MulAtLeastOne(d - q, w);
    }
  }

  lemma MulAtLeastOne(a: int, w: int)
    requires a >= 1 && w >= 1
    ensures a * w >= w
  {
  }

  /** With a positive device maximum and the approximate count both inputs
      of initializeOpenCL, the configured work items are a positive multiple
      of the workgroup size, which respects the device and the limit. */
  lemma WorkSizing(limit: nat, deviceMax: nat, approximate: nat)
    requires deviceMax >= 1
    ensures WorkgroupSize(limit, deviceMax) >= 1
    ensures WorkItems(approximate, WorkgroupSize(limit, deviceMax)) % WorkgroupSize(limit, deviceMax) == 0
    ensures WorkItems(approximate, WorkgroupSize(limit, deviceMax)) >= 1
  {
  }
}
