/** The ice model the kernels read: MEDIUM_LAYERS horizontal layers of
    MEDIUM_LAYER_THICKNESS, and per-layer scattering and absorption lengths
    at the photon's wavelength.  The lookups are supplied by the host's
    generated kernel code; here they are function values of a `Medium`. */
module Media {

  datatype Medium = Medium(
    layers: int,                        // MEDIUM_LAYERS
    thickness: real,                    // MEDIUM_LAYER_THICKNESS
    layerAt: real -> int,               // findLayerForGivenZPos
    boundary: int -> real,              // mediumLayerBoundary
    scatteringLength: int -> real,      // getScatteringLength at the photon's wavelength
    absorptionLength: int -> real)      // getAbsorptionLength at the photon's wavelength

  /** What the kernels rely on: at least one layer, a positive thickness and
      positive lengths in every layer, since they divide by all three. */
  predicate Valid(m: Medium) {
    m.layers >= 1 && m.thickness > 0.0
    && (forall j :: 0 <= j < m.layers ==> m.scatteringLength(j) > 0.0)
    && (forall j :: 0 <= j < m.layers ==> m.absorptionLength(j) > 0.0)
  }

  /** `min(max(i, 0), MEDIUM_LAYERS - 1)`. */
  function ClampLayer(m: Medium, i: int): (j: int)
    requires m.layers >= 1
    ensures 0 <= j < m.layers
    ensures 0 <= i < m.layers ==> j == i
    ensures i < 0 ==> j == 0
    ensures i >= m.layers ==> j == m.layers - 1
  {
    if i < 0 then 0 else if i > m.layers - 1 then m.layers - 1 else i
  }

  /** photon_layer: the layer at height z, clamped into the table. */
  function PhotonLayer(m: Medium, z: real): (j: int)
    requires m.layers >= 1
    ensures 0 <= j < m.layers
    ensures 0 <= m.layerAt(z) < m.layers ==> j == m.layerAt(z)
  {
    ClampLayer(m, m.layerAt(z))
  }

  /** One entry of the medium-change arrays: where the medium changes along
      the trajectory and the lengths from there on.  The kernels keep the
      three parts in parallel arrays indexed alike. */
  datatype MediumChange = MediumChange(distance: real, scatteringLength: real, absorptionLength: real)

  /** Every entry of `changes` has positive lengths. */
  predicate PositiveLengths(changes: seq<MediumChange>) {
    forall k :: 0 <= k < |changes| ==>
      changes[k].scatteringLength > 0.0 && changes[k].absorptionLength > 0.0
  }

  /** Absolute value, my_fabs. */
  function Abs(x: real): (a: real)
    ensures a >= 0.0 && (a == x || a == -x)
  {
    if x < 0.0 then -x else x
  }
}
