/** add_ice_layers_on_photon_path_to_medium_changes: appends the boundaries
    of the ice layers the photon crosses within its range to the medium-change
    arrays.  The nearest boundary depends on the photon's position; after it
    the boundaries follow at one layer thickness each. */
module IceLayers {
  import opened Media
  import opened RealArith

  /** The scattering length the kernel stores for every layer change; the
      lookup of the layer's own scattering length is switched off. */
  const LayerScatteringLength: real := 10000.0

  /** The height of the nearest boundary in the direction of travel: the
      current layer's boundary, one thickness higher when moving up. */
  function ClosestBoundary(m: Medium, z: real, dz: real): (b: real)
    requires m.layers >= 1
    ensures dz > 0.0 ==> b == m.boundary(PhotonLayer(m, z)) + m.thickness
    ensures dz <= 0.0 ==> b == m.boundary(PhotonLayer(m, z))
  {
    var b := m.boundary(PhotonLayer(m, z));
    if dz > 0.0 then b + m.thickness else b
  }

  /** The distance along the trajectory to the nearest boundary. */
  function FirstDistance(m: Medium, z: real, dz: real): real
    requires m.layers >= 1 && dz != 0.0
  {
    (ClosestBoundary(m, z, dz) - z) / dz
  }

  /** The trajectory length between two layer boundaries. */
  function LayerStep(m: Medium, dz: real): (step: real)
    requires Valid(m) && dz != 0.0
    ensures step > 0.0
  {
    m.thickness / Abs(dz)
  }

  /** One layer step along the trajectory climbs exactly one layer. */
  lemma LayerStepClimbsOneLayer(m: Medium, dz: real)
    requires Valid(m) && dz != 0.0
    ensures LayerStep(m, dz) * Abs(dz) == m.thickness
  {
    assert LayerStep(m, dz) == m.thickness / Abs(dz);
  }

  /** How many steps of `step` remain below `range` after `d`, rounded
      down: the measure the loop's condition decreases. */
  function StepsLeft(d: real, step: real, range: real): int
    requires step > 0.0
  {
    ((range - d) / step).Floor
  }

  /** One step further leaves one step less. */
  lemma StepsLeftDecreases(d: real, step: real, range: real)
    requires step > 0.0 && d + step < range
    ensures 0 <= StepsLeft(d + step, step, range) < StepsLeft(d, step, range)
  {
    var q := (range - d) / step;
    assert (q - 1.0) * step == range - (d + step);
    DivisionOf(range - (d + step), step, q - 1.0);
    DivisionOf(range - (d + step), step, (range - (d + step)) / step);
    assert (range - (d + step)) / step > 0.0;
  }

  /** The change at a loop distance: the layer a little (0.01) beyond it. */
  function LoopChange(m: Medium, z: real, dz: real, d: real): MediumChange
    requires m.layers >= 1
  {
    MediumChange(d, LayerScatteringLength, m.absorptionLength(PhotonLayer(m, z + (d + 0.01) * dz)))
  }

  /** The first change: the nearest boundary, with the layer just beyond it. */
  function FirstChange(m: Medium, z: real, dz: real): (c: MediumChange)
    requires m.layers >= 1 && dz != 0.0
    ensures c.distance == FirstDistance(m, z, dz)
  {
    MediumChange(FirstDistance(m, z, dz), LayerScatteringLength,
      m.absorptionLength(PhotonLayer(m, ClosestBoundary(m, z, dz) + dz)))
  }

  /** The changes the loop appends after distance `d`: each one a step
      further, as long as that stays below the photon's range. */
  function LoopChanges(m: Medium, z: real, dz: real, d: real, step: real, range: real): seq<MediumChange>
    requires m.layers >= 1 && step > 0.0
    decreases StepsLeft(d, step, range)
  {
    if d + step < range then
      StepsLeftDecreases(d, step, range);
      [LoopChange(m, z, dz, d + step)] + LoopChanges(m, z, dz, d + step, step, range)
    else []
  }

  /** The loop's changes start one step after `d`, follow each other at one
      step, stay below the range, the next one would not, and each carries
      the layer just beyond its distance. */
  lemma {:induction false} LoopChangesShape(m: Medium, z: real, dz: real, d: real, step: real, range: real)
    requires m.layers >= 1 && step > 0.0
    ensures var cs := LoopChanges(m, z, dz, d, step, range);
      (|cs| == 0 <==> d + step >= range)
      && (|cs| > 0 ==> cs[0].distance == d + step && cs[|cs| - 1].distance + step >= range)
      && (forall k :: 0 <= k < |cs| ==> cs[k].distance < range)
      && (forall k :: 0 < k < |cs| ==> cs[k].distance == cs[k - 1].distance + step)
      && (forall k :: 0 <= k < |cs| ==> cs[k] == LoopChange(m, z, dz, cs[k].distance))
    decreases StepsLeft(d, step, range)
  {
    if d + step < range {
      StepsLeftDecreases(d, step, range);
      LoopChangesShape(m, z, dz, d + step, step, range);
    }
  }

  /** The loop's changes lie ever further along the trajectory. */
  lemma LoopChangesIncrease(m: Medium, z: real, dz: real, d: real, step: real, range: real)
    requires m.layers >= 1 && step > 0.0
    ensures var cs := LoopChanges(m, z, dz, d, step, range);
      forall k, l :: 0 <= k < l < |cs| ==> d < cs[k].distance < cs[l].distance
  {
    var cs := LoopChanges(m, z, dz, d, step, range);
    LoopChangesShape(m, z, dz, d, step, range);
    forall k, l | 0 <= k < l < |cs| ensures d < cs[k].distance < cs[l].distance {
      IncreasingFrom(cs, d, step, k, l);
    }
  }

  lemma {:induction false} IncreasingFrom(cs: seq<MediumChange>, d: real, step: real, k: int, l: int)
    requires step > 0.0 && 0 <= k < l < |cs|
    requires cs[0].distance == d + step
    requires forall i :: 0 < i < |cs| ==> cs[i].distance == cs[i - 1].distance + step
    ensures d < cs[k].distance < cs[l].distance
    decreases l
  {
    if k + 1 < l {
      IncreasingFrom(cs, d, step, k, l - 1);
    } else if k > 0 {
      IncreasingFrom(cs, d, step, k - 1, k);
    }
  }

  /** The first change followed by the loop's changes after it. */
  function ChangesFrom(m: Medium, z: real, dz: real, first: MediumChange, step: real, range: real): (cs: seq<MediumChange>)
    requires m.layers >= 1 && step > 0.0
    ensures |cs| >= 1 && cs[0] == first
  {
    [first] + LoopChanges(m, z, dz, first.distance, step, range)
  }

  /** Everything the function appends. */
  function IceLayerChanges(m: Medium, z: real, dz: real, range: real): (cs: seq<MediumChange>)
    requires Valid(m) && dz != 0.0
    ensures |cs| >= 1
  {
    ChangesFrom(m, z, dz, FirstChange(m, z, dz), LayerStep(m, dz), range)
  }

  /** After the first change, each one lies a step further and below the
      range, and the next one would not. */
  lemma ChangesFromDistances(m: Medium, z: real, dz: real, first: MediumChange, step: real, range: real)
    requires m.layers >= 1 && step > 0.0
    ensures var cs := ChangesFrom(m, z, dz, first, step, range);
      (forall k :: 0 < k < |cs| ==> cs[k].distance == cs[k - 1].distance + step && cs[k].distance < range)
      && cs[|cs| - 1].distance + step >= range
  {
    var cs := ChangesFrom(m, z, dz, first, step, range);
    var loop := LoopChanges(m, z, dz, first.distance, step, range);
    LoopChangesShape(m, z, dz, first.distance, step, range);
    assert cs == [first] + loop;
    forall k | 0 < k < |cs|
      ensures cs[k].distance == cs[k - 1].distance + step && cs[k].distance < range
    {
      assert cs[k] == loop[k - 1];
      if k == 1 {
        assert cs[0] == first;
      } else {
        assert cs[k - 1] == loop[k - 2];
      }
    }
    if |loop| == 0 {
      assert cs[|cs| - 1] == first;
    } else {
      assert cs[|cs| - 1] == loop[|loop| - 1];
    }
  }

  /** The appended changes: the first at the nearest boundary, each later
      one a layer step further and below the range, and the next one would
      be beyond it. */
  lemma IceLayerDistances(m: Medium, z: real, dz: real, range: real)
    requires Valid(m) && dz != 0.0
    ensures var cs := IceLayerChanges(m, z, dz, range);
      cs[0].distance == (ClosestBoundary(m, z, dz) - z) / dz
      && (forall k :: 0 < k < |cs| ==>
            cs[k].distance == cs[k - 1].distance + LayerStep(m, dz) && cs[k].distance < range)
      && cs[|cs| - 1].distance + LayerStep(m, dz) >= range
  {
    ChangesFromDistances(m, z, dz, FirstChange(m, z, dz), LayerStep(m, dz), range);
  }

  /** Every appended change has the fixed scattering length and a positive
      absorption length from the table. */
  lemma IceLayerLengths(m: Medium, z: real, dz: real, range: real)
    requires Valid(m) && dz != 0.0
    ensures var cs := IceLayerChanges(m, z, dz, range);
      (forall k :: 0 <= k < |cs| ==> cs[k].scatteringLength == LayerScatteringLength)
      && PositiveLengths(cs)
  {
    var cs := IceLayerChanges(m, z, dz, range);
    var first := FirstChange(m, z, dz);
    assert first.absorptionLength > 0.0 by {
      var layer := PhotonLayer(m, ClosestBoundary(m, z, dz) + dz);
      assert first.absorptionLength == m.absorptionLength(layer);
    }
    var loop := LoopChanges(m, z, dz, first.distance, LayerStep(m, dz), range);
    LoopChangesShape(m, z, dz, first.distance, LayerStep(m, dz), range);
    assert cs == [first] + loop;
    forall k | 0 < k < |cs|
      ensures cs[k].scatteringLength == LayerScatteringLength && cs[k].absorptionLength > 0.0
    {
      assert cs[k] == loop[k - 1] == LoopChange(m, z, dz, loop[k - 1].distance);
      LoopChangeLengths(m, z, dz, loop[k - 1].distance);
    }
  }

  /** A loop change has the fixed scattering length and the positive
      absorption length of its layer. */
  lemma LoopChangeLengths(m: Medium, z: real, dz: real, d: real)
    requires Valid(m)
    ensures LoopChange(m, z, dz, d).scatteringLength == LayerScatteringLength
    ensures LoopChange(m, z, dz, d).absorptionLength > 0.0
  {
    var layer := PhotonLayer(m, z + (d + 0.01) * dz);
    assert LoopChange(m, z, dz, d).absorptionLength == m.absorptionLength(layer);
  }

  /** The kernel's loop: `count` is the index of the last change so far; the
      new changes go to the slots after it, and the new count is returned. */
  method AddIceLayers(m: Medium, z: real, dz: real, range: real,
                      changes: array<MediumChange>, count: int) returns (newCount: int)
    requires Valid(m) && dz != 0.0
    requires 0 <= count && count + |IceLayerChanges(m, z, dz, range)| < changes.Length
    modifies changes
    ensures newCount == count + |IceLayerChanges(m, z, dz, range)|
    ensures changes[count + 1..newCount + 1] == IceLayerChanges(m, z, dz, range)
    ensures forall k :: 0 <= k < changes.Length && !(count < k <= newCount) ==> changes[k] == old(changes[k])
  {
    newCount := count + 1;
    changes[newCount] := FirstChange(m, z, dz);
    var step := LayerStep(m, dz);
    ghost var first := changes[newCount];
    ghost var loop := LoopChanges(m, z, dz, first.distance, step, range);
    assert IceLayerChanges(m, z, dz, range) == [first] + loop;
    newCount := AppendLayerChanges(m, z, dz, step, range, changes, newCount);
    assert changes[count + 1..newCount + 1] == [first] + loop;
  }

  /** The loop itself: from the distance of the change at `last`, one layer
      step at a time while below the range. */
  method AppendLayerChanges(m: Medium, z: real, dz: real, step: real, range: real,
                            changes: array<MediumChange>, last: int) returns (newLast: int)
    requires m.layers >= 1 && step > 0.0 && 0 <= last < changes.Length
    requires last + |LoopChanges(m, z, dz, changes[last].distance, step, range)| < changes.Length
    modifies changes
    ensures newLast == last + |LoopChanges(m, z, dz, old(changes[last].distance), step, range)|
    ensures changes[last + 1..newLast + 1] == LoopChanges(m, z, dz, old(changes[last].distance), step, range)
    ensures forall k :: 0 <= k < changes.Length && !(last < k <= newLast) ==> changes[k] == old(changes[k])
  {
    ghost var all := LoopChanges(m, z, dz, changes[last].distance, step, range);
    newLast := last;
    while changes[newLast].distance + step < range
      invariant last <= newLast < changes.Length
      invariant changes[last + 1..newLast + 1] + LoopChanges(m, z, dz, changes[newLast].distance, step, range) == all
      invariant forall k :: 0 <= k < changes.Length && !(last < k <= newLast) ==> changes[k] == old(changes[k])
      decreases StepsLeft(changes[newLast].distance, step, range)
    {
      ghost var done := changes[last + 1..newLast + 1];
      var d := changes[newLast].distance + step;
      LoopChangesUnfold(m, z, dz, d - step, step, range, done, all);
      newLast := newLast + 1;
      changes[newLast] := LoopChange(m, z, dz, d);
      assert changes[last + 1..newLast + 1] == done + [LoopChange(m, z, dz, d)];
    }
    assert LoopChanges(m, z, dz, changes[newLast].distance, step, range) == [];
    assert changes[last + 1..newLast + 1] == all;
  }

  /** One loop iteration moves the next change from the remainder to the
      part done, leaves room for it, and leaves fewer steps. */
  lemma LoopChangesUnfold(m: Medium, z: real, dz: real, d: real, step: real, range: real,
                          done: seq<MediumChange>, all: seq<MediumChange>)
    requires m.layers >= 1 && step > 0.0 && d + step < range
    requires done + LoopChanges(m, z, dz, d, step, range) == all
    ensures (done + [LoopChange(m, z, dz, d + step)]) + LoopChanges(m, z, dz, d + step, step, range) == all
    ensures |done| < |all|
    ensures 0 <= StepsLeft(d + step, step, range) < StepsLeft(d, step, range)
  {
    StepsLeftDecreases(d, step, range);
    var rest := LoopChanges(m, z, dz, d + step, step, range);
    assert LoopChanges(m, z, dz, d, step, range) == [LoopChange(m, z, dz, d + step)] + rest;
    assert done + ([LoopChange(m, z, dz, d + step)] + rest) == (done + [LoopChange(m, z, dz, d + step)]) + rest;
  }
}
