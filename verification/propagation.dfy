/** apply_propagation_through_different_media: converts the photon's
    remaining scattering and absorption budgets (in units of the local
    interaction lengths) into geometric distances when the trajectory runs
    through hole-ice cylinders.  Four stages: the cylinders in range are
    listed; their entry and exit points become medium changes; the changes
    are sorted by distance; the budgets are spent segment by segment. */
module Propagation {
  import opened Media
  import opened ExchangeSorting
  import opened RealArith
  import Intersection

  /** A hole-ice cylinder: its axis position, its z centre (0 for a cylinder
      without z range), its radius and its interaction lengths. */
  datatype Cylinder = Cylinder(x: real, y: real, z: real, radius: real,
                               scatteringLength: real, absorptionLength: real)

  /** The photon's position and the z component of its direction. */
  datatype Photon = Photon(x: real, y: real, z: real, dirZ: real)

  /** What calculate_intersections yields for one cylinder: the discriminant
      and the two crossing distances along the trajectory. */
  datatype CylinderCrossing = CylinderCrossing(discriminant: real, s1: real, s2: real)

  /** The interaction lengths every cylinder must have. */
  predicate CylinderLengthsPositive(cyls: seq<Cylinder>) {
    forall i :: 0 <= i < |cyls| ==> cyls[i].scatteringLength > 0.0 && cyls[i].absorptionLength > 0.0
  }

  // ---------------------------------------------------------------------
  // Stage 1: the cylinders in range

  /** The horizontal test: the cylinder's circle lies within the photon's
      reach, `reach` being the scattering budget times the local scattering
      length. */
  predicate HorizontallyInRange(ph: Photon, reach: real, c: Cylinder) {
    Intersection.Sqr(ph.x - c.x) + Intersection.Sqr(ph.y - c.y) <= Intersection.Sqr(reach + c.radius)
  }

  /** Start and projected end both lie beyond the same side of the
      cylinder's z window [z - 0.5, z + 0.5]. */
  predicate BeyondZWindow(ph: Photon, reach: real, c: Cylinder) {
    (ph.z < c.z - 0.5 && ph.z + reach * ph.dirZ < c.z - 0.5)
    || (ph.z > c.z + 0.5 && ph.z + reach * ph.dirZ > c.z + 0.5)
  }

  /** A cylinder without z range (z == 0) needs only the horizontal test. */
  predicate InRange(ph: Photon, reach: real, c: Cylinder) {
    HorizontallyInRange(ph, reach, c) && (c.z == 0.0 || !BeyondZWindow(ph, reach, c))
  }

  /** The indices below `i` of the cylinders in range, in ascending order. */
  function InRangeBelow(ph: Photon, reach: real, cyls: seq<Cylinder>, i: int): (r: seq<int>)
    requires 0 <= i <= |cyls|
    ensures |r| <= i
    ensures forall k :: 0 <= k < |r| ==> 0 <= r[k] < i
  {
    if i == 0 then []
    else InRangeBelow(ph, reach, cyls, i - 1) + (if InRange(ph, reach, cyls[i - 1]) then [i - 1] else [])
  }

  /** The list holds exactly the cylinders in range, each once, ascending. */
  lemma {:induction false} InRangeBelowMeaning(ph: Photon, reach: real, cyls: seq<Cylinder>, i: int)
    requires 0 <= i <= |cyls|
    ensures var r := InRangeBelow(ph, reach, cyls, i);
      (forall k, l :: 0 <= k < l < |r| ==> r[k] < r[l])
      && (forall x :: x in r <==> 0 <= x < i && InRange(ph, reach, cyls[x]))
  {
    if i > 0 {
      InRangeBelowMeaning(ph, reach, cyls, i - 1);
    }
  }

  /** `n` unused slots, marked -1. */
  function Padding(n: nat): (r: seq<int>)
    ensures |r| == n && forall k :: 0 <= k < n ==> r[k] == -1
  {
    seq(n, _ => -1)
  }

  /** Lines 46-67: every slot is first set to -1, then the indices of the
      cylinders in range are written to the front. */
  method FindCylindersInRange(ph: Photon, reach: real, cyls: seq<Cylinder>) returns (indices: array<int>)
    ensures fresh(indices)
    ensures var r := InRangeBelow(ph, reach, cyls, |cyls|);
      indices[..] == r + Padding(|cyls| - |r|)
  {
    indices := new int[|cyls|];
    for i := 0 to |cyls|
      invariant forall k :: 0 <= k < i ==> indices[k] == -1
    {
      indices[i] := -1;
    }
    var j := 0;
    for i := 0 to |cyls|
      invariant j == |InRangeBelow(ph, reach, cyls, i)| <= i
      invariant indices[..j] == InRangeBelow(ph, reach, cyls, i)
      invariant forall k :: j <= k < |cyls| ==> indices[k] == -1
    {
      if InRange(ph, reach, cyls[i]) {
        indices[j] := i;
        j := j + 1;
      }
      assert InRangeBelow(ph, reach, cyls, i + 1) == indices[..j];
    }
    assert indices[..] == indices[..j] + indices[j..];
  }

  /** The index list up to its first -1: the cylinders the correction loop
      visits before it breaks. */
  function UpToSentinel(s: seq<int>): (r: seq<int>)
    ensures |r| <= |s| && r == s[..|r|]
    ensures forall k :: 0 <= k < |r| ==> r[k] != -1
  {
    if s == [] || s[0] == -1 then [] else [s[0]] + UpToSentinel(s[1..])
  }

  /** The correction loop breaks exactly at the padding. */
  lemma {:induction false} SentinelEndsList(r: seq<int>, n: nat)
    requires forall k :: 0 <= k < |r| ==> r[k] >= 0
    ensures UpToSentinel(r + Padding(n)) == r
  {
    if r == [] {
      if n > 0 { assert (r + Padding(n))[0] == -1; }
    } else {
      assert (r + Padding(n))[1..] == r[1..] + Padding(n);
      SentinelEndsList(r[1..], n);
    }
  }

  /** A prefix free of -1 that ends at -1 or at the end is the whole list. */
  lemma {:induction false} SentinelAt(s: seq<int>, j: int)
    requires 0 <= j <= |s|
    requires forall k :: 0 <= k < j ==> s[k] != -1
    requires j == |s| || s[j] == -1
    ensures UpToSentinel(s) == s[..j]
  {
    if j > 0 {
      SentinelAt(s[1..], j - 1);
      assert s[..j] == [s[0]] + s[1..][..j - 1];
    }
  }

  // ---------------------------------------------------------------------
  // Stage 2: the medium changes of the cylinders

  /** The changes of one cylinder with a positive discriminant, lines
      103-122: starting inside (s1 <= 0 <= s2) gives the current last change
      the cylinder's lengths; an entry ahead (s1 > 0) appends one with the
      cylinder's lengths; an exit ahead (s2 > 0) appends one with the
      lengths of the layer at the exit point. */
  function ApplyCylinder(m: Medium, ph: Photon, changes: seq<MediumChange>, c: Cylinder, x: CylinderCrossing): (r: seq<MediumChange>)
    requires m.layers >= 1 && |changes| >= 1
    ensures |changes| <= |r| <= |changes| + 2
  {
    if x.discriminant > 0.0 then Exit(m, ph, Entry(changes, c, x), x) else changes
  }

  /** Lines 104-114: starting inside, or an entry ahead. */
  function Entry(changes: seq<MediumChange>, c: Cylinder, x: CylinderCrossing): (r: seq<MediumChange>)
    requires |changes| >= 1
    ensures |changes| <= |r| <= |changes| + 1
  {
    var last := |changes| - 1;
    if x.s1 <= 0.0 && x.s2 >= 0.0 then
      changes[last := MediumChange(changes[last].distance, c.scatteringLength, c.absorptionLength)]
    else if x.s1 > 0.0 then changes + [MediumChange(x.s1, c.scatteringLength, c.absorptionLength)]
    else changes
  }

  /** Lines 115-122: an exit ahead, into the layer at the exit point. */
  function Exit(m: Medium, ph: Photon, changes: seq<MediumChange>, x: CylinderCrossing): (r: seq<MediumChange>)
    requires m.layers >= 1
    ensures |changes| <= |r| <= |changes| + 1
  {
    if x.s2 > 0.0 then changes + [ExitChange(m, ph, x.s2)] else changes
  }

  /** The change at an exit `s2` along the trajectory: the lengths of the
      layer at the exit point. */
  function ExitChange(m: Medium, ph: Photon, s2: real): MediumChange
    requires m.layers >= 1
  {
    var layer := PhotonLayer(m, ph.z + ph.dirZ * s2);
    MediumChange(s2, m.scatteringLength(layer), m.absorptionLength(layer))
  }

  /** A cylinder adds one change per crossing ahead of the photon and
      touches no earlier change; only starting inside alters the current
      last one, and then only its lengths. */
  lemma ApplyCylinderEffect(m: Medium, ph: Photon, changes: seq<MediumChange>, c: Cylinder, x: CylinderCrossing)
    requires m.layers >= 1 && |changes| >= 1
    ensures var r := ApplyCylinder(m, ph, changes, c, x);
      var last := |changes| - 1;
      var entry := x.discriminant > 0.0 && x.s1 > 0.0;
      var exit := x.discriminant > 0.0 && x.s2 > 0.0;
      var inside := x.discriminant > 0.0 && x.s1 <= 0.0 && x.s2 >= 0.0;
      |r| == |changes| + (if entry then 1 else 0) + (if exit then 1 else 0)
      && r[..last] == changes[..last]
      && (inside ==> r[last] == MediumChange(changes[last].distance, c.scatteringLength, c.absorptionLength))
      && (!inside ==> r[last] == changes[last])
      && (entry ==> r[last + 1] == MediumChange(x.s1, c.scatteringLength, c.absorptionLength))
      && (exit ==> var layer := PhotonLayer(m, ph.z + ph.dirZ * x.s2);
            r[|r| - 1] == MediumChange(x.s2, m.scatteringLength(layer), m.absorptionLength(layer)))
  {
    if x.discriminant > 0.0 {
      var entered := Entry(changes, c, x);
      assert entered[..|changes| - 1] == changes[..|changes| - 1];
      if x.s2 > 0.0 {
        var layer := PhotonLayer(m, ph.z + ph.dirZ * x.s2);
        assert ExitChange(m, ph, x.s2) == MediumChange(x.s2, m.scatteringLength(layer), m.absorptionLength(layer));
      }
    }
  }

  /** A cylinder the discriminant rules out changes nothing. */
  lemma MissedCylinderChangesNothing(m: Medium, ph: Photon, changes: seq<MediumChange>, c: Cylinder, x: CylinderCrossing)
    requires m.layers >= 1 && |changes| >= 1 && x.discriminant <= 0.0
    ensures ApplyCylinder(m, ph, changes, c, x) == changes
  {
  }

  /** The changes after visiting the cylinders `idxs` in order. */
  function Collect(m: Medium, ph: Photon, init: seq<MediumChange>, cyls: seq<Cylinder>,
                   crossings: seq<CylinderCrossing>, idxs: seq<int>): (r: seq<MediumChange>)
    requires m.layers >= 1 && |init| >= 1 && |crossings| == |cyls|
    requires forall k :: 0 <= k < |idxs| ==> 0 <= idxs[k] < |cyls|
    ensures |init| <= |r| <= |init| + 2 * |idxs|
    decreases |idxs|
  {
    if idxs == [] then init
    else
      var i := idxs[|idxs| - 1];
      ApplyCylinder(m, ph, Collect(m, ph, init, cyls, crossings, idxs[..|idxs| - 1]), cyls[i], crossings[i])
  }

  /** Every change keeps positive lengths and a non-negative distance. */
  predicate WellFormed(changes: seq<MediumChange>) {
    PositiveLengths(changes) && forall k :: 0 <= k < |changes| ==> changes[k].distance >= 0.0
  }

  lemma ApplyCylinderWellFormed(m: Medium, ph: Photon, changes: seq<MediumChange>, c: Cylinder, x: CylinderCrossing)
    requires Valid(m) && |changes| >= 1 && WellFormed(changes)
    requires c.scatteringLength > 0.0 && c.absorptionLength > 0.0
    ensures WellFormed(ApplyCylinder(m, ph, changes, c, x))
  {
    var r := ApplyCylinder(m, ph, changes, c, x);
    ApplyCylinderEffect(m, ph, changes, c, x);
    if x.discriminant > 0.0 && x.s2 > 0.0 {
      var layer := PhotonLayer(m, ph.z + ph.dirZ * x.s2);
      assert m.absorptionLength(layer) > 0.0 && m.scatteringLength(layer) > 0.0;
    }
  }

  /** With a valid medium and cylinders, all the collected changes have
      positive lengths and lie ahead of the photon. */
  lemma {:induction false} CollectWellFormed(m: Medium, ph: Photon, init: seq<MediumChange>, cyls: seq<Cylinder>,
                                             crossings: seq<CylinderCrossing>, idxs: seq<int>)
    requires Valid(m) && |init| >= 1 && |crossings| == |cyls| && CylinderLengthsPositive(cyls)
    requires forall k :: 0 <= k < |idxs| ==> 0 <= idxs[k] < |cyls|
    requires WellFormed(init)
    ensures WellFormed(Collect(m, ph, init, cyls, crossings, idxs))
    decreases |idxs|
  {
    if idxs != [] {
      var i := idxs[|idxs| - 1];
      CollectWellFormed(m, ph, init, cyls, crossings, idxs[..|idxs| - 1]);
      ApplyCylinderWellFormed(m, ph, Collect(m, ph, init, cyls, crossings, idxs[..|idxs| - 1]), cyls[i], crossings[i]);
    }
  }

  /** Lines 72-126: for each listed cylinder, up to the first -1, apply its
      crossings to the changes in slots 0..count; returns the final count. */
  method CollectChanges(m: Medium, ph: Photon, cyls: seq<Cylinder>, crossings: seq<CylinderCrossing>,
                        indices: array<int>, changes: array<MediumChange>) returns (count: int)
    requires m.layers >= 1 && |crossings| == |cyls| == indices.Length && changes.Length >= 1
    requires forall k :: 0 <= k < indices.Length ==> indices[k] == -1 || 0 <= indices[k] < |cyls|
    requires |Collect(m, ph, changes[..1], cyls, crossings, UpToSentinel(indices[..]))| <= changes.Length
    modifies changes
    ensures 0 <= count < changes.Length
    ensures changes[..count + 1] == Collect(m, ph, old(changes[..1]), cyls, crossings, UpToSentinel(indices[..]))
    ensures changes[count + 1..] == old(changes[count + 1..])
  {
    ghost var init := changes[..1];
    count := 0;
    var j := 0;
    while j < indices.Length
      invariant 0 <= j <= indices.Length
      invariant forall k :: 0 <= k < j ==> indices[k] != -1
      invariant j <= |UpToSentinel(indices[..])|
      invariant 0 <= count < changes.Length
      invariant changes[..count + 1] == Collect(m, ph, init, cyls, crossings, indices[..j])
      invariant forall k :: count < k < changes.Length ==> changes[k] == old(changes[k])
    {
      if indices[j] == -1 {
        break;
      }
      count := CollectOne(m, ph, cyls, crossings, indices, changes, init, j, count);
      j := j + 1;
    }
    SentinelAt(indices[..], j);
    assert indices[..j] == UpToSentinel(indices[..]);
  }

  /** One iteration of the loop over the listed cylinders: the changes for
      the first `j` of them become those for the first `j + 1`. */
  method CollectOne(m: Medium, ph: Photon, cyls: seq<Cylinder>, crossings: seq<CylinderCrossing>,
                    indices: array<int>, changes: array<MediumChange>, ghost init: seq<MediumChange>,
                    j: int, count: int) returns (newCount: int)
    requires m.layers >= 1 && |crossings| == |cyls| == indices.Length && |init| >= 1
    requires forall k :: 0 <= k < indices.Length ==> indices[k] == -1 || 0 <= indices[k] < |cyls|
    requires 0 <= j < indices.Length && forall k :: 0 <= k <= j ==> indices[k] != -1
    requires |Collect(m, ph, init, cyls, crossings, UpToSentinel(indices[..]))| <= changes.Length
    requires 0 <= count < changes.Length
    requires changes[..count + 1] == Collect(m, ph, init, cyls, crossings, indices[..j])
    modifies changes
    ensures count <= newCount < changes.Length && j + 1 <= |UpToSentinel(indices[..])|
    ensures changes[..newCount + 1] == Collect(m, ph, init, cyls, crossings, indices[..j + 1])
    ensures forall k :: newCount < k < changes.Length ==> changes[k] == old(changes[k])
  {
    var i := indices[j];
    CollectStepFits(m, ph, init, cyls, crossings, indices[..], j);
    ghost var visited := indices[..j + 1];
    assert visited[..j] == indices[..j] && visited[j] == i;
    assert Collect(m, ph, init, cyls, crossings, visited)
      == ApplyCylinder(m, ph, changes[..count + 1], cyls[i], crossings[i]);
    newCount := ApplyCylinderInPlace(m, ph, changes, count, cyls[i], crossings[i]);
    forall k | newCount < k < changes.Length
      ensures changes[k] == old(changes[k])
    {
      assert changes[k] == changes[newCount + 1..][k - newCount - 1];
    }
  }

  /** Lines 103-122 on the arrays: the changes occupy slots 0..count. */
  method ApplyCylinderInPlace(m: Medium, ph: Photon, changes: array<MediumChange>, count: int,
                              c: Cylinder, x: CylinderCrossing) returns (newCount: int)
    requires m.layers >= 1 && 0 <= count < changes.Length
    requires |ApplyCylinder(m, ph, changes[..count + 1], c, x)| <= changes.Length
    modifies changes
    ensures count <= newCount < changes.Length
    ensures changes[..newCount + 1] == ApplyCylinder(m, ph, old(changes[..count + 1]), c, x)
    ensures changes[newCount + 1..] == old(changes[newCount + 1..])
  {
    ghost var before := changes[..count + 1];
    newCount := count;
    if x.discriminant > 0.0 {
      if x.s1 <= 0.0 && x.s2 >= 0.0 {
        changes[newCount] := MediumChange(changes[newCount].distance, c.scatteringLength, c.absorptionLength);
        assert changes[..newCount + 1]
          == before[count := MediumChange(before[count].distance, c.scatteringLength, c.absorptionLength)];
      } else if x.s1 > 0.0 {
        newCount := newCount + 1;
        changes[newCount] := MediumChange(x.s1, c.scatteringLength, c.absorptionLength);
        assert changes[..newCount + 1] == before + [MediumChange(x.s1, c.scatteringLength, c.absorptionLength)];
      }
      ghost var entered := changes[..newCount + 1];
      assert entered == Entry(before, c, x);
      if x.s2 > 0.0 {
        newCount := newCount + 1;
        changes[newCount] := ExitChange(m, ph, x.s2);
        assert changes[..newCount + 1] == entered + [changes[newCount]];
      }
    }
  }

  /** The changes after the cylinder at `j` fit the array when the final
      ones do, since visiting a cylinder never removes a change. */
  lemma CollectStepFits(m: Medium, ph: Photon, init: seq<MediumChange>, cyls: seq<Cylinder>,
                        crossings: seq<CylinderCrossing>, s: seq<int>, j: int)
    requires m.layers >= 1 && |init| >= 1 && |crossings| == |cyls|
    requires 0 <= j < |s| && forall k :: 0 <= k <= j ==> s[k] != -1
    requires forall k :: 0 <= k < |s| ==> s[k] == -1 || 0 <= s[k] < |cyls|
    ensures j + 1 <= |UpToSentinel(s)|
    ensures |Collect(m, ph, init, cyls, crossings, s[..j + 1])|
      <= |Collect(m, ph, init, cyls, crossings, UpToSentinel(s))|
  {
    var r := UpToSentinel(s);
    SentinelPrefix(s, j);
    assert r[..j + 1] == s[..j + 1];
    assert forall k :: 0 <= k < |r| ==> r[k] == s[k];
    CollectPrefixGrows(m, ph, init, cyls, crossings, r, j + 1);
  }

  /** A list free of -1 up to `j` keeps `j + 1` entries up to its sentinel. */
  lemma {:induction false} SentinelPrefix(s: seq<int>, j: int)
    requires 0 <= j < |s| && forall k :: 0 <= k <= j ==> s[k] != -1
    ensures |UpToSentinel(s)| > j
  {
    if j > 0 {
      SentinelPrefix(s[1..], j - 1);
    }
  }

  /** Visiting more cylinders never shortens the changes. */
  lemma {:induction false} CollectPrefixGrows(m: Medium, ph: Photon, init: seq<MediumChange>, cyls: seq<Cylinder>,
                                              crossings: seq<CylinderCrossing>, idxs: seq<int>, n: int)
    requires m.layers >= 1 && |init| >= 1 && |crossings| == |cyls|
    requires forall k :: 0 <= k < |idxs| ==> 0 <= idxs[k] < |cyls|
    requires 0 <= n <= |idxs|
    ensures |Collect(m, ph, init, cyls, crossings, idxs[..n])| <= |Collect(m, ph, init, cyls, crossings, idxs)|
    decreases |idxs| - n
  {
    if n < |idxs| {
      var shorter := idxs[..n + 1];
      assert shorter[..|shorter| - 1] == idxs[..n];
      var i := shorter[|shorter| - 1];
      assert Collect(m, ph, init, cyls, crossings, shorter)
        == ApplyCylinder(m, ph, Collect(m, ph, init, cyls, crossings, idxs[..n]), cyls[i], crossings[i]);
      CollectPrefixGrows(m, ph, init, cyls, crossings, idxs, n + 1);
    } else {
      assert idxs[..n] == idxs;
    }
  }

  // ---------------------------------------------------------------------
  // Stage 4: spending the budgets

  /** The budgets and distances the kernel updates through its pointers:
      scattering and absorption budgets left, in interaction lengths, and
      the distance propagated and the distance to absorption. */
  datatype Budget = Budget(scaLeft: real, absLeft: real, propagated: real, toAbsorption: real)

  function Min(a: real, b: real): real { if a <= b then a else b }

  /** One budget on one segment: a budget reaching beyond the segment pays
      for it and stays positive; otherwise it is spent on the way. */
  function Consume(left: real, travelled: real, len: real, segment: real): (real, real)
    requires len > 0.0
  {
    if left * len > segment then (left - segment / len, travelled + segment)
    else (0.0, travelled + left * len)
  }

  /** The distance travelled grows by the segment or by the budget's reach,
      whichever is shorter; the reach left is the reach before less that
      growth, and it stays positive exactly when the budget outlasts the
      segment. */
  lemma ConsumeMeaning(left: real, travelled: real, len: real, segment: real)
    requires len > 0.0
    ensures var r := Consume(left, travelled, len, segment);
      r.1 == travelled + Min(segment, left * len)
      && r.0 * len == left * len - Min(segment, left * len)
      && (r.0 > 0.0 <==> left * len > segment)
  {
    if left * len > segment {
      assert (left - segment / len) * len == left * len - segment;
    }
  }

  /** One iteration of the walk, lines 159-173. */
  function Step(b: Budget, c: MediumChange, segment: real): Budget
    requires c.scatteringLength > 0.0 && c.absorptionLength > 0.0
  {
    var sca := Consume(b.scaLeft, b.propagated, c.scatteringLength, segment);
    var abs := Consume(b.absLeft, b.toAbsorption, c.absorptionLength, segment);
    Budget(sca.0, abs.0, sca.1, abs.1)
  }

  /** The walk from change `j` on, lines 158-182: it stops at the last change
      or when the scattering budget is spent. */
  function Walk(cs: seq<MediumChange>, j: int, b: Budget): Budget
    requires PositiveLengths(cs) && 0 <= j < |cs|
    decreases |cs| - j
  {
    if j < |cs| - 1 && b.scaLeft > 0.0 then
      Walk(cs, j + 1, Step(b, cs[j], cs[j + 1].distance - cs[j].distance))
    else b
  }

  predicate NonNegative(b: Budget) {
    b.scaLeft >= 0.0 && b.absLeft >= 0.0
  }

  /** Along sorted changes the budgets never grow and never go negative, and
      the distances never shrink. */
  lemma {:induction false} WalkMonotone(cs: seq<MediumChange>, j: int, b: Budget)
    requires PositiveLengths(cs) && Sorted(cs) && 0 <= j < |cs| && NonNegative(b)
    ensures var r := Walk(cs, j, b);
      NonNegative(r) && r.scaLeft <= b.scaLeft && r.absLeft <= b.absLeft
      && r.propagated >= b.propagated && r.toAbsorption >= b.toAbsorption
    decreases |cs| - j
  {
    if j < |cs| - 1 && b.scaLeft > 0.0 {
      var segment := cs[j + 1].distance - cs[j].distance;
      var next := Step(b, cs[j], segment);
      StepMonotone(b, cs[j], segment);
      WalkMonotone(cs, j + 1, next);
    }
  }

  lemma StepMonotone(b: Budget, c: MediumChange, segment: real)
    requires c.scatteringLength > 0.0 && c.absorptionLength > 0.0
    requires NonNegative(b) && segment >= 0.0
    ensures var r := Step(b, c, segment);
      NonNegative(r) && r.scaLeft <= b.scaLeft && r.absLeft <= b.absLeft
      && r.propagated >= b.propagated && r.toAbsorption >= b.toAbsorption
  {
    var r := Step(b, c, segment);
    assert b.scaLeft * c.scatteringLength >= 0.0;
    assert b.absLeft * c.absorptionLength >= 0.0;
    assert r.scaLeft * c.scatteringLength <= b.scaLeft * c.scatteringLength;
    assert r.absLeft * c.absorptionLength <= b.absLeft * c.absorptionLength;
  }

  /** A scattering budget left over at the end of the walk paid for every
      segment: the photon propagated from change `j` to the last change. */
  lemma {:induction false} WalkReachesLast(cs: seq<MediumChange>, j: int, b: Budget)
    requires PositiveLengths(cs) && 0 <= j < |cs|
    ensures Walk(cs, j, b).scaLeft > 0.0 ==>
      Walk(cs, j, b).propagated == b.propagated + cs[|cs| - 1].distance - cs[j].distance
    decreases |cs| - j
  {
    if j < |cs| - 1 && b.scaLeft > 0.0 {
      var segment := cs[j + 1].distance - cs[j].distance;
      var next := Step(b, cs[j], segment);
      WalkReachesLast(cs, j + 1, next);
      if Walk(cs, j, b).scaLeft > 0.0 {
        WalkStopsSpent(cs, j + 1, next);
      }
    }
  }

  /** A spent scattering budget stays spent. */
  lemma {:induction false} WalkStopsSpent(cs: seq<MediumChange>, j: int, b: Budget)
    requires PositiveLengths(cs) && 0 <= j < |cs|
    ensures b.scaLeft <= 0.0 ==> Walk(cs, j, b) == b
    ensures Walk(cs, j, b).scaLeft > 0.0 ==> b.scaLeft > 0.0
    decreases |cs| - j
  {
    if j < |cs| - 1 && b.scaLeft > 0.0 {
      WalkStopsSpent(cs, j + 1, Step(b, cs[j], cs[j + 1].distance - cs[j].distance));
    }
  }

  /** Lines 160-166, and alike 167-173: one budget on one segment. */
  method Spend(left: real, travelled: real, len: real, segment: real) returns (newLeft: real, newTravelled: real)
    requires len > 0.0
    ensures (newLeft, newTravelled) == Consume(left, travelled, len, segment)
  {
    newLeft, newTravelled := left, travelled;
    if newLeft * len > segment {
      newLeft := newLeft - segment / len;
      newTravelled := newTravelled + segment;
    } else {
      newTravelled := newTravelled + newLeft * len;
      newLeft := 0.0;
    }
  }

  /** The walk over slots 0..count of the arrays. */
  method WalkChanges(changes: array<MediumChange>, count: int, b: Budget) returns (r: Budget)
    requires 0 <= count < changes.Length && PositiveLengths(changes[..count + 1])
    ensures r == Walk(changes[..count + 1], 0, b)
  {
    ghost var cs := changes[..count + 1];
    r := b;
    var j := 0;
    while j < count && r.scaLeft > 0.0
      invariant 0 <= j <= count
      invariant Walk(cs, j, r) == Walk(cs, 0, b)
      decreases count - j
    {
      var segment := changes[j + 1].distance - changes[j].distance;
      var c := changes[j];
      assert c == cs[j];
      var sca, propagated := Spend(r.scaLeft, r.propagated, c.scatteringLength, segment);
      var abs, toAbsorption := Spend(r.absLeft, r.toAbsorption, c.absorptionLength, segment);
      assert segment == cs[j + 1].distance - cs[j].distance;
      r := Budget(sca, abs, propagated, toAbsorption);
      j := j + 1;
    }
  }

  /** Lines 185-194 as written: the leftover budgets are spent with the
      last change's lengths, the propagated distance is cut back to the
      distance to absorption, and otherwise the absorption budget is charged
      for the whole propagated distance, including the part the walk has
      charged already. */
  function Finish(b: Budget, last: MediumChange): (r: Budget)
    requires last.absorptionLength > 0.0
    ensures var p := b.propagated + b.scaLeft * last.scatteringLength;
      var t := b.toAbsorption + b.absLeft * last.absorptionLength;
      r.propagated == Min(p, t) && r.scaLeft == b.scaLeft
      && (t < p ==> r.toAbsorption == 0.0 && r.absLeft == 0.0)
      && (t >= p ==> r.toAbsorption == t && r.absLeft == b.absLeft - p / last.absorptionLength)
  {
    var p := b.propagated + b.scaLeft * last.scatteringLength;
    var t := b.toAbsorption + b.absLeft * last.absorptionLength;
    if t < p then Budget(b.scaLeft, 0.0, t, 0.0)
    else Budget(b.scaLeft, b.absLeft - p / last.absorptionLength, p, t)
  }

  /** The final step with the absorption budget left as the distance still
      to go before absorption, in the last change's absorption lengths, as
      the standard kernel computes it. */
  function FinishIntended(b: Budget, last: MediumChange): Budget
    requires last.absorptionLength > 0.0
  {
    var p := b.propagated + b.scaLeft * last.scatteringLength;
    var t := b.toAbsorption + b.absLeft * last.absorptionLength;
    if t < p then Budget(b.scaLeft, 0.0, t, 0.0)
    else Budget(b.scaLeft, (t - p) / last.absorptionLength, p, t)
  }

  /** Unless absorbed on the way, the photon keeps as absorption budget
      exactly the distance between where it stops and where it would be
      absorbed; either way no budget becomes negative. */
  lemma FinishIntendedKeepsBudget(b: Budget, last: MediumChange)
    requires last.scatteringLength > 0.0 && last.absorptionLength > 0.0
    requires NonNegative(b) && b.propagated >= 0.0 && b.toAbsorption >= 0.0
    ensures var r := FinishIntended(b, last);
      NonNegative(r) && r.propagated >= 0.0
      && (r.toAbsorption == 0.0 || r.absLeft * last.absorptionLength == r.toAbsorption - r.propagated)
  {
    var p := b.propagated + b.scaLeft * last.scatteringLength;
    var t := b.toAbsorption + b.absLeft * last.absorptionLength;
    assert b.scaLeft * last.scatteringLength >= 0.0;
    assert b.absLeft * last.absorptionLength >= 0.0;
    if t >= p {
      DivisionOf(t - p, last.absorptionLength, (t - p) / last.absorptionLength);
    }
  }

  /** The as-written final step charges the walked distance twice: one
      segment of length 1 through lengths of 1, with budgets 3 and 10, ends
      3 from the start and 10 from absorption, so 7 absorption lengths
      remain; the kernel as written leaves 6. */
  lemma FinishChargesWalkTwice(cs: seq<MediumChange>, b: Budget)
    requires cs == [MediumChange(0.0, 1.0, 1.0), MediumChange(1.0, 1.0, 1.0)]
    requires b == Budget(3.0, 10.0, 0.0, 0.0)
    ensures Walk(cs, 0, b) == Budget(2.0, 9.0, 1.0, 1.0)
    ensures Finish(Walk(cs, 0, b), cs[1]) == Budget(2.0, 6.0, 3.0, 10.0)
    ensures FinishIntended(Walk(cs, 0, b), cs[1]) == Budget(2.0, 7.0, 3.0, 10.0)
  {
    var next := Step(b, cs[0], 1.0);
    assert next == Budget(2.0, 9.0, 1.0, 1.0);
    assert Walk(cs, 1, next) == next;
  }

  // ---------------------------------------------------------------------
  // The whole kernel

  /** Slot 0: the photon's own layer, at distance zero. */
  function Start(m: Medium, ph: Photon): MediumChange
    requires m.layers >= 1
  {
    var layer := PhotonLayer(m, ph.z);
    MediumChange(0.0, m.scatteringLength(layer), m.absorptionLength(layer))
  }

  /** The changes before sorting, for the cylinders within `reach`. */
  function Changes(m: Medium, ph: Photon, cyls: seq<Cylinder>, crossings: seq<CylinderCrossing>, reach: real): (r: seq<MediumChange>)
    requires m.layers >= 1 && |crossings| == |cyls|
    ensures |r| >= 1
  {
    Collect(m, ph, [Start(m, ph)], cyls, crossings, InRangeBelow(ph, reach, cyls, |cyls|))
  }

  /** The photon's reach: its scattering budget in its own layer's
      scattering lengths. */
  function Reach(m: Medium, ph: Photon, b: Budget): real
    requires m.layers >= 1
  {
    b.scaLeft * Start(m, ph).scatteringLength
  }

  /** The corrected kernel's effect on the budgets: the changes sorted in
      full and the intended final step. */
  function Propagate(m: Medium, ph: Photon, cyls: seq<Cylinder>, crossings: seq<CylinderCrossing>, b: Budget): Budget
    requires Valid(m) && |crossings| == |cyls| && CylinderLengthsPositive(cyls)
  {
    var sorted := ExchangeSort(Changes(m, ph, cyls, crossings, Reach(m, ph, b)));
    PropagationWellFormed(m, ph, cyls, crossings, Reach(m, ph, b));
    FinishIntended(Walk(sorted, 0, b), sorted[|sorted| - 1])
  }

  /** The sorted changes have positive lengths and are in order. */
  lemma PropagationWellFormed(m: Medium, ph: Photon, cyls: seq<Cylinder>, crossings: seq<CylinderCrossing>, reach: real)
    requires Valid(m) && |crossings| == |cyls| && CylinderLengthsPositive(cyls)
    ensures var sorted := ExchangeSort(Changes(m, ph, cyls, crossings, reach));
      WellFormed(sorted) && Sorted(sorted)
  {
    var changes := Changes(m, ph, cyls, crossings, reach);
    var layer := PhotonLayer(m, ph.z);
    assert m.scatteringLength(layer) > 0.0 && m.absorptionLength(layer) > 0.0;
    assert WellFormed([Start(m, ph)]);
    CollectWellFormed(m, ph, [Start(m, ph)], cyls, crossings, InRangeBelow(ph, reach, cyls, |cyls|));
    ExchangeSortSorts(changes);
    PermutationWellFormed(changes, ExchangeSort(changes));
  }

  lemma PermutationWellFormed(s: seq<MediumChange>, t: seq<MediumChange>)
    requires WellFormed(s) && multiset(s) == multiset(t)
    ensures WellFormed(t)
  {
    forall k | 0 <= k < |t|
      ensures t[k].scatteringLength > 0.0 && t[k].absorptionLength > 0.0 && t[k].distance >= 0.0
    {
      assert t[k] in multiset(s);
    }
  }

  /** Lines 24-126: the changes in slots 0..count of fresh arrays, before
      sorting; the medium-change arrays hold MEDIUM_LAYERS slots, which the
      changes must fit. */
  method CollectedChanges(m: Medium, ph: Photon, cyls: seq<Cylinder>, crossings: seq<CylinderCrossing>, reach: real)
    returns (changes: array<MediumChange>, count: int)
    requires m.layers >= 1 && |crossings| == |cyls|
    requires |Changes(m, ph, cyls, crossings, reach)| <= m.layers
    ensures fresh(changes)
    ensures 0 <= count < changes.Length
    ensures changes[..count + 1] == Changes(m, ph, cyls, crossings, reach)
  {
    changes := new MediumChange[m.layers](_ => MediumChange(0.0, 0.0, 0.0));
    changes[0] := Start(m, ph);
    var indices := FindCylindersInRange(ph, reach, cyls);
    ghost var listed := InRangeBelow(ph, reach, cyls, |cyls|);
    SentinelEndsList(listed, |cyls| - |listed|);
    assert changes[..1] == [Start(m, ph)];
    count := CollectChanges(m, ph, cyls, crossings, indices, changes);
  }

  /** Lines 24-148 with the sort over all the changes, slot `count`
      included: the corrected kernel. */
  method SortedChanges(m: Medium, ph: Photon, cyls: seq<Cylinder>, crossings: seq<CylinderCrossing>, reach: real)
    returns (changes: array<MediumChange>, count: int)
    requires m.layers >= 1 && |crossings| == |cyls|
    requires |Changes(m, ph, cyls, crossings, reach)| <= m.layers
    ensures 0 <= count < changes.Length
    ensures changes[..count + 1] == ExchangeSort(Changes(m, ph, cyls, crossings, reach))
  {
    changes, count := CollectedChanges(m, ph, cyls, crossings, reach);
    SortChanges(changes, count + 1);
  }

  /** Lines 24-148 as written: the sort at lines 134-135 runs over the
      slots below `count`, so the last change recorded stays last. */
  method SortedChangesAsWritten(m: Medium, ph: Photon, cyls: seq<Cylinder>, crossings: seq<CylinderCrossing>, reach: real)
    returns (changes: array<MediumChange>, count: int)
    requires m.layers >= 1 && |crossings| == |cyls|
    requires |Changes(m, ph, cyls, crossings, reach)| <= m.layers
    ensures 0 <= count < changes.Length
    ensures changes[..count + 1] == SortAsWritten(Changes(m, ph, cyls, crossings, reach))
  {
    changes, count := CollectedChanges(m, ph, cyls, crossings, reach);
    ghost var collected := changes[..count + 1];
    assert collected[..count] == changes[..count];
    SortChanges(changes, count);
    assert changes[count] == collected[count];
    assert changes[..count + 1] == changes[..count] + [changes[count]];
  }

  /** The whole kernel corrected: the sort over all the changes and the
      intended final step. */
  method ApplyPropagation(m: Medium, ph: Photon, cyls: seq<Cylinder>, crossings: seq<CylinderCrossing>, b: Budget)
    returns (r: Budget)
    requires Valid(m) && |crossings| == |cyls| && CylinderLengthsPositive(cyls)
    requires |Changes(m, ph, cyls, crossings, Reach(m, ph, b))| <= m.layers
    ensures r == Propagate(m, ph, cyls, crossings, b)
  {
    var reach := Reach(m, ph, b);
    var changes, count := SortedChanges(m, ph, cyls, crossings, reach);
    ghost var sorted := ExchangeSort(Changes(m, ph, cyls, crossings, reach));
    PropagationWellFormed(m, ph, cyls, crossings, reach);
    assert WellFormed(sorted);
    assert changes[..count + 1] == sorted;
    assert changes[count] == sorted[|sorted| - 1];
    r := WalkChanges(changes, count, b);
    assert r == Walk(sorted, 0, b);
    r := FinishIntended(r, changes[count]);
  }

  /** The kernel's effect on the budgets as written: the sort leaves the
      last change recorded in place and the final step of line 193 charges
      the walked distance again. */
  function PropagateAsWritten(m: Medium, ph: Photon, cyls: seq<Cylinder>, crossings: seq<CylinderCrossing>, b: Budget): Budget
    requires Valid(m) && |crossings| == |cyls| && CylinderLengthsPositive(cyls)
  {
    var sorted := SortAsWritten(Changes(m, ph, cyls, crossings, Reach(m, ph, b)));
    AsWrittenWellFormed(m, ph, cyls, crossings, Reach(m, ph, b));
    Finish(Walk(sorted, 0, b), sorted[|sorted| - 1])
  }

  /** The changes the kernel walks as written have positive lengths and
      non-negative distances, though not necessarily in order. */
  lemma AsWrittenWellFormed(m: Medium, ph: Photon, cyls: seq<Cylinder>, crossings: seq<CylinderCrossing>, reach: real)
    requires Valid(m) && |crossings| == |cyls| && CylinderLengthsPositive(cyls)
    ensures WellFormed(SortAsWritten(Changes(m, ph, cyls, crossings, reach)))
  {
    var changes := Changes(m, ph, cyls, crossings, reach);
    var layer := PhotonLayer(m, ph.z);
    assert m.scatteringLength(layer) > 0.0 && m.absorptionLength(layer) > 0.0;
    assert WellFormed([Start(m, ph)]);
    CollectWellFormed(m, ph, [Start(m, ph)], cyls, crossings, InRangeBelow(ph, reach, cyls, |cyls|));
    PermutationWellFormed(changes, SortAsWritten(changes));
  }

  /** Lines 21-194 as written. */
  method ApplyPropagationAsWritten(m: Medium, ph: Photon, cyls: seq<Cylinder>, crossings: seq<CylinderCrossing>, b: Budget)
    returns (r: Budget)
    requires Valid(m) && |crossings| == |cyls| && CylinderLengthsPositive(cyls)
    requires |Changes(m, ph, cyls, crossings, Reach(m, ph, b))| <= m.layers
    ensures r == PropagateAsWritten(m, ph, cyls, crossings, b)
  {
    var reach := Reach(m, ph, b);
    var changes, count := SortedChangesAsWritten(m, ph, cyls, crossings, reach);
    ghost var walked := SortAsWritten(Changes(m, ph, cyls, crossings, reach));
    AsWrittenWellFormed(m, ph, cyls, crossings, reach);
    assert WellFormed(walked);
    assert changes[..count + 1] == walked;
    assert changes[count] == walked[|walked| - 1];
    r := WalkChanges(changes, count, b);
    assert r == Walk(walked, 0, b);
    r := Finish(r, changes[count]);
  }

  /** The two final steps agree on everything but the absorption budget
      left, which the step as written lowers by the absorption lengths the
      walk has already charged. */
  lemma FinishOverchargesByWalk(b: Budget, last: MediumChange)
    requires last.absorptionLength > 0.0
    ensures var r := Finish(b, last);
      var i := FinishIntended(b, last);
      r.scaLeft == i.scaLeft && r.propagated == i.propagated && r.toAbsorption == i.toAbsorption
      && var p := b.propagated + b.scaLeft * last.scatteringLength;
      var t := b.toAbsorption + b.absLeft * last.absorptionLength;
      (t < p ==> r.absLeft == i.absLeft == 0.0)
      && (t >= p ==> i.absLeft - r.absLeft == b.toAbsorption / last.absorptionLength)
  {
    var a := last.absorptionLength;
    var p := b.propagated + b.scaLeft * last.scatteringLength;
    var t := b.toAbsorption + b.absLeft * a;
    if t >= p {
      var d := b.absLeft - p / a + b.toAbsorption / a;
      assert d * a == b.absLeft * a - (p / a) * a + (b.toAbsorption / a) * a;
      DivisionOf(t - p, a, d);
    }
  }

  /** Without cylinders and from a zero distance to absorption, the kernel
      as written and the corrected one agree: the faults need a cylinder or
      a walked distance to show. */
  lemma AsWrittenAgreesWithoutCylinders(m: Medium, ph: Photon, b: Budget)
    requires Valid(m) && b.toAbsorption == 0.0
    ensures PropagateAsWritten(m, ph, [], [], b) == Propagate(m, ph, [], [], b)
  {
    var start := Start(m, ph);
    assert ExchangeSort([start]) == [start];
    assert SortAsWritten([start]) == [start];
    FinishOverchargesByWalk(b, start);
  }

  /** Without cylinders in range the photon stays in its own layer: the
      budgets convert with the layer's lengths, and the shorter distance
      wins. */
  lemma NoCylinderKeepsLayer(m: Medium, ph: Photon, b: Budget)
    requires Valid(m)
    ensures var start := Start(m, ph);
      var p := b.propagated + b.scaLeft * start.scatteringLength;
      var t := b.toAbsorption + b.absLeft * start.absorptionLength;
      Propagate(m, ph, [], [], b).propagated == Min(p, t)
  {
    var start := Start(m, ph);
    assert ExchangeSort([start]) == [start];
  }

  /** From zero distances and non-negative budgets, the photon propagates a
      non-negative distance, never beyond absorption, and budgets stay
      non-negative. */
  lemma PropagateBounds(m: Medium, ph: Photon, cyls: seq<Cylinder>, crossings: seq<CylinderCrossing>, b: Budget)
    requires Valid(m) && |crossings| == |cyls| && CylinderLengthsPositive(cyls)
    requires NonNegative(b) && b.propagated == 0.0 && b.toAbsorption == 0.0
    ensures var r := Propagate(m, ph, cyls, crossings, b);
      NonNegative(r) && r.scaLeft <= b.scaLeft && r.propagated >= 0.0
      && (r.propagated <= r.toAbsorption || r.toAbsorption == 0.0)
  {
    var sorted := ExchangeSort(Changes(m, ph, cyls, crossings, Reach(m, ph, b)));
    PropagationWellFormed(m, ph, cyls, crossings, Reach(m, ph, b));
    WalkMonotone(sorted, 0, b);
    FinishIntendedKeepsBudget(Walk(sorted, 0, b), sorted[|sorted| - 1]);
  }
}
