/** The pure parts of the annotation document store (src/stores/annotations.ts):
    the placement-rule table, the metres-per-pixel scale, labels, colour
    cycling, id lookup, the antenna filters the deleting loops compute and the
    record-by-record import of a saved document. */
module AnnotationRules {
  import opened Types
  import Geometry

  /** The number of zone colours (`zoneColors` in src/utils/constants.ts). */
  const ZoneColorCount: int := 5

  /** Placement rules, all distances in metres. */
  datatype PlacementRules = PlacementRules(
    maxHorizontalDistance: real,
    maxVerticalDistance: real,
    maxHorizontalWallDistance: real,
    maxVerticalWallDistance: real,
    coverageRadius: real)

  /** `getAntennaPlacementRules`. Of its three branches the first and the
      fallback agree, so there are two rule sets: one for a high ceiling (at
      least 4 m) over low shelves (at most 2.1 m) and one for everything else.
      The coverage radius is half the larger spacing, enlarged by 15%. */
  function GetAntennaPlacementRules(ceilingHeight: real, shelfHeight: real): (r: PlacementRules)
    ensures ceilingHeight >= 4.0 && shelfHeight <= 2.1 ==>
              r == PlacementRules(12.0, 14.0, 6.0, 7.0, (14.0 / 2.0) * 1.15)
    ensures !(ceilingHeight >= 4.0 && shelfHeight <= 2.1) ==>
              r == PlacementRules(10.0, 12.0, 5.0, 6.0, (12.0 / 2.0) * 1.15)
    ensures r.coverageRadius == Geometry.Max(r.maxHorizontalDistance, r.maxVerticalDistance) / 2.0 * 1.15
    ensures r.maxHorizontalDistance > 0.0 && r.maxVerticalDistance > 0.0
    ensures r.maxHorizontalWallDistance > 0.0 && r.maxVerticalWallDistance > 0.0
  {
    if ceilingHeight <= 3.0 && shelfHeight <= 2.1 then
      var maxDistance := Geometry.Max(10.0, 12.0);
      PlacementRules(10.0, 12.0, 5.0, 6.0, (maxDistance / 2.0) * 1.15)
    else if ceilingHeight >= 4.0 && shelfHeight <= 2.1 then
      var maxDistance := Geometry.Max(12.0, 14.0);
      PlacementRules(12.0, 14.0, 6.0, 7.0, (maxDistance / 2.0) * 1.15)
    else
      var maxDistance := Geometry.Max(10.0, 12.0);
      PlacementRules(10.0, 12.0, 5.0, 6.0, (maxDistance / 2.0) * 1.15)
  }

  /** `pxDist` is the length `Math.hypot` gives for the drawn scale line: a
      non-negative number whose square is the squared pixel distance. */
  predicate ScaleLengthOk(scale: ScaleLine, pxDist: real)
  {
    scale.start.Some? && scale.end.Some? ==>
      pxDist >= 0.0 &&
      Geometry.Sq(pxDist) == Geometry.Dist2(scale.start.value.x, scale.start.value.y,
                                            scale.end.value.x, scale.end.value.y)
  }

  /** `metersPerPx`: defined exactly when both ends are drawn, a positive length
      in metres is entered and the ends are distinct points; it is then the
      positive factor turning the drawn length into that many metres. */
  function MetersPerPx(scale: ScaleLine, pxDist: real): (r: Option<real>)
    requires ScaleLengthOk(scale, pxDist)
    ensures r.Some? <==>
              scale.start.Some? && scale.end.Some? && scale.meters.Some? && scale.meters.value > 0.0 &&
              scale.start.value != scale.end.value
    ensures r.Some? ==> r.value > 0.0 && r.value * pxDist == scale.meters.value
  {
    if scale.start.Some? && scale.end.Some? && scale.meters.Some? && scale.meters.value > 0.0 then
      ZeroLengthIffSamePoint(scale.start.value, scale.end.value, pxDist);
      if pxDist == 0.0 then None
      else
        DivPositive(scale.meters.value, pxDist);
        Some(scale.meters.value / pxDist)
    else None
  }

  /** A hypot of zero means the two points coincide. */
  lemma ZeroLengthIffSamePoint(p: Point, q: Point, len: real)
    requires len >= 0.0 && Geometry.Sq(len) == Geometry.Dist2(p.x, p.y, q.x, q.y)
    ensures len == 0.0 <==> p == q
  {
    if p != q {
      Geometry.SumOfSquaresPositive(p.x - q.x, p.y - q.y);
      assert Geometry.Sq(len) > 0.0;
    } else if len != 0.0 {
      Geometry.SqPositive(len);
    }
  }

  lemma DivPositive(a: real, b: real)
    requires a > 0.0 && b > 0.0
    ensures a / b > 0.0
  {
    assert (a / b) * b == a;
    if a / b <= 0.0 {
      Geometry.MulNonNegative(-(a / b), b);
    }
  }

  function MaxInt(a: int, b: int): int
  {
    if a < b then b else a
  }

  predicate IsDigits(s: string)
  {
    forall i :: 0 <= i < |s| ==> '0' <= s[i] <= '9'
  }

  /** The number a string of decimal digits spells, most significant first. */
  function DigitsValue(s: string): nat
    requires IsDigits(s)
    decreases |s|
  {
    if |s| == 0 then 0
    else DigitsValue(s[..|s| - 1]) * 10 + (s[|s| - 1] as int - '0' as int)
  }

  /** The decimal digits of n, as JavaScript's template strings print it. */
  function NatToString(n: nat): (s: string)
    ensures |s| >= 1 && IsDigits(s)
    decreases n
  {
    if n < 10 then ["0123456789"[n]] else NatToString(n / 10) + ["0123456789"[n % 10]]
  }

  /** The digits NatToString prints spell n, with no leading zero. */
  lemma {:induction false} NatToStringSpells(n: nat)
    ensures DigitsValue(NatToString(n)) == n
    ensures |NatToString(n)| > 1 ==> NatToString(n)[0] != '0'
    decreases n
  {
    if n >= 10 {
      NatToStringSpells(n / 10);
      var prefix := NatToString(n / 10);
      var s := NatToString(n);
      assert s == prefix + ["0123456789"[n % 10]];
      assert s[..|s| - 1] == prefix;
      assert s[0] == prefix[0];
    }
  }

  /** The label a new zone gets when n zones exist already. */
  function ZoneLabel(n: nat): string
  {
    "Zone " + NatToString(n + 1)
  }

  /** The label a new antenna gets when n antennas exist already. */
  function AntennaLabel(n: nat): string
  {
    "A" + NatToString(n + 1)
  }

  lemma LabelExamples()
    ensures ZoneLabel(0) == "Zone 1" && ZoneLabel(11) == "Zone 12"
    ensures AntennaLabel(99) == "A100"
  {
    assert NatToString(12) == NatToString(1) + ['2'];
    assert NatToString(100) == NatToString(10) + ['0'];
    assert NatToString(10) == NatToString(1) + ['0'];
  }

  /** JavaScript's `a % m` on integers for m > 0 (truncated: the sign of a). */
  function JsIntRem(a: int, m: int): (r: int)
    requires m > 0
    ensures a >= 0 ==> 0 <= r < m
    ensures a < 0 ==> -m < r <= 0
    ensures (a - r) % m == 0
  {
    if a >= 0 then
      var q := a / m;
      assert a - a % m == m * q;
      MultipleRem(m, q);
      a % m
    else
      var q := (-a) / m;
      assert a + (-a) % m == -(m * q);
      Distribute(m, 0, q);
      MultipleRem(m, -q);
      -((-a) % m)
  }

  /** A multiple of m leaves no remainder. */
  lemma MultipleRem(m: int, k: int)
    requires m > 0
    ensures (m * k) % m == 0
  {
    var a := m * k;
    var q, r := a / m, a % m;
    assert a == m * q + r;
    Distribute(m, k, q);
    var d := k - q;
    assert m * d == r;
    if d > 0 {
      MulAtLeast(m, d);
    } else if d < 0 {
      MulAtLeast(m, -d);
    }
  }

  lemma MulAtLeast(m: int, d: int)
    requires m > 0 && d > 0
    ensures m * d >= m
    decreases d
  {
    if d > 1 {
      MulAtLeast(m, d - 1);
      assert m * d == m * (d - 1) + m;
    }
  }

  lemma Distribute(m: int, k: int, q: int)
    ensures m * k - m * q == m * (k - q)
  {
  }


  /** `changeZoneColor`'s new index: one step of size direction around the
      palette. */
  function ColorStep(colorIndex: int, direction: int): int
  {
    JsIntRem(colorIndex + direction + ZoneColorCount, ZoneColorCount)
  }

  /** A step of one in either direction keeps an index in the palette, and the
      two directions undo each other. */
  lemma ColorStepInPalette(colorIndex: int, direction: int)
    requires 0 <= colorIndex < ZoneColorCount
    requires direction == 1 || direction == -1
    ensures 0 <= ColorStep(colorIndex, direction) < ZoneColorCount
    ensures ColorStep(ColorStep(colorIndex, direction), -direction) == colorIndex
  {
  }

  /** Outside the palette the truncated remainder can go negative: an index of
      -7 stepped back gives -3. */
  lemma ColorStepNegativeExample()
    ensures ColorStep(-7, -1) == -3
  {
  }

  /** `findIndex` over the ids of a record array: the first position holding
      id, or -1 when there is none. */
  function IndexOf(ids: seq<int>, id: int): (k: int)
    ensures -1 <= k < |ids|
    ensures k == -1 <==> id !in ids
    ensures k >= 0 ==> ids[k] == id && forall j :: 0 <= j < k ==> ids[j] != id
    decreases |ids|
  {
    if |ids| == 0 then -1
    else if ids[0] == id then 0
    else
      var k := IndexOf(ids[1..], id);
      assert forall j :: 1 <= j < |ids| ==> ids[j] == ids[1..][j - 1];
      if k == -1 then -1 else k + 1
  }

  /** The ids of each kind of record, in order, for `findIndex` by id. Zones,
      antennas and measures are distinct datatypes with no common supertype, so
      each kind has its own projection. */
  function ZoneIds(zones: seq<Zone>): (ids: seq<int>)
    ensures |ids| == |zones| && forall i :: 0 <= i < |zones| ==> ids[i] == zones[i].id
  {
    seq(|zones|, i requires 0 <= i < |zones| => zones[i].id)
  }

  function AntennaIds(antennas: seq<Antenna>): (ids: seq<int>)
    ensures |ids| == |antennas| && forall i :: 0 <= i < |antennas| ==> ids[i] == antennas[i].id
  {
    seq(|antennas|, i requires 0 <= i < |antennas| => antennas[i].id)
  }

  function MeasureIds(measures: seq<Measure>): (ids: seq<int>)
    ensures |ids| == |measures| && forall i :: 0 <= i < |measures| ==> ids[i] == measures[i].id
  {
    seq(|measures|, i requires 0 <= i < |measures| => measures[i].id)
  }

  /** The antennas left after dropping those placed in zone zoneId, in their
      original order. */
  function WithoutZone(antennas: seq<Antenna>, zoneId: int): seq<Antenna>
    decreases |antennas|
  {
    if |antennas| == 0 then []
    else (if antennas[0].zoneId == Some(zoneId) then [] else [antennas[0]]) + WithoutZone(antennas[1..], zoneId)
  }

  /** The antennas left after dropping those whose id is in ids, in their
      original order. */
  function WithoutIds(antennas: seq<Antenna>, ids: set<int>): seq<Antenna>
    decreases |antennas|
  {
    if |antennas| == 0 then []
    else (if antennas[0].id in ids then [] else [antennas[0]]) + WithoutIds(antennas[1..], ids)
  }

  /** WithoutZone of a suffix, one antenna at a time from the left. */
  lemma WithoutZoneStep(antennas: seq<Antenna>, i: nat, zoneId: int)
    requires i < |antennas|
    ensures WithoutZone(antennas[i..], zoneId) ==
            (if antennas[i].zoneId == Some(zoneId) then [] else [antennas[i]]) + WithoutZone(antennas[i + 1..], zoneId)
  {
    assert antennas[i..][0] == antennas[i] && antennas[i..][1..] == antennas[i + 1..];
  }

  /** WithoutIds of a suffix, one antenna at a time from the left. */
  lemma WithoutIdsStep(antennas: seq<Antenna>, i: nat, ids: set<int>)
    requires i < |antennas|
    ensures WithoutIds(antennas[i..], ids) ==
            (if antennas[i].id in ids then [] else [antennas[i]]) + WithoutIds(antennas[i + 1..], ids)
  {
    assert antennas[i..][0] == antennas[i] && antennas[i..][1..] == antennas[i + 1..];
  }

  /** Splicing out the element after a prefix leaves prefix and rest. */
  lemma SpliceAt<T>(prefix: seq<T>, x: T, rest: seq<T>)
    ensures (prefix + [x] + rest)[|prefix|] == x
    ensures (prefix + [x] + rest)[..|prefix|] + (prefix + [x] + rest)[|prefix| + 1..] == prefix + rest
  {
    var s := prefix + [x] + rest;
    assert s[..|prefix|] == prefix;
    assert s[|prefix| + 1..] == rest;
  }

  /** One step of the reverse splice loop over a zone: with positions i and
      beyond already filtered, filtering position i too either splices it out
      or keeps it. */
  lemma RemoveZoneStep(original: seq<Antenna>, remaining: seq<Antenna>, i: nat, zoneId: int)
    requires i < |original|
    requires remaining == original[..i + 1] + WithoutZone(original[i + 1..], zoneId)
    ensures i < |remaining| && remaining[i] == original[i]
    ensures original[i].zoneId == Some(zoneId) ==>
              remaining[..i] + remaining[i + 1..] == original[..i] + WithoutZone(original[i..], zoneId)
    ensures original[i].zoneId != Some(zoneId) ==>
              remaining == original[..i] + WithoutZone(original[i..], zoneId)
  {
    WithoutZoneStep(original, i, zoneId);
    var rest := WithoutZone(original[i + 1..], zoneId);
    assert original[..i + 1] == original[..i] + [original[i]];
    assert remaining == original[..i] + [original[i]] + rest;
    SpliceAt(original[..i], original[i], rest);
    if original[i].zoneId == Some(zoneId) {
      assert WithoutZone(original[i..], zoneId) == rest;
    } else {
      assert WithoutZone(original[i..], zoneId) == [original[i]] + rest;
    }
  }

  /** The same step for the loop over the selected ids. */
  lemma RemoveIdsStep(original: seq<Antenna>, remaining: seq<Antenna>, i: nat, ids: set<int>)
    requires i < |original|
    requires remaining == original[..i + 1] + WithoutIds(original[i + 1..], ids)
    ensures i < |remaining| && remaining[i] == original[i]
    ensures original[i].id in ids ==>
              remaining[..i] + remaining[i + 1..] == original[..i] + WithoutIds(original[i..], ids)
    ensures original[i].id !in ids ==>
              remaining == original[..i] + WithoutIds(original[i..], ids)
  {
    WithoutIdsStep(original, i, ids);
    var rest := WithoutIds(original[i + 1..], ids);
    assert original[..i + 1] == original[..i] + [original[i]];
    assert remaining == original[..i] + [original[i]] + rest;
    SpliceAt(original[..i], original[i], rest);
    if original[i].id in ids {
      assert WithoutIds(original[i..], ids) == rest;
    } else {
      assert WithoutIds(original[i..], ids) == [original[i]] + rest;
    }
  }

  /** WithoutZone keeps exactly the antennas outside the zone. */
  lemma {:induction false} WithoutZoneKeeps(antennas: seq<Antenna>, zoneId: int)
    ensures forall a :: a in WithoutZone(antennas, zoneId) <==> a in antennas && a.zoneId != Some(zoneId)
    ensures |WithoutZone(antennas, zoneId)| <= |antennas|
    decreases |antennas|
  {
    if |antennas| > 0 {
      WithoutZoneKeeps(antennas[1..], zoneId);
      assert antennas == [antennas[0]] + antennas[1..];
    }
  }

  /** WithoutZone works piecewise, so antennas that stay keep their relative
      order: whatever came before another still does. */
  lemma {:induction false} WithoutZoneAppend(a: seq<Antenna>, b: seq<Antenna>, zoneId: int)
    ensures WithoutZone(a + b, zoneId) == WithoutZone(a, zoneId) + WithoutZone(b, zoneId)
    decreases |a|
  {
    if |a| == 0 {
      assert a + b == b;
    } else {
      WithoutZoneAppend(a[1..], b, zoneId);
      var head := if a[0].zoneId == Some(zoneId) then [] else [a[0]];
      assert (a + b)[0] == a[0] && (a + b)[1..] == a[1..] + b;
      assert WithoutZone(a + b, zoneId) == head + WithoutZone(a[1..] + b, zoneId);
      assert WithoutZone(a, zoneId) == head + WithoutZone(a[1..], zoneId);
    }
  }

  /** WithoutIds keeps exactly the antennas whose id is not in ids. */
  lemma {:induction false} WithoutIdsKeeps(antennas: seq<Antenna>, ids: set<int>)
    ensures forall a :: a in WithoutIds(antennas, ids) <==> a in antennas && a.id !in ids
    ensures |WithoutIds(antennas, ids)| <= |antennas|
    decreases |antennas|
  {
    if |antennas| > 0 {
      WithoutIdsKeeps(antennas[1..], ids);
      assert antennas == [antennas[0]] + antennas[1..];
    }
  }

  /** WithoutIds works piecewise, so antennas that stay keep their order. */
  lemma {:induction false} WithoutIdsAppend(a: seq<Antenna>, b: seq<Antenna>, ids: set<int>)
    ensures WithoutIds(a + b, ids) == WithoutIds(a, ids) + WithoutIds(b, ids)
    decreases |a|
  {
    if |a| == 0 {
      assert a + b == b;
    } else {
      WithoutIdsAppend(a[1..], b, ids);
      var head := if a[0].id in ids then [] else [a[0]];
      assert (a + b)[0] == a[0] && (a + b)[1..] == a[1..] + b;
      assert WithoutIds(a + b, ids) == head + WithoutIds(a[1..] + b, ids);
      assert WithoutIds(a, ids) == head + WithoutIds(a[1..], ids);
    }
  }

  /** Filtering out a zone whose antennas are all gone already changes nothing,
      so repeating the removal is harmless. */
  lemma {:induction false} WithoutZoneIdempotent(antennas: seq<Antenna>, zoneId: int)
    ensures WithoutZone(WithoutZone(antennas, zoneId), zoneId) == WithoutZone(antennas, zoneId)
    decreases |antennas|
  {
    if |antennas| > 0 {
      WithoutZoneIdempotent(antennas[1..], zoneId);
      var rest := WithoutZone(antennas[1..], zoneId);
      if antennas[0].zoneId != Some(zoneId) {
        assert WithoutZone(antennas, zoneId) == [antennas[0]] + rest;
        assert ([antennas[0]] + rest)[1..] == rest;
      } else {
        assert WithoutZone(antennas, zoneId) == [] + rest == rest;
      }
    }
  }

  // ---------------------------------------------------------------------
  // The placement grid of `populateAntennasInZone`, in pixels.

  /** `Math.round`: the nearest integer, halves rounded up. */
  function Round(v: real): (r: real)
    ensures r.Floor as real == r
    ensures v - 0.5 < r <= v + 0.5
  {
    (v + 0.5).Floor as real
  }

  /** The grid step across and down: 80% of the rule distances, in pixels. */
  function SpacingX(rules: PlacementRules, metersPerPx: real): (s: real)
    requires rules.maxHorizontalDistance > 0.0 && metersPerPx > 0.0
    ensures s > 0.0
  {
    DivPositive(rules.maxHorizontalDistance * 0.8, metersPerPx);
    (rules.maxHorizontalDistance * 0.8) / metersPerPx
  }

  function SpacingY(rules: PlacementRules, metersPerPx: real): (s: real)
    requires rules.maxVerticalDistance > 0.0 && metersPerPx > 0.0
    ensures s > 0.0
  {
    DivPositive(rules.maxVerticalDistance * 0.8, metersPerPx);
    (rules.maxVerticalDistance * 0.8) / metersPerPx
  }

  /** The smaller wall distance of the rules, in pixels. */
  function MinWallDistancePx(rules: PlacementRules, metersPerPx: real): (d: real)
    requires rules.maxHorizontalWallDistance > 0.0 && rules.maxVerticalWallDistance > 0.0 && metersPerPx > 0.0
    ensures d > 0.0
  {
    DivPositive(Geometry.Min(rules.maxHorizontalWallDistance, rules.maxVerticalWallDistance), metersPerPx);
    Geometry.Min(rules.maxHorizontalWallDistance, rules.maxVerticalWallDistance) / metersPerPx
  }

  /** The squared clearance from the walls the walk demands: half the smaller
      wall distance. */
  function WallClearance2(rules: PlacementRules, metersPerPx: real): (c: real)
    requires rules.maxHorizontalWallDistance > 0.0 && rules.maxVerticalWallDistance > 0.0 && metersPerPx > 0.0
    ensures c > 0.0
  {
    Geometry.SqPositive(MinWallDistancePx(rules, metersPerPx) * 0.5);
    Geometry.Sq(MinWallDistancePx(rules, metersPerPx) * 0.5)
  }

  /** The squared distance the walk keeps between antennas: 70% of the smaller
      grid step. */
  function AntennaClearance2(rules: PlacementRules, metersPerPx: real): (c: real)
    requires rules.maxHorizontalDistance > 0.0 && rules.maxVerticalDistance > 0.0 && metersPerPx > 0.0
    ensures c > 0.0
  {
    Geometry.SqPositive(Geometry.Min(SpacingX(rules, metersPerPx), SpacingY(rules, metersPerPx)) * 0.7);
    Geometry.Sq(Geometry.Min(SpacingX(rules, metersPerPx), SpacingY(rules, metersPerPx)) * 0.7)
  }

  /** The number of grid positions left on an axis from v (exclusive limit). */
  function StepsLeft(v: real, limit: real, step: real): (n: int)
    requires step > 0.0
    ensures n >= 0
    ensures v < limit ==> n >= 1
  {
    if v >= limit then 0
    else
      DivPositive(limit - v, step);
      ((limit - v) / step).Floor + 1
  }

  lemma DivMinusOne(a: real, s: real)
    requires s > 0.0
    ensures (a - s) / s == a / s - 1.0
  {
    var q, r := a / s, (a - s) / s;
    assert q * s == a && r * s == a - s;
    assert (r - (q - 1.0)) * s == 0.0;
    if r - (q - 1.0) > 0.0 {
      Geometry.MulPositive(r - (q - 1.0), s);
    } else if r - (q - 1.0) < 0.0 {
      Geometry.MulPositive(q - 1.0 - r, s);
    }
  }

  /** One step along the axis leaves one position fewer, so the grid walks end. */
  lemma StepsLeftDecrease(v: real, limit: real, step: real)
    requires step > 0.0 && v < limit
    ensures StepsLeft(v + step, limit, step) < StepsLeft(v, limit, step)
  {
    if v + step < limit {
      DivMinusOne(limit - v, step);
      assert limit - (v + step) == (limit - v) - step;
    }
  }

  /** The conditions `populateAntennasInZone` demands of an antenna a it adds
      after the antennas before: placed in the zone, on integer coordinates,
      inside the perimeter, at least half the wall distance (squared: minWall2)
      from it, and at least the antenna spacing (squared: minDist2) from every
      earlier antenna. */
  predicate Placed(a: Antenna, before: seq<Antenna>, zoneId: int, per: Perimeter, minWall2: real, minDist2: real)
  {
    a.zoneId == Some(zoneId) &&
    a.x.Floor as real == a.x && a.y.Floor as real == a.y &&
    Geometry.Inside(a.x, a.y, per) &&
    Geometry.DistanceToPerimeter(a.x, a.y, per) >= minWall2 &&
    forall b :: b in before ==> Geometry.Dist2(a.x, a.y, b.x, b.y) >= minDist2
  }

  /** From position kept on, the antennas were added by the grid walk: ids are
      drawn from the counter starting at counter, labels follow the array
      length, and each satisfies the placement conditions. */
  predicate PlacedFrom(ants: seq<Antenna>, kept: nat, counter: int, zoneId: int, per: Perimeter,
                       minWall2: real, minDist2: real)
  {
    kept <= |ants| &&
    forall j :: kept <= j < |ants| ==>
      ants[j].id == counter + (j - kept) && ants[j].labelText == AntennaLabel(j) &&
      Placed(ants[j], ants[..j], zoneId, per, minWall2, minDist2)
  }

  /** Before the walk adds anything the record holds trivially. */
  lemma PlacedFromNone(ants: seq<Antenna>, counter: int, zoneId: int, per: Perimeter, minWall2: real, minDist2: real)
    ensures PlacedFrom(ants, |ants|, counter, zoneId, per, minWall2, minDist2)
  {
  }

  /** Appending one more accepted antenna keeps the walk's record. */
  lemma PlacedFromAppend(ants: seq<Antenna>, a: Antenna, kept: nat, counter: int, zoneId: int, per: Perimeter,
                         minWall2: real, minDist2: real)
    requires PlacedFrom(ants, kept, counter, zoneId, per, minWall2, minDist2)
    requires a.id == counter + (|ants| - kept) && a.labelText == AntennaLabel(|ants|)
    requires Placed(a, ants, zoneId, per, minWall2, minDist2)
    ensures PlacedFrom(ants + [a], kept, counter, zoneId, per, minWall2, minDist2)
  {
    var grown := ants + [a];
    assert grown[..|ants|] == ants;
    forall j | kept <= j < |ants|
      ensures grown[j] == ants[j] && grown[..j] == ants[..j]
    {
    }
  }

  /** Removing a zone's antennas and then adding only antennas of that zone,
      then removing that zone's antennas again, leaves exactly the first
      removal's result: populating a zone twice replaces its antennas. */
  lemma RepopulateReplaces(before: seq<Antenna>, added: seq<Antenna>, zoneId: int)
    requires forall a :: a in added ==> a.zoneId == Some(zoneId)
    ensures WithoutZone(WithoutZone(before, zoneId) + added, zoneId) == WithoutZone(before, zoneId)
  {
    WithoutZoneAppend(WithoutZone(before, zoneId), added, zoneId);
    WithoutZoneIdempotent(before, zoneId);
    WithoutZoneAllInZone(added, zoneId);
    assert WithoutZone(before, zoneId) + [] == WithoutZone(before, zoneId);
  }

  lemma {:induction false} WithoutZoneAllInZone(added: seq<Antenna>, zoneId: int)
    requires forall a :: a in added ==> a.zoneId == Some(zoneId)
    ensures WithoutZone(added, zoneId) == []
    decreases |added|
  {
    if |added| > 0 {
      assert added[0] in added;
      assert forall a :: a in added[1..] ==> a in added;
      WithoutZoneAllInZone(added[1..], zoneId);
    }
  }

  // ---------------------------------------------------------------------
  // Import of a saved document. Each record field is optional; a field that
  // is missing or falsy (zero, empty, false) takes the default, as `x || d`.

  datatype PerimeterInput = PerimeterInput(points: Option<seq<Point>>, closed: bool)
  datatype ScaleInput = ScaleInput(start: Option<Point>, end: Option<Point>, meters: Option<real>)
  datatype ZoneInput = ZoneInput(
    id: Option<int>,
    x: Option<real>, y: Option<real>, w: Option<real>, h: Option<real>,
    labelText: Option<string>,
    ceilingHeight: Option<real>, shelfHeight: Option<real>, coverageRadius: Option<real>,
    showCoverage: Option<bool>,
    colorIndex: Option<int>)
  datatype AntennaInput = AntennaInput(id: Option<int>, x: Option<real>, y: Option<real>,
                                       labelText: Option<string>, zoneId: Option<int>)
  datatype MeasureInput = MeasureInput(id: Option<int>, start: Option<Point>, end: Option<Point>)

  /** The argument of `importData`: anything that is not an object, or an
      object whose parts may each be missing (an array-valued part that is not
      an array counts as missing). */
  datatype ImportData =
    | NotAnObject
    | Document(
        perimeter: Option<PerimeterInput>,
        scale: Option<ScaleInput>,
        zones: Option<seq<ZoneInput>>,
        antennas: Option<seq<AntennaInput>>,
        measures: Option<seq<MeasureInput>>)

  function OrReal(v: Option<real>, default: real): real
  {
    if v.Some? && v.value != 0.0 then v.value else default
  }

  function OrString(v: Option<string>, default: string): string
  {
    if v.Some? && v.value != "" then v.value else default
  }

  function OrInt(v: Option<int>, default: int): int
  {
    if v.Some? && v.value != 0 then v.value else default
  }

  function OrPoint(v: Option<Point>): Point
  {
    if v.Some? then v.value else Point(0.0, 0.0)
  }

  /** A truthy imported id: present and non-zero. */
  predicate HasId(id: Option<int>)
  {
    id.Some? && id.value != 0
  }

  /** What the import loop keeps while walking one record array. */
  datatype ImportState<R> = ImportState(records: seq<R>, counter: int, maxId: int)

  /** The id an imported record receives, the id counter after it and the
      largest truthy imported id so far: a truthy id is kept (and may raise the
      maximum), a missing one is drawn from the counter. */
  function AssignId(id: Option<int>, counter: int, maxId: int): (r: (int, int, int))
    ensures HasId(id) ==> r == (id.value, counter, MaxInt(maxId, id.value))
    ensures !HasId(id) ==> r == (counter, counter + 1, maxId)
  {
    var newMax := if HasId(id) && id.value > maxId then id.value else maxId;
    if HasId(id) then (id.value, counter, newMax) else (counter, counter + 1, newMax)
  }

  function ZoneFromInput(z: ZoneInput, id: int, position: nat): (r: Zone)
    ensures r.id == id
  {
    Zone(id, OrReal(z.x, 0.0), OrReal(z.y, 0.0), OrReal(z.w, 100.0), OrReal(z.h, 100.0),
         OrString(z.labelText, ZoneLabel(position)),
         OrReal(z.ceilingHeight, 3.0), OrReal(z.shelfHeight, 2.1), OrReal(z.coverageRadius, 6.0),
         z.showCoverage == Some(true), OrInt(z.colorIndex, 0))
  }

  /** The defaults an imported zone takes for its falsy fields. */
  lemma ZoneDefaults(z: ZoneInput, id: int, position: nat)
    ensures var r := ZoneFromInput(z, id, position);
            (z.w.None? || z.w == Some(0.0) ==> r.w == 100.0) &&
            (z.h.None? || z.h == Some(0.0) ==> r.h == 100.0) &&
            (z.ceilingHeight.None? || z.ceilingHeight == Some(0.0) ==> r.ceilingHeight == 3.0) &&
            (z.shelfHeight.None? || z.shelfHeight == Some(0.0) ==> r.shelfHeight == 2.1) &&
            (z.coverageRadius.None? || z.coverageRadius == Some(0.0) ==> r.coverageRadius == 6.0) &&
            (z.colorIndex.None? || z.colorIndex == Some(0) ==> r.colorIndex == 0) &&
            (z.labelText.None? || z.labelText == Some("") ==> r.labelText == ZoneLabel(position)) &&
            (z.w.Some? && z.w.value != 0.0 ==> r.w == z.w.value) &&
            (z.showCoverage != Some(true) ==> !r.showCoverage)
  {
  }

  function AntennaFromInput(a: AntennaInput, id: int, position: nat): (r: Antenna)
    ensures r.id == id && r.zoneId == a.zoneId
  {
    Antenna(id, OrReal(a.x, 0.0), OrReal(a.y, 0.0), OrString(a.labelText, AntennaLabel(position)), a.zoneId)
  }

  function MeasureFromInput(m: MeasureInput, id: int): (r: Measure)
    ensures r.id == id
  {
    Measure(id, OrPoint(m.start), OrPoint(m.end))
  }

  /** The zones imported from items, one record after the other, starting from
      the given counter. */
  function ImportZones(items: seq<ZoneInput>, counter: int): ImportState<Zone>
    decreases |items|
  {
    if |items| == 0 then ImportState([], counter, 0)
    else
      var before := ImportZones(items[..|items| - 1], counter);
      var item := items[|items| - 1];
      var (id, c, m) := AssignId(item.id, before.counter, before.maxId);
      ImportState(before.records + [ZoneFromInput(item, id, |before.records|)], c, m)
  }

  function ImportAntennas(items: seq<AntennaInput>, counter: int): ImportState<Antenna>
    decreases |items|
  {
    if |items| == 0 then ImportState([], counter, 0)
    else
      var before := ImportAntennas(items[..|items| - 1], counter);
      var item := items[|items| - 1];
      var (id, c, m) := AssignId(item.id, before.counter, before.maxId);
      ImportState(before.records + [AntennaFromInput(item, id, |before.records|)], c, m)
  }

  function ImportMeasures(items: seq<MeasureInput>, counter: int): ImportState<Measure>
    decreases |items|
  {
    if |items| == 0 then ImportState([], counter, 0)
    else
      var before := ImportMeasures(items[..|items| - 1], counter);
      var item := items[|items| - 1];
      var (id, c, m) := AssignId(item.id, before.counter, before.maxId);
      ImportState(before.records + [MeasureFromInput(item, id)], c, m)
  }

  /** The counter after the import: one past the largest imported id when that
      id has reached the counter. */
  function RepairCounter(counter: int, maxId: int): (r: int)
    ensures r > maxId && r >= counter
  {
    if maxId >= counter then maxId + 1 else counter
  }

  /** Every imported zone keeps its truthy id or takes a counter value; so every
      id is either at most the recorded maximum or below the counter. */
  lemma {:induction false} ImportZonesIds(items: seq<ZoneInput>, counter: int)
    ensures var st := ImportZones(items, counter);
            |st.records| == |items| && st.counter >= counter && st.maxId >= 0 &&
            forall i :: 0 <= i < |items| ==>
              st.records[i] == ZoneFromInput(items[i], st.records[i].id, i) &&
              (st.records[i].id <= st.maxId || st.records[i].id < st.counter) &&
              (HasId(items[i].id) ==> st.records[i].id == items[i].id.value)
    decreases |items|
  {
    if |items| > 0 {
      var init := items[..|items| - 1];
      ImportZonesIds(init, counter);
      var before := ImportZones(init, counter);
      var item := items[|items| - 1];
      var (id, c, m) := AssignId(item.id, before.counter, before.maxId);
      var st := ImportZones(items, counter);
      assert st == ImportState(before.records + [ZoneFromInput(item, id, |before.records|)], c, m);
      assert st.counter >= before.counter && st.maxId >= before.maxId;
      forall i | 0 <= i < |items|
        ensures st.records[i] == ZoneFromInput(items[i], st.records[i].id, i)
        ensures st.records[i].id <= st.maxId || st.records[i].id < st.counter
        ensures HasId(items[i].id) ==> st.records[i].id == items[i].id.value
      {
        if i < |init| {
          assert init[i] == items[i] && st.records[i] == before.records[i];
        }
      }
    }
  }

  lemma {:induction false} ImportAntennasIds(items: seq<AntennaInput>, counter: int)
    ensures var st := ImportAntennas(items, counter);
            |st.records| == |items| && st.counter >= counter && st.maxId >= 0 &&
            forall i :: 0 <= i < |items| ==>
              st.records[i] == AntennaFromInput(items[i], st.records[i].id, i) &&
              (st.records[i].id <= st.maxId || st.records[i].id < st.counter) &&
              (HasId(items[i].id) ==> st.records[i].id == items[i].id.value)
    decreases |items|
  {
    if |items| > 0 {
      var init := items[..|items| - 1];
      ImportAntennasIds(init, counter);
      var before := ImportAntennas(init, counter);
      var item := items[|items| - 1];
      var (id, c, m) := AssignId(item.id, before.counter, before.maxId);
      var st := ImportAntennas(items, counter);
      assert st == ImportState(before.records + [AntennaFromInput(item, id, |before.records|)], c, m);
      assert st.counter >= before.counter && st.maxId >= before.maxId;
      forall i | 0 <= i < |items|
        ensures st.records[i] == AntennaFromInput(items[i], st.records[i].id, i)
        ensures st.records[i].id <= st.maxId || st.records[i].id < st.counter
        ensures HasId(items[i].id) ==> st.records[i].id == items[i].id.value
      {
        if i < |init| {
          assert init[i] == items[i] && st.records[i] == before.records[i];
        }
      }
    }
  }

  lemma {:induction false} ImportMeasuresIds(items: seq<MeasureInput>, counter: int)
    ensures var st := ImportMeasures(items, counter);
            |st.records| == |items| && st.counter >= counter && st.maxId >= 0 &&
            forall i :: 0 <= i < |items| ==>
              st.records[i] == MeasureFromInput(items[i], st.records[i].id) &&
              (st.records[i].id <= st.maxId || st.records[i].id < st.counter) &&
              (HasId(items[i].id) ==> st.records[i].id == items[i].id.value)
    decreases |items|
  {
    if |items| > 0 {
      var init := items[..|items| - 1];
      ImportMeasuresIds(init, counter);
      var before := ImportMeasures(init, counter);
      var item := items[|items| - 1];
      var (id, c, m) := AssignId(item.id, before.counter, before.maxId);
      var st := ImportMeasures(items, counter);
      assert st == ImportState(before.records + [MeasureFromInput(item, id)], c, m);
      assert st.counter >= before.counter && st.maxId >= before.maxId;
      forall i | 0 <= i < |items|
        ensures st.records[i] == MeasureFromInput(items[i], st.records[i].id)
        ensures st.records[i].id <= st.maxId || st.records[i].id < st.counter
        ensures HasId(items[i].id) ==> st.records[i].id == items[i].id.value
      {
        if i < |init| {
          assert init[i] == items[i] && st.records[i] == before.records[i];
        }
      }
    }
  }

  /** The import does not reset the counter, so an id drawn from it for a
      record without id can equal an id a later record brings along: on a fresh
      store, a zone without id followed by a zone with id 1 gives two zones
      with id 1. */
  lemma ImportMayRepeatIds()
    ensures var empty := ZoneInput(None, None, None, None, None, None, None, None, None, None, None);
            var st := ImportZones([empty, empty.(id := Some(1))], 1);
            |st.records| == 2 && st.records[0].id == 1 && st.records[1].id == 1
  {
    var empty := ZoneInput(None, None, None, None, None, None, None, None, None, None, None);
    var items := [empty, empty.(id := Some(1))];
    var one := [empty];
    assert one[..0] == [];
    assert ImportZones(one, 1) == ImportState([ZoneFromInput(empty, 1, 0)], 2, 0);
    assert items[..1] == one;
  }

  // ---------------------------------------------------------------------
  // `exportData` read back: each record with every field present.

  function ZoneAsInput(z: Zone): ZoneInput
  {
    ZoneInput(Some(z.id), Some(z.x), Some(z.y), Some(z.w), Some(z.h), Some(z.labelText),
              Some(z.ceilingHeight), Some(z.shelfHeight), Some(z.coverageRadius),
              Some(z.showCoverage), Some(z.colorIndex))
  }

  function AntennaAsInput(a: Antenna): AntennaInput
  {
    AntennaInput(Some(a.id), Some(a.x), Some(a.y), Some(a.labelText), a.zoneId)
  }

  function MeasureAsInput(m: Measure): MeasureInput
  {
    MeasureInput(Some(m.id), Some(m.start), Some(m.end))
  }

  function ZonesAsInput(zs: seq<Zone>): (r: seq<ZoneInput>)
    ensures |r| == |zs| && forall i :: 0 <= i < |zs| ==> r[i] == ZoneAsInput(zs[i])
  {
    seq(|zs|, i requires 0 <= i < |zs| => ZoneAsInput(zs[i]))
  }

  function AntennasAsInput(ants: seq<Antenna>): (r: seq<AntennaInput>)
    ensures |r| == |ants| && forall i :: 0 <= i < |ants| ==> r[i] == AntennaAsInput(ants[i])
  {
    seq(|ants|, i requires 0 <= i < |ants| => AntennaAsInput(ants[i]))
  }

  function MeasuresAsInput(ms: seq<Measure>): (r: seq<MeasureInput>)
    ensures |r| == |ms| && forall i :: 0 <= i < |ms| ==> r[i] == MeasureAsInput(ms[i])
  {
    seq(|ms|, i requires 0 <= i < |ms| => MeasureAsInput(ms[i]))
  }

  /** A zone that comes back unchanged: no field that `x || default` would
      replace is falsy. */
  predicate ZoneSurvivesImport(z: Zone)
  {
    z.id != 0 && z.w != 0.0 && z.h != 0.0 && z.labelText != "" &&
    z.ceilingHeight != 0.0 && z.shelfHeight != 0.0 && z.coverageRadius != 0.0
  }

  predicate AntennaSurvivesImport(a: Antenna)
  {
    a.id != 0 && a.labelText != ""
  }

  /** Exported zones with non-falsy fields import as themselves, and the
      counter is not touched. */
  lemma {:induction false} ImportZonesOfExport(zs: seq<Zone>, counter: int)
    requires forall z :: z in zs ==> ZoneSurvivesImport(z)
    ensures ImportZones(ZonesAsInput(zs), counter).records == zs
    ensures ImportZones(ZonesAsInput(zs), counter).counter == counter
    decreases |zs|
  {
    if |zs| > 0 {
      var init := zs[..|zs| - 1];
      assert forall z :: z in init ==> z in zs;
      ImportZonesOfExport(init, counter);
      var last := zs[|zs| - 1];
      assert last in zs;
      ZoneRoundTrip(last, |init|);
      ImportZonesLast(zs, counter);
      assert zs == init + [last];
    }
  }

  /** Importing a non-empty export list of zones is importing all but its last
      record, then the last record under its own id. */
  lemma ImportZonesLast(zs: seq<Zone>, counter: int)
    requires |zs| > 0 && zs[|zs| - 1].id != 0
    ensures var before := ImportZones(ZonesAsInput(zs[..|zs| - 1]), counter);
            var last := zs[|zs| - 1];
            ImportZones(ZonesAsInput(zs), counter) ==
              ImportState(before.records + [ZoneFromInput(ZoneAsInput(last), last.id, |before.records|)],
                          before.counter, if last.id > before.maxId then last.id else before.maxId)
  {
    var inputs := ZonesAsInput(zs);
    assert inputs[..|zs| - 1] == ZonesAsInput(zs[..|zs| - 1]);
    assert inputs[|zs| - 1] == ZoneAsInput(zs[|zs| - 1]);
  }

  lemma ZoneRoundTrip(z: Zone, position: nat)
    requires ZoneSurvivesImport(z)
    ensures ZoneFromInput(ZoneAsInput(z), z.id, position) == z
  {
  }

  lemma AntennaRoundTrip(a: Antenna, position: nat)
    requires AntennaSurvivesImport(a)
    ensures AntennaFromInput(AntennaAsInput(a), a.id, position) == a
  {
  }

  lemma {:induction false} ImportAntennasOfExport(ants: seq<Antenna>, counter: int)
    requires forall a :: a in ants ==> AntennaSurvivesImport(a)
    ensures ImportAntennas(AntennasAsInput(ants), counter).records == ants
    ensures ImportAntennas(AntennasAsInput(ants), counter).counter == counter
    decreases |ants|
  {
    if |ants| > 0 {
      var init := ants[..|ants| - 1];
      assert forall a :: a in init ==> a in ants;
      ImportAntennasOfExport(init, counter);
      var last := ants[|ants| - 1];
      assert last in ants;
      AntennaRoundTrip(last, |init|);
      ImportAntennasLast(ants, counter);
      assert ants == init + [last];
    }
  }

  /** Importing a non-empty export list is importing all but its last record,
      then the last record under its own id. */
  lemma ImportAntennasLast(ants: seq<Antenna>, counter: int)
    requires |ants| > 0 && ants[|ants| - 1].id != 0
    ensures var before := ImportAntennas(AntennasAsInput(ants[..|ants| - 1]), counter);
            var last := ants[|ants| - 1];
            ImportAntennas(AntennasAsInput(ants), counter) ==
              ImportState(before.records + [AntennaFromInput(AntennaAsInput(last), last.id, |before.records|)],
                          before.counter, if last.id > before.maxId then last.id else before.maxId)
  {
    var inputs := AntennasAsInput(ants);
    assert inputs[..|ants| - 1] == AntennasAsInput(ants[..|ants| - 1]);
    assert inputs[|ants| - 1] == AntennaAsInput(ants[|ants| - 1]);
  }

  /** The same last-record step for measures. */
  lemma ImportMeasuresLast(ms: seq<Measure>, counter: int)
    requires |ms| > 0 && ms[|ms| - 1].id != 0
    ensures var before := ImportMeasures(MeasuresAsInput(ms[..|ms| - 1]), counter);
            var last := ms[|ms| - 1];
            ImportMeasures(MeasuresAsInput(ms), counter) ==
              ImportState(before.records + [MeasureFromInput(MeasureAsInput(last), last.id)],
                          before.counter, if last.id > before.maxId then last.id else before.maxId)
  {
    var inputs := MeasuresAsInput(ms);
    assert inputs[..|ms| - 1] == MeasuresAsInput(ms[..|ms| - 1]);
    assert inputs[|ms| - 1] == MeasureAsInput(ms[|ms| - 1]);
  }

  lemma {:induction false} ImportMeasuresOfExport(ms: seq<Measure>, counter: int)
    requires forall m :: m in ms ==> m.id != 0
    ensures ImportMeasures(MeasuresAsInput(ms), counter).records == ms
    ensures ImportMeasures(MeasuresAsInput(ms), counter).counter == counter
    decreases |ms|
  {
    if |ms| > 0 {
      var init := ms[..|ms| - 1];
      assert forall m :: m in init ==> m in ms;
      ImportMeasuresOfExport(init, counter);
      var last := ms[|ms| - 1];
      assert last in ms;
      assert MeasureFromInput(MeasureAsInput(last), last.id) == last;
      ImportMeasuresLast(ms, counter);
      assert ms == init + [last];
    }
  }

  /** The falsy-field defaults do not round-trip: an exported zone of width 0
      comes back 100 wide. */
  lemma ZeroWidthComesBackDefault(z: Zone)
    requires z.w == 0.0
    ensures ZoneFromInput(ZoneAsInput(z), z.id, 0).w == 100.0
  {
  }
}
