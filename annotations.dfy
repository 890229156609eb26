/** The annotation document store (src/stores/annotations.ts): one perimeter,
    one scale line, the zone, antenna and measure arrays with their id
    counters, and the set of selected antenna ids, all changed in place. */
module Annotations {
  import opened Types
  import Geometry
  import opened AnnotationRules

  /** The store's whole state as one value. */
  datatype DocumentState = DocumentState(
    perimeter: Perimeter,
    scaleLine: ScaleLine,
    zones: seq<Zone>,
    zoneIdCounter: int,
    antennas: seq<Antenna>,
    antennaIdCounter: int,
    measures: seq<Measure>,
    measureIdCounter: int,
    selectedAntennas: set<int>)

  /** Every id of a record lies below its array's counter, so the counter's
      value is unused and a record added with it gets a fresh id. */
  predicate IdsBelowCounters(d: DocumentState)
  {
    (forall z :: z in d.zones ==> z.id < d.zoneIdCounter) &&
    (forall a :: a in d.antennas ==> a.id < d.antennaIdCounter) &&
    (forall m :: m in d.measures ==> m.id < d.measureIdCounter)
  }

  /** The perimeter `importData` leaves: cleared, then filled from the data. */
  function ImportedPerimeter(p: Option<PerimeterInput>): Perimeter
  {
    if p.None? then Perimeter([], false)
    else Perimeter(if p.value.points.Some? then p.value.points.value else [], p.value.closed)
  }

  /** The scale line after an import: it is not cleared, and only the parts the
      data supplies (a length only when non-zero) replace the current ones. */
  function ImportedScale(current: ScaleLine, s: Option<ScaleInput>): ScaleLine
  {
    if s.None? then current
    else
      ScaleLine(
        if s.value.start.Some? then s.value.start else current.start,
        if s.value.end.Some? then s.value.end else current.end,
        if s.value.meters.Some? && s.value.meters.value != 0.0 then s.value.meters else current.meters)
  }

  function ZoneState(d: DocumentState, data: ImportData): ImportState<Zone>
    requires data.Document?
  {
    if data.zones.Some? then ImportZones(data.zones.value, d.zoneIdCounter)
    else ImportState([], d.zoneIdCounter, 0)
  }

  function AntennaState(d: DocumentState, data: ImportData): ImportState<Antenna>
    requires data.Document?
  {
    if data.antennas.Some? then ImportAntennas(data.antennas.value, d.antennaIdCounter)
    else ImportState([], d.antennaIdCounter, 0)
  }

  function MeasureState(d: DocumentState, data: ImportData): ImportState<Measure>
    requires data.Document?
  {
    if data.measures.Some? then ImportMeasures(data.measures.value, d.measureIdCounter)
    else ImportState([], d.measureIdCounter, 0)
  }

  /** The document after a successful `importData` of data over d. */
  function ImportedState(d: DocumentState, data: ImportData): DocumentState
    requires data.Document?
  {
    var zs, ants, ms := ZoneState(d, data), AntennaState(d, data), MeasureState(d, data);
    DocumentState(
      ImportedPerimeter(data.perimeter),
      ImportedScale(d.scaleLine, data.scale),
      zs.records, RepairCounter(zs.counter, zs.maxId),
      ants.records, RepairCounter(ants.counter, ants.maxId),
      ms.records, RepairCounter(ms.counter, ms.maxId),
      {})
  }

  /** After an import every counter is above every id in its array, whatever
      the ids before and in the data were. */
  lemma ImportRepairsCounters(d: DocumentState, data: ImportData)
    requires data.Document?
    ensures IdsBelowCounters(ImportedState(d, data))
    ensures ImportedState(d, data).zoneIdCounter >= d.zoneIdCounter
    ensures ImportedState(d, data).antennaIdCounter >= d.antennaIdCounter
    ensures ImportedState(d, data).measureIdCounter >= d.measureIdCounter
  {
    if data.zones.Some? { ImportZonesIds(data.zones.value, d.zoneIdCounter); }
    if data.antennas.Some? { ImportAntennasIds(data.antennas.value, d.antennaIdCounter); }
    if data.measures.Some? { ImportMeasuresIds(data.measures.value, d.measureIdCounter); }
    var r := ImportedState(d, data);
    forall z | z in r.zones ensures z.id < r.zoneIdCounter {
      var i :| 0 <= i < |r.zones| && r.zones[i] == z;
    }
    forall a | a in r.antennas ensures a.id < r.antennaIdCounter {
      var i :| 0 <= i < |r.antennas| && r.antennas[i] == a;
    }
    forall m | m in r.measures ensures m.id < r.measureIdCounter {
      var i :| 0 <= i < |r.measures| && r.measures[i] == m;
    }
  }

  /** The object `exportData` builds, read back as the argument of
      `importData`. */
  function ExportDocument(d: DocumentState): ImportData
  {
    Document(
      Some(PerimeterInput(Some(d.perimeter.points), d.perimeter.closed)),
      Some(ScaleInput(d.scaleLine.start, d.scaleLine.end, d.scaleLine.meters)),
      Some(ZonesAsInput(d.zones)),
      Some(AntennasAsInput(d.antennas)),
      Some(MeasuresAsInput(d.measures)))
  }

  /** Importing an export restores the document, the selection aside, when no
      record has a falsy field the import would replace by its default; the
      counters only grow. */
  lemma ExportImportRoundTrip(d: DocumentState)
    requires forall z :: z in d.zones ==> ZoneSurvivesImport(z)
    requires forall a :: a in d.antennas ==> AntennaSurvivesImport(a)
    requires forall m :: m in d.measures ==> m.id != 0
    ensures var r := ImportedState(d, ExportDocument(d));
            r.perimeter == d.perimeter && r.scaleLine == d.scaleLine &&
            r.zones == d.zones && r.antennas == d.antennas && r.measures == d.measures &&
            r.selectedAntennas == {} &&
            r.zoneIdCounter >= d.zoneIdCounter && r.antennaIdCounter >= d.antennaIdCounter &&
            r.measureIdCounter >= d.measureIdCounter
  {
    ImportZonesOfExport(d.zones, d.zoneIdCounter);
    ImportAntennasOfExport(d.antennas, d.antennaIdCounter);
    ImportMeasuresOfExport(d.measures, d.measureIdCounter);
  }

  class AnnotationStore {
    var perimeter: Perimeter
    var scaleLine: ScaleLine
    var zones: seq<Zone>
    var zoneIdCounter: int
    var antennas: seq<Antenna>
    var antennaIdCounter: int
    var measures: seq<Measure>
    var measureIdCounter: int
    var selectedAntennas: set<int>

    function State(): DocumentState
      reads this
    {
      DocumentState(perimeter, scaleLine, zones, zoneIdCounter, antennas, antennaIdCounter,
                    measures, measureIdCounter, selectedAntennas)
    }

    predicate Valid()
      reads this
    {
      IdsBelowCounters(State())
    }

    constructor ()
      ensures State() == DocumentState(Perimeter([], false), ScaleLine(None, None, None),
                                       [], 1, [], 1, [], 1, {})
      ensures Valid()
    {
      perimeter := Perimeter([], false);
      scaleLine := ScaleLine(None, None, None);
      zones, zoneIdCounter := [], 1;
      antennas, antennaIdCounter := [], 1;
      measures, measureIdCounter := [], 1;
      selectedAntennas := {};
    }

    /** `exportData`. */
    function ExportData(): ImportData
      reads this
    {
      ExportDocument(State())
    }

    // Perimeter

    method AddPerimeterPoint(point: Point)
      requires Valid()
      modifies this
      ensures Valid()
      ensures State() == old(State()).(perimeter := old(perimeter).(points := old(perimeter.points) + [point]))
    {
      perimeter := perimeter.(points := perimeter.points + [point]);
    }

    method ClosePerimeter()
      requires Valid()
      modifies this
      ensures Valid()
      ensures State() == old(State()).(perimeter := old(perimeter).(closed := true))
    {
      perimeter := perimeter.(closed := true);
    }

    method ClearPerimeter()
      requires Valid()
      modifies this
      ensures Valid()
      ensures State() == old(State()).(perimeter := Perimeter([], false))
    {
      perimeter := Perimeter([], false);
    }

    // Scale

    method SetScaleLine(start: Point, end: Point)
      requires Valid()
      modifies this
      ensures Valid()
      ensures State() == old(State()).(scaleLine := old(scaleLine).(start := Some(start), end := Some(end)))
    {
      scaleLine := scaleLine.(start := Some(start), end := Some(end));
    }

    method SetScaleMeters(meters: real)
      requires Valid()
      modifies this
      ensures Valid()
      ensures State() == old(State()).(scaleLine := old(scaleLine).(meters := Some(meters)))
    {
      scaleLine := scaleLine.(meters := Some(meters));
    }

    // Zones

    /** `addZone`: the next zone id, a colour cycling through the palette, a
        label numbered after the zones present and the coverage radius of the
        placement rules; the new id is not used by any zone. */
    method AddZone(x: real, y: real, w: real, h: real, ceilingHeight: real, shelfHeight: real)
      requires Valid()
      modifies this
      ensures Valid()
      ensures State() == old(State()).(
                zones := old(zones) + [Zone(old(zoneIdCounter), x, y, w, h, ZoneLabel(|old(zones)|),
                                            ceilingHeight, shelfHeight,
                                            GetAntennaPlacementRules(ceilingHeight, shelfHeight).coverageRadius,
                                            false, |old(zones)| % ZoneColorCount)],
                zoneIdCounter := old(zoneIdCounter) + 1)
      ensures forall z :: z in old(zones) ==> z.id != old(zoneIdCounter)
      ensures 0 <= zones[|zones| - 1].colorIndex < ZoneColorCount
    {
      var colorIndex := |zones| % ZoneColorCount;
      var rules := GetAntennaPlacementRules(ceilingHeight, shelfHeight);
      zones := zones + [Zone(zoneIdCounter, x, y, w, h, ZoneLabel(|zones|), ceilingHeight, shelfHeight,
                             rules.coverageRadius, false, colorIndex)];
      zoneIdCounter := zoneIdCounter + 1;
    }

    /** `deleteZone`: the first zone with the id goes, and with it every antenna
        of that zone; an unknown id changes nothing. */
    method DeleteZone(id: int)
      requires Valid()
      modifies this
      ensures Valid()
      ensures var k := IndexOf(ZoneIds(old(zones)), id);
              if k == -1 then State() == old(State())
              else State() == old(State()).(zones := old(zones)[..k] + old(zones)[k + 1..],
                                            antennas := WithoutZone(old(antennas), id))
    {
      var index := IndexOf(ZoneIds(zones), id);
      if index != -1 {
        assert forall z :: z in zones[..index] + zones[index + 1..] ==> z in zones;
        zones := zones[..index] + zones[index + 1..];
        RemoveZoneAntennas(id);
      }
    }

    /** The reverse splicing loop shared by `deleteZone` and
        `populateAntennasInZone`: drop every antenna of the zone. */
    method RemoveZoneAntennas(zoneId: int)
      requires Valid()
      modifies this
      ensures Valid()
      ensures State() == old(State()).(antennas := WithoutZone(old(antennas), zoneId))
    {
      ghost var original := antennas;
      var remaining := antennas;
      var i := |remaining|;
      while i > 0
        invariant 0 <= i <= |original|
        invariant remaining == original[..i] + WithoutZone(original[i..], zoneId)
        modifies {}
        decreases i
      {
        i := i - 1;
        RemoveZoneStep(original, remaining, i, zoneId);
        if remaining[i].zoneId == Some(zoneId) {
          remaining := remaining[..i] + remaining[i + 1..];
        }
      }
      assert original[..0] == [] && original[0..] == original;
      assert remaining == WithoutZone(original, zoneId);
      WithoutZoneKeeps(original, zoneId);
      antennas := remaining;
    }

    /** `changeZoneColor`: the first zone with the id moves direction steps
        around the palette; an unknown id changes nothing. */
    method ChangeZoneColor(zoneId: int, direction: int)
      requires Valid()
      modifies this
      ensures Valid()
      ensures var k := IndexOf(ZoneIds(old(zones)), zoneId);
              if k == -1 then State() == old(State())
              else State() == old(State()).(zones := old(zones)[k := old(zones)[k].(
                                              colorIndex := ColorStep(old(zones)[k].colorIndex, direction))])
    {
      var k := IndexOf(ZoneIds(zones), zoneId);
      if k == -1 {
        return;
      }
      UpdateZoneAt(k, zones[k].(colorIndex := ColorStep(zones[k].colorIndex, direction)));
    }

    /** Writes a changed zone back in place, keeping its id. */
    method UpdateZoneAt(k: nat, zone: Zone)
      requires Valid() && k < |zones| && zone.id == zones[k].id
      modifies this
      ensures Valid()
      ensures State() == old(State()).(zones := old(zones)[k := zone])
    {
      ghost var before := zones;
      zones := zones[k := zone];
      forall z | z in zones ensures z.id < zoneIdCounter {
        var i :| 0 <= i < |zones| && zones[i] == z;
        assert i != k ==> before[i] in before;
        assert before[k] in before;
      }
    }

    /** `updateZoneParameters`: new heights and the coverage radius of the
        placement rules for them. */
    method UpdateZoneParameters(zoneId: int, ceilingHeight: real, shelfHeight: real)
      requires Valid()
      modifies this
      ensures Valid()
      ensures var k := IndexOf(ZoneIds(old(zones)), zoneId);
              if k == -1 then State() == old(State())
              else State() == old(State()).(zones := old(zones)[k := old(zones)[k].(
                                              ceilingHeight := ceilingHeight, shelfHeight := shelfHeight,
                                              coverageRadius := GetAntennaPlacementRules(ceilingHeight, shelfHeight).coverageRadius)])
    {
      var k := IndexOf(ZoneIds(zones), zoneId);
      if k != -1 {
        var rules := GetAntennaPlacementRules(ceilingHeight, shelfHeight);
        UpdateZoneAt(k, zones[k].(ceilingHeight := ceilingHeight, shelfHeight := shelfHeight,
                                  coverageRadius := rules.coverageRadius));
      }
    }

    /** `toggleZoneCoverage`. */
    method ToggleZoneCoverage(zoneId: int)
      requires Valid()
      modifies this
      ensures Valid()
      ensures var k := IndexOf(ZoneIds(old(zones)), zoneId);
              if k == -1 then State() == old(State())
              else State() == old(State()).(zones := old(zones)[k := old(zones)[k].(
                                              showCoverage := !old(zones)[k].showCoverage)])
    {
      var k := IndexOf(ZoneIds(zones), zoneId);
      if k != -1 {
        UpdateZoneAt(k, zones[k].(showCoverage := !zones[k].showCoverage));
      }
    }

    // Antennas

    /** `addAntenna`: the next antenna id and a label numbered after the
        antennas present; the new id is not used by any antenna. */
    method AddAntenna(x: real, y: real, zoneId: Option<int>)
      requires Valid()
      modifies this
      ensures Valid()
      ensures State() == old(State()).(
                antennas := old(antennas) + [Antenna(old(antennaIdCounter), x, y, AntennaLabel(|old(antennas)|), zoneId)],
                antennaIdCounter := old(antennaIdCounter) + 1)
      ensures forall a :: a in old(antennas) ==> a.id != old(antennaIdCounter)
    {
      antennas := antennas + [Antenna(antennaIdCounter, x, y, AntennaLabel(|antennas|), zoneId)];
      antennaIdCounter := antennaIdCounter + 1;
    }

    /** `deleteAntenna`: the first antenna with the id goes, and the id leaves
        the selection; an unknown id changes nothing. */
    method DeleteAntenna(id: int)
      requires Valid()
      modifies this
      ensures Valid()
      ensures var k := IndexOf(AntennaIds(old(antennas)), id);
              if k == -1 then State() == old(State())
              else State() == old(State()).(antennas := old(antennas)[..k] + old(antennas)[k + 1..],
                                            selectedAntennas := old(selectedAntennas) - {id})
    {
      var index := IndexOf(AntennaIds(antennas), id);
      if index != -1 {
        assert forall a :: a in antennas[..index] + antennas[index + 1..] ==> a in antennas;
        antennas := antennas[..index] + antennas[index + 1..];
        selectedAntennas := selectedAntennas - {id};
      }
    }

    /** `updateAntennaPosition`. */
    method UpdateAntennaPosition(id: int, x: real, y: real)
      requires Valid()
      modifies this
      ensures Valid()
      ensures var k := IndexOf(AntennaIds(old(antennas)), id);
              if k == -1 then State() == old(State())
              else State() == old(State()).(antennas := old(antennas)[k := old(antennas)[k].(x := x, y := y)])
    {
      var k := IndexOf(AntennaIds(antennas), id);
      if k != -1 {
        ghost var before := antennas;
        antennas := antennas[k := antennas[k].(x := x, y := y)];
        forall a | a in antennas ensures a.id < antennaIdCounter {
          var i :| 0 <= i < |antennas| && antennas[i] == a;
          assert before[i] in before;
        }
      }
    }

    // Measurements

    /** `addMeasure`: the next measure id; the new id is not used by any
        measure. */
    method AddMeasure(start: Point, end: Point)
      requires Valid()
      modifies this
      ensures Valid()
      ensures State() == old(State()).(measures := old(measures) + [Measure(old(measureIdCounter), start, end)],
                                       measureIdCounter := old(measureIdCounter) + 1)
      ensures forall m :: m in old(measures) ==> m.id != old(measureIdCounter)
    {
      measures := measures + [Measure(measureIdCounter, start, end)];
      measureIdCounter := measureIdCounter + 1;
    }

    /** `deleteMeasure`. */
    method DeleteMeasure(id: int)
      requires Valid()
      modifies this
      ensures Valid()
      ensures var k := IndexOf(MeasureIds(old(measures)), id);
              if k == -1 then State() == old(State())
              else State() == old(State()).(measures := old(measures)[..k] + old(measures)[k + 1..])
    {
      var index := IndexOf(MeasureIds(measures), id);
      if index != -1 {
        assert forall m :: m in measures[..index] + measures[index + 1..] ==> m in measures;
        measures := measures[..index] + measures[index + 1..];
      }
    }

    // Selection

    method SelectAntenna(id: int)
      requires Valid()
      modifies this
      ensures Valid()
      ensures State() == old(State()).(selectedAntennas := old(selectedAntennas) + {id})
    {
      selectedAntennas := selectedAntennas + {id};
    }

    method DeselectAntenna(id: int)
      requires Valid()
      modifies this
      ensures Valid()
      ensures State() == old(State()).(selectedAntennas := old(selectedAntennas) - {id})
    {
      selectedAntennas := selectedAntennas - {id};
    }

    method ClearSelection()
      requires Valid()
      modifies this
      ensures Valid()
      ensures State() == old(State()).(selectedAntennas := {})
    {
      selectedAntennas := {};
    }

    /** `deleteSelectedAntennas`: exactly the selected antennas go, the others
        keep their order, and the selection ends empty. */
    method DeleteSelectedAntennas()
      requires Valid()
      modifies this
      ensures Valid()
      ensures State() == old(State()).(antennas := WithoutIds(old(antennas), old(selectedAntennas)),
                                       selectedAntennas := {})
    {
      ghost var original := antennas;
      var selected := selectedAntennas;
      var remaining := antennas;
      var i := |remaining|;
      while i > 0
        invariant 0 <= i <= |original|
        invariant remaining == original[..i] + WithoutIds(original[i..], selected)
        modifies {}
        decreases i
      {
        i := i - 1;
        RemoveIdsStep(original, remaining, i, selected);
        if remaining[i].id in selected {
          remaining := remaining[..i] + remaining[i + 1..];
        }
      }
      assert original[..0] == [] && original[0..] == original;
      assert remaining == WithoutIds(original, selected);
      WithoutIdsKeeps(original, selected);
      antennas := remaining;
      ClearSelection();
    }

    /** The inner search of `populateAntennasInZone`: does any antenna lie
        closer to (x, y) than minDistancePx? */
    method TooClose(x: real, y: real, minDistancePx: real) returns (tooClose: bool)
      ensures tooClose <==> exists j :: 0 <= j < |antennas| &&
                              Geometry.Dist2(x, y, antennas[j].x, antennas[j].y) < Geometry.Sq(minDistancePx)
    {
      tooClose := false;
      var j := 0;
      while j < |antennas|
        invariant 0 <= j <= |antennas|
        invariant forall i :: 0 <= i < j ==>
                    Geometry.Dist2(x, y, antennas[i].x, antennas[i].y) >= Geometry.Sq(minDistancePx)
      {
        if Geometry.Dist2(x, y, antennas[j].x, antennas[j].y) < Geometry.Sq(minDistancePx) {
          return true;
        }
        j := j + 1;
      }
    }

    /** `populateAntennasInZone`. Without the zone or a scale nothing changes.
        Otherwise the zone's antennas are removed, every other antenna stays in
        order, and the grid walk appends antennas with fresh consecutive ids,
        each satisfying the placement conditions against everything before
        it. pxDist is the scale line's pixel length. */
    method PopulateAntennasInZone(zoneId: int, pxDist: real)
      requires Valid() && ScaleLengthOk(scaleLine, pxDist)
      modifies this
      ensures Valid()
      ensures var k := IndexOf(ZoneIds(old(zones)), zoneId);
              var mpp := MetersPerPx(old(scaleLine), pxDist);
              if k == -1 || mpp.None? then State() == old(State())
              else
                var rules := GetAntennaPlacementRules(old(zones)[k].ceilingHeight, old(zones)[k].shelfHeight);
                var kept := WithoutZone(old(antennas), zoneId);
                State() == old(State()).(antennas := antennas, antennaIdCounter := antennaIdCounter) &&
                |kept| <= |antennas| && antennas[..|kept|] == kept &&
                antennaIdCounter == old(antennaIdCounter) + (|antennas| - |kept|) &&
                PlacedFrom(antennas, |kept|, old(antennaIdCounter), zoneId, perimeter,
                           WallClearance2(rules, mpp.value), AntennaClearance2(rules, mpp.value))
    {
      var k := IndexOf(ZoneIds(zones), zoneId);
      var metersPerPx := MetersPerPx(scaleLine, pxDist);
      if k == -1 || metersPerPx.None? {
        return;
      }
      var zone := zones[k];
      var rules := GetAntennaPlacementRules(zone.ceilingHeight, zone.shelfHeight);
      RemoveZoneAntennas(zoneId);
      PlaceGrid(zone, zoneId, rules, metersPerPx.value);
    }

    /** The grid walk of `populateAntennasInZone` over the zone's rectangle,
        starting half a step in from its corner, column by column. */
    method PlaceGrid(zone: Zone, zoneId: int, rules: PlacementRules, metersPerPx: real)
      requires Valid() && metersPerPx > 0.0
      requires rules.maxHorizontalDistance > 0.0 && rules.maxVerticalDistance > 0.0
      requires rules.maxHorizontalWallDistance > 0.0 && rules.maxVerticalWallDistance > 0.0
      modifies this
      ensures Valid()
      ensures State() == old(State()).(antennas := antennas, antennaIdCounter := antennaIdCounter)
      ensures |old(antennas)| <= |antennas| && antennas[..|old(antennas)|] == old(antennas)
      ensures antennaIdCounter == old(antennaIdCounter) + (|antennas| - |old(antennas)|)
      ensures PlacedFrom(antennas, |old(antennas)|, old(antennaIdCounter), zoneId, perimeter,
                         WallClearance2(rules, metersPerPx), AntennaClearance2(rules, metersPerPx))
    {
      var spacingXPx := SpacingX(rules, metersPerPx);
      var spacingYPx := SpacingY(rules, metersPerPx);
      var startX := zone.x + spacingXPx / 2.0;
      var startY := zone.y + spacingYPx / 2.0;
      var minWallDistance := MinWallDistancePx(rules, metersPerPx);
      var minDistancePx := Geometry.Min(spacingXPx, spacingYPx) * 0.7;
      ghost var kept := |antennas|;
      ghost var counter0 := antennaIdCounter;
      ghost var wall2 := WallClearance2(rules, metersPerPx);
      ghost var dist2 := AntennaClearance2(rules, metersPerPx);
      assert wall2 == Geometry.Sq(minWallDistance * 0.5) && dist2 == Geometry.Sq(minDistancePx);
      PlacedFromNone(antennas, counter0, zoneId, perimeter, wall2, dist2);
      var x := startX;
      while x < zone.x + zone.w
        invariant Valid()
        invariant State() == old(State()).(antennas := antennas, antennaIdCounter := antennaIdCounter)
        invariant |old(antennas)| <= |antennas| && antennas[..|old(antennas)|] == old(antennas)
        invariant antennaIdCounter == counter0 + (|antennas| - kept)
        invariant PlacedFrom(antennas, kept, counter0, zoneId, perimeter, wall2, dist2)
        decreases StepsLeft(x, zone.x + zone.w, spacingXPx)
      {
        PlaceColumn(x, startY, zone.y + zone.h, spacingYPx, zoneId, minWallDistance * 0.5, minDistancePx,
                    kept, counter0);
        StepsLeftDecrease(x, zone.x + zone.w, spacingXPx);
        x := x + spacingXPx;
      }
    }

    /** One column of the grid walk: for every y from startY below limitY in
        steps of spacingY, the rounded point is added as an antenna of the
        zone when it is inside the perimeter, at least minWall from it and at
        least minDistance from every antenna present. */
    method PlaceColumn(x: real, startY: real, limitY: real, spacingY: real, zoneId: int,
                       minWall: real, minDistance: real, ghost kept: nat, ghost counter0: int)
      requires Valid() && spacingY > 0.0 && minWall >= 0.0
      requires kept <= |antennas| && antennaIdCounter == counter0 + (|antennas| - kept)
      requires PlacedFrom(antennas, kept, counter0, zoneId, perimeter, Geometry.Sq(minWall), Geometry.Sq(minDistance))
      modifies this
      ensures Valid()
      ensures State() == old(State()).(antennas := antennas, antennaIdCounter := antennaIdCounter)
      ensures |old(antennas)| <= |antennas| && antennas[..|old(antennas)|] == old(antennas)
      ensures antennaIdCounter == counter0 + (|antennas| - kept)
      ensures PlacedFrom(antennas, kept, counter0, zoneId, perimeter, Geometry.Sq(minWall), Geometry.Sq(minDistance))
    {
      var y := startY;
      while y < limitY
        invariant Valid()
        invariant State() == old(State()).(antennas := antennas, antennaIdCounter := antennaIdCounter)
        invariant |old(antennas)| <= |antennas| && antennas[..|old(antennas)|] == old(antennas)
        invariant antennaIdCounter == counter0 + (|antennas| - kept)
        invariant PlacedFrom(antennas, kept, counter0, zoneId, perimeter, Geometry.Sq(minWall), Geometry.Sq(minDistance))
        decreases StepsLeft(y, limitY, spacingY)
      {
        TryPlace(Round(x), Round(y), zoneId, minWall, minDistance, kept, counter0);
        StepsLeftDecrease(y, limitY, spacingY);
        y := y + spacingY;
      }
    }

    /** One grid point of the walk, already rounded: it becomes an antenna of
        the zone when it passes the three checks. */
    method TryPlace(roundedX: real, roundedY: real, zoneId: int, minWall: real, minDistance: real,
                    ghost kept: nat, ghost counter0: int)
      requires Valid() && minWall >= 0.0
      requires roundedX.Floor as real == roundedX && roundedY.Floor as real == roundedY
      requires kept <= |antennas| && antennaIdCounter == counter0 + (|antennas| - kept)
      requires PlacedFrom(antennas, kept, counter0, zoneId, perimeter, Geometry.Sq(minWall), Geometry.Sq(minDistance))
      modifies this
      ensures Valid()
      ensures State() == old(State()).(antennas := antennas, antennaIdCounter := antennaIdCounter)
      ensures |old(antennas)| <= |antennas| && antennas[..|old(antennas)|] == old(antennas)
      ensures antennaIdCounter == counter0 + (|antennas| - kept)
      ensures PlacedFrom(antennas, kept, counter0, zoneId, perimeter, Geometry.Sq(minWall), Geometry.Sq(minDistance))
    {
      var inside := Geometry.IsPointInPerimeter(roundedX, roundedY, perimeter.points, perimeter.closed);
      if !inside {
        return;
      }
      var distToWall := Geometry.GetDistanceToPerimeter(roundedX, roundedY, perimeter.points, perimeter.closed);
      if distToWall < Geometry.Sq(minWall) {
        return;
      }
      var tooClose := TooClose(roundedX, roundedY, minDistance);
      if tooClose {
        return;
      }
      ghost var before := antennas;
      ghost var a := Antenna(antennaIdCounter, roundedX, roundedY, AntennaLabel(|antennas|), Some(zoneId));
      assert perimeter == Perimeter(perimeter.points, perimeter.closed);
      forall b | b in before
        ensures Geometry.Dist2(a.x, a.y, b.x, b.y) >= Geometry.Sq(minDistance)
      {
        var i :| 0 <= i < |before| && before[i] == b;
      }
      PlacedFromAppend(before, a, kept, counter0, zoneId, perimeter, Geometry.Sq(minWall), Geometry.Sq(minDistance));
      AddAntenna(roundedX, roundedY, Some(zoneId));
      assert antennas == before + [a];
    }

    /** `importData`. Anything but an object is refused before the document is
        touched. Otherwise the document is cleared (the scale line excepted),
        refilled record by record with defaults for falsy fields, and each
        counter is moved past the largest imported id. */
    method ImportData(data: ImportData) returns (ok: bool)
      requires Valid()
      modifies this
      ensures Valid()
      ensures ok <==> data.Document?
      ensures !ok ==> State() == old(State())
      ensures ok ==> State() == ImportedState(old(State()), data)
    {
      if data.NotAnObject? {
        return false;
      }
      ghost var d0 := State();
      ClearForImport(data.perimeter, data.scale);
      ghost var d1 := State();
      var maxZoneId, maxAntennaId, maxMeasureId := 0, 0, 0;

      if data.zones.Some? {
        maxZoneId := ImportZoneRecords(data.zones.value);
      }
      ghost var zs := ZoneState(d0, data);
      ghost var d2 := d1.(zones := zs.records, zoneIdCounter := zs.counter);
      assert State() == d2 && maxZoneId == zs.maxId;

      if data.antennas.Some? {
        maxAntennaId := ImportAntennaRecords(data.antennas.value);
      }
      ghost var ants := AntennaState(d0, data);
      ghost var d3 := d2.(antennas := ants.records, antennaIdCounter := ants.counter);
      assert State() == d3 && maxAntennaId == ants.maxId;

      if data.measures.Some? {
        maxMeasureId := ImportMeasureRecords(data.measures.value);
      }
      ghost var ms := MeasureState(d0, data);
      assert State() == d3.(measures := ms.records, measureIdCounter := ms.counter) && maxMeasureId == ms.maxId;

      RepairCounters(maxZoneId, maxAntennaId, maxMeasureId);
      ImportRepairsCounters(d0, data);
      return true;
    }

    /** The first part of `importData`: the perimeter is cleared and refilled
        from the data, the three arrays and the selection are emptied, and
        the supplied parts of the scale line replace the current ones. */
    method ClearForImport(p: Option<PerimeterInput>, scale: Option<ScaleInput>)
      requires Valid()
      modifies this
      ensures State() == old(State()).(perimeter := ImportedPerimeter(p), scaleLine := ImportedScale(old(scaleLine), scale),
                                       zones := [], antennas := [], measures := [], selectedAntennas := {})
    {
      ClearPerimeter();
      zones, antennas, measures := [], [], [];
      selectedAntennas := {};
      if p.Some? {
        if p.value.points.Some? {
          perimeter := perimeter.(points := perimeter.points + p.value.points.value);
        }
        if p.value.closed {
          perimeter := perimeter.(closed := true);
        }
      }
      if scale.Some? {
        var s := scale.value;
        if s.start.Some? { scaleLine := scaleLine.(start := s.start); }
        if s.end.Some? { scaleLine := scaleLine.(end := s.end); }
        if s.meters.Some? && s.meters.value != 0.0 { scaleLine := scaleLine.(meters := s.meters); }
      }
    }

    /** The last part of `importData`: each counter is moved past the largest
        imported id when it is not already above it. */
    method RepairCounters(maxZoneId: int, maxAntennaId: int, maxMeasureId: int)
      modifies this
      ensures State() == old(State()).(zoneIdCounter := RepairCounter(old(zoneIdCounter), maxZoneId),
                                       antennaIdCounter := RepairCounter(old(antennaIdCounter), maxAntennaId),
                                       measureIdCounter := RepairCounter(old(measureIdCounter), maxMeasureId))
    {
      if maxZoneId >= zoneIdCounter { zoneIdCounter := maxZoneId + 1; }
      if maxAntennaId >= antennaIdCounter { antennaIdCounter := maxAntennaId + 1; }
      if maxMeasureId >= measureIdCounter { measureIdCounter := maxMeasureId + 1; }
    }

    /** The `forEach` over the imported zones, appending to the cleared array. */
    method ImportZoneRecords(items: seq<ZoneInput>) returns (maxZoneId: int)
      requires zones == []
      modifies this
      ensures var st := ImportZones(items, old(zoneIdCounter));
              State() == old(State()).(zones := st.records, zoneIdCounter := st.counter) && maxZoneId == st.maxId
    {
      maxZoneId := 0;
      var i := 0;
      while i < |items|
        invariant 0 <= i <= |items|
        invariant ImportZones(items[..i], old(zoneIdCounter)) == ImportState(zones, zoneIdCounter, maxZoneId)
        invariant State() == old(State()).(zones := zones, zoneIdCounter := zoneIdCounter)
      {
        var zone := items[i];
        if HasId(zone.id) && zone.id.value > maxZoneId {
          maxZoneId := zone.id.value;
        }
        var id;
        if HasId(zone.id) {
          id := zone.id.value;
        } else {
          id := zoneIdCounter;
          zoneIdCounter := zoneIdCounter + 1;
        }
        zones := zones + [ZoneFromInput(zone, id, |zones|)];
        assert items[..i + 1][..i] == items[..i];
        i := i + 1;
      }
      assert items[..|items|] == items;
    }

    /** The `forEach` over the imported antennas. */
    method ImportAntennaRecords(items: seq<AntennaInput>) returns (maxAntennaId: int)
      requires antennas == []
      modifies this
      ensures var st := ImportAntennas(items, old(antennaIdCounter));
              State() == old(State()).(antennas := st.records, antennaIdCounter := st.counter) && maxAntennaId == st.maxId
    {
      maxAntennaId := 0;
      var i := 0;
      while i < |items|
        invariant 0 <= i <= |items|
        invariant ImportAntennas(items[..i], old(antennaIdCounter)) == ImportState(antennas, antennaIdCounter, maxAntennaId)
        invariant State() == old(State()).(antennas := antennas, antennaIdCounter := antennaIdCounter)
      {
        var antenna := items[i];
        if HasId(antenna.id) && antenna.id.value > maxAntennaId {
          maxAntennaId := antenna.id.value;
        }
        var id;
        if HasId(antenna.id) {
          id := antenna.id.value;
        } else {
          id := antennaIdCounter;
          antennaIdCounter := antennaIdCounter + 1;
        }
        antennas := antennas + [AntennaFromInput(antenna, id, |antennas|)];
        assert items[..i + 1][..i] == items[..i];
        i := i + 1;
      }
      assert items[..|items|] == items;
    }

    /** The `forEach` over the imported measures. */
    method ImportMeasureRecords(items: seq<MeasureInput>) returns (maxMeasureId: int)
      requires measures == []
      modifies this
      ensures var st := ImportMeasures(items, old(measureIdCounter));
              State() == old(State()).(measures := st.records, measureIdCounter := st.counter) && maxMeasureId == st.maxId
    {
      maxMeasureId := 0;
      var i := 0;
      while i < |items|
        invariant 0 <= i <= |items|
        invariant ImportMeasures(items[..i], old(measureIdCounter)) == ImportState(measures, measureIdCounter, maxMeasureId)
        invariant State() == old(State()).(measures := measures, measureIdCounter := measureIdCounter)
      {
        var measure := items[i];
        if HasId(measure.id) && measure.id.value > maxMeasureId {
          maxMeasureId := measure.id.value;
        }
        var id;
        if HasId(measure.id) {
          id := measure.id.value;
        } else {
          id := measureIdCounter;
          measureIdCounter := measureIdCounter + 1;
        }
        measures := measures + [MeasureFromInput(measure, id)];
        assert items[..i + 1][..i] == items[..i];
        i := i + 1;
      }
      assert items[..|items|] == items;
    }
  }
}
