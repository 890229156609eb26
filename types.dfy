/** The shapes of the annotation document and of the settings records
    (src/types/index.ts and the records declared in src/stores/settings.ts).
    Coordinates are exact reals; ids and colour indices are integers. */
module Types {

  datatype Option<+T> = None | Some(value: T)

  /** A world-space point: pixel coordinates of the uploaded image. */
  datatype Point = Point(x: real, y: real)

  datatype Perimeter = Perimeter(points: seq<Point>, closed: bool)

  /** Every part of the scale line is optional until the user has drawn it
      and typed its length. */
  datatype ScaleLine = ScaleLine(start: Option<Point>, end: Option<Point>, meters: Option<real>)

  /** An axis-aligned coverage zone. `coverageRadius` is in meters. */
  datatype Zone = Zone(
    id: int,
    x: real, y: real, w: real, h: real,
    labelText: string,  // the source field `label` (a reserved word here)
    ceilingHeight: real,
    shelfHeight: real,
    coverageRadius: real,
    showCoverage: bool,
    colorIndex: int)

  /** An antenna; `zoneId` is None for a manually placed one. */
  datatype Antenna = Antenna(id: int, x: real, y: real, labelText: string, zoneId: Option<int>)

  datatype Measure = Measure(id: int, start: Point, end: Point)

  datatype GridSnapSettings = GridSnapSettings(
    enabled: bool,
    orthogonalSnapAngle: real,
    diagonalSnapAngle: real,
    enableDiagonalSnap: bool)

  /** A `Partial<GridSnapSettings>`: None for a field that is not supplied. */
  datatype GridSnapUpdate = GridSnapUpdate(
    enabled: Option<bool>,
    orthogonalSnapAngle: Option<real>,
    diagonalSnapAngle: Option<real>,
    enableDiagonalSnap: Option<bool>)

  datatype ExportOptions = ExportOptions(
    includePerimeter: bool,
    includeScale: bool,
    includeZones: bool,
    includeAntennas: bool,
    includeMeasurements: bool)
}
