/** The application's own entities: map projects, their overlay elements and
    the references kept in the project list. Numbers are exact: millimetres
    on the page are integers, positions and colours' opacities are reals. */
module Model {
  import opened Wrappers

  /** The map-scale denominator, 50000 for 1:50000. */
  type ReductionFactor = n: int | n > 0 witness 1

  /** A map scale, known to the application by its reduction factor. */
  datatype Scale = Scale(reductionFactor: ReductionFactor)

  const RATIO_1_50000 := Scale(50000)

  datatype MapProjectState =
    | NONEXISTENT
    | NOT_RENDERED
    | RENDERING_REQUESTED
    | RENDERING_IN_PROGRESS
    | RENDERING_SUCCESSFUL
    | RENDERING_UNSUCCESSFUL

  datatype Center = Center(latitude: real, longitude: real)

  /** A position in millimetres from the page's origin, or a WKT vertex. */
  datatype Point = Point(x: real, y: real)

  const ORIGIN := Point(0.0, 0.0)

  datatype Color = Color(rgbHexValue: string, opacity: real)

  /** A font style of the application; the table from fontset names to font
      styles is handed in through `StyleDefaults`. */
  datatype FontStyle = FontStyle(name: string)

  datatype TextStyle = TextStyle(fontStyle: FontStyle, fontSize: int, textOrientation: int, fontColor: Color)

  datatype TrackStyle = TrackStyle(lineWidth: real, lineColor: Color)

  datatype ScaleStyle = ScaleStyle(lineWidth: real, lineColor: Color)

  /** The fixed styles the application falls back to, and its table from
      fontset names to font styles. */
  datatype StyleDefaults = StyleDefaults(
    text: TextStyle,
    scale: ScaleStyle,
    track: TrackStyle,
    fontStyleByFontsetName: map<string, FontStyle>)

  datatype ElementType = TEXT_BOX | ATTRIBUTION | SCALE | GPX_TRACK

  /** The two text-like element types. */
  datatype TextKind = TextBox | Attribution

  /** An uploaded track file: the name it travels under, its content while it
      is only held locally, and the time it was last modified. */
  datatype GpxFile = GpxFile(name: Option<string>, data: Option<string>, modified: int)

  datatype AdditionalElement =
    | TextElement(kind: TextKind, id: string, text: string, textStyle: TextStyle, location: Point)
    | ScaleElement(id: string, scaleStyle: ScaleStyle, location: Point)
    | GpxElement(id: string, trackStyle: TrackStyle, file: GpxFile)
  {
    function Type(): ElementType {
      match this
      case TextElement(kind, _, _, _, _) => if kind == TextBox then TEXT_BOX else ATTRIBUTION
      case ScaleElement(_, _, _) => SCALE
      case GpxElement(_, _, _) => GPX_TRACK
    }
  }

  datatype Margins = Margins(top: int, bottom: int, left: int, right: int)

  const ZERO_MARGINS := Margins(0, 0, 0, 0)
  const DEFAULT_MARGINS := Margins(8, 8, 8, 8)

  datatype MapOptions = MapOptions(fileFormat: string, mapStyle: string)

  /** A map project. `margins` is None while the four margin fields are
      absent, as they are on a project created in the editor. */
  datatype MapProject = MapProject(
    id: Option<string>,
    name: string,
    state: Option<MapProjectState>,
    scale: Scale,
    center: Center,
    widthInMm: int,
    heightInMm: int,
    margins: Option<Margins>,
    options: MapOptions,
    additionalElements: seq<AdditionalElement>,
    modifiedLocally: bool)

  datatype MapProjectReference = MapProjectReference(id: string, name: string, state: Option<MapProjectState>)
}
