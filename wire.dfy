/** The remote rendering job document and its styled-geometry records, as the
    decoders see them once the foreign parsers have run: the style string as
    the result of matching its leading comment and parsing its JSON and its
    symbolizer element, the geometry as the result of parsing the WKT text. */
module Wire {
  import opened Wrappers
  import Model

  /** The JSON object of a record's leading comment. A JSON value that is
      not an object (`null`, a number) reads as a record with every field
      absent. */
  datatype Metadata = Metadata(id: Option<string>, typeTag: Option<string>, text: Option<string>, file: Option<string>)

  /** The style string's leading `<!--...-->` comment: missing, present but
      not valid JSON, or present with its parsed metadata. */
  datatype Header = NoComment | MalformedJson | Comment(metadata: Metadata)

  /** The attributes of a `TextSymbolizer` element, each absent or parsed. */
  datatype TextAttributes = TextAttributes(
    fontsetName: Option<string>,
    size: Option<int>,
    orientation: Option<int>,
    fill: Option<string>,
    opacity: Option<real>)

  /** The attributes of a `LineSymbolizer` element, each absent or parsed. */
  datatype LineAttributes = LineAttributes(strokeWidth: Option<real>, stroke: Option<string>, strokeOpacity: Option<real>)

  /** The attributes of a `PolygonSymbolizer` element. */
  datatype PolygonAttributes = PolygonAttributes(fill: string, fillOpacity: real)

  /** A record's style string: its header and the first element of each
      symbolizer kind the XML parser finds in it. */
  datatype Style = Style(
    header: Header,
    textSymbolizer: Option<TextAttributes>,
    lineSymbolizer: Option<LineAttributes>,
    polygonSymbolizer: Option<PolygonAttributes>)

  /** A record's WKT text after parsing: unreadable (the parser gives no
      geometry), a geometry without coordinates (a collection), or a point,
      line string or polygon with its coordinates. */
  datatype Geometry =
    | Unreadable
    | NoCoordinates
    | PointGeometry(x: real, y: real)
    | LineStringGeometry(points: seq<Model.Point>)
    | PolygonGeometry(rings: seq<seq<Model.Point>>)

  /** One styled-geometry record of the job document. */
  datatype UserObject = UserObject(style: Style, wellKnownText: Geometry)

  /** The attributes of the job document. */
  datatype JobAttributes = JobAttributes(
    fileformat: string,
    style: string,
    projection: string,
    scale: int,
    latitude: real,
    longitude: real,
    printWidth: int,
    printHeight: int,
    hideLayers: string,
    userObjects: seq<UserObject>)

  /** The job document `{Data: {Type, ID, Attributes}}`. */
  datatype MapRenderingJob = MapRenderingJob(dataType: string, id: Option<string>, attributes: JobAttributes)
}
