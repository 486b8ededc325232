/** Decoding of the job document's styled-geometry records into additional
    elements and margins, and the synthesised margins record. */
module Codec {
  import opened Wrappers
  import opened Model
  import opened Wire

  /** The metadata `Type` of the synthesised margins record. */
  const MARGINS_TAG := "margins"

  /** The metadata `Type` each element type is written with: the values of
      the application's element-type enumeration, all distinct from the
      margins tag. */
  function TypeTag(t: ElementType): (tag: string)
    ensures tag != MARGINS_TAG
  {
    match t
    case TEXT_BOX => "TEXT_BOX"
    case ATTRIBUTION => "ATTRIBUTION"
    case SCALE => "SCALE"
    case GPX_TRACK => "GPX_TRACK"
  }

  /** Why decoding a record throws. */
  datatype DecodeError =
    | MalformedMetadata          // JSON.parse of the leading comment fails
    | MissingTextSymbolizer      // no TextSymbolizer element to read attributes from
    | MissingLineSymbolizer      // no LineSymbolizer element to read attributes from
    | MarginsGeometryNotIndexable  // the margins corner lookup indexes into undefined

  /** The element type a metadata `Type` selects, if it selects one. */
  function ElementTypeOf(tag: Option<string>): (t: Option<ElementType>)
    ensures t.Some? <==> exists et :: tag == Some(TypeTag(et))
    ensures t.Some? ==> tag == Some(TypeTag(t.value))
  {
    if tag == Some(TypeTag(TEXT_BOX)) then Some(TEXT_BOX)
    else if tag == Some(TypeTag(ATTRIBUTION)) then Some(ATTRIBUTION)
    else if tag == Some(TypeTag(SCALE)) then Some(SCALE)
    else if tag == Some(TypeTag(GPX_TRACK)) then Some(GPX_TRACK)
    else None
  }

  /** Decodes one record into an additional element: None for a record
      without a leading comment or with a metadata type that names no
      element type (the margins record among them). */
  function ConvertUserObjectToAdditionalElement(u: UserObject, freshId: string, now: int, d: StyleDefaults)
    : (r: Result<Option<AdditionalElement>, DecodeError>)
    ensures u.style.header.NoComment? ==> r == Ok(None)
    ensures u.style.header.MalformedJson? ==> r == Err(MalformedMetadata)
    ensures u.style.header.Comment? && ElementTypeOf(u.style.header.metadata.typeTag).None? ==> r == Ok(None)
    ensures r.Ok? && r.value.Some? ==>
      u.style.header.Comment? && u.style.header.metadata.typeTag == Some(TypeTag(r.value.value.Type()))
    ensures r.Err? <==>
      || u.style.header.MalformedJson?
      || (u.style.header.Comment? &&
          match ElementTypeOf(u.style.header.metadata.typeTag)
          case Some(TEXT_BOX) => u.style.textSymbolizer.None?
          case Some(ATTRIBUTION) => u.style.textSymbolizer.None?
          case Some(GPX_TRACK) => u.style.lineSymbolizer.None?
          case _ => false)
    ensures u.style.header.Comment? ==>
      var m := u.style.header.metadata;
      && (ElementTypeOf(m.typeTag) == Some(TEXT_BOX) ==> r == AsFound(ExtractTextElement(u, TextBox, m, freshId, d)))
      && (ElementTypeOf(m.typeTag) == Some(ATTRIBUTION) ==> r == AsFound(ExtractTextElement(u, Attribution, m, freshId, d)))
      && (ElementTypeOf(m.typeTag) == Some(SCALE) ==> r == Ok(Some(ExtractScaleElement(u, m, freshId, d))))
      && (ElementTypeOf(m.typeTag) == Some(GPX_TRACK) ==> r == AsFound(ExtractGpxElement(u, m, freshId, now, d)))
  {
    match u.style.header
    case NoComment => Ok(None)
    case MalformedJson => Err(MalformedMetadata)
    case Comment(m) =>
      match ElementTypeOf(m.typeTag)
      case Some(TEXT_BOX) => AsFound(ExtractTextElement(u, TextBox, m, freshId, d))
      case Some(ATTRIBUTION) => AsFound(ExtractTextElement(u, Attribution, m, freshId, d))
      case Some(SCALE) => Ok(Some(ExtractScaleElement(u, m, freshId, d)))
      case Some(GPX_TRACK) => AsFound(ExtractGpxElement(u, m, freshId, now, d))
      case None => Ok(None)
  }

  /** An extractor's element as a decoded value; its error as it is. */
  function AsFound(r: Result<AdditionalElement, DecodeError>): Result<Option<AdditionalElement>, DecodeError> {
    match r
    case Ok(e) => Ok(Some(e))
    case Err(err) => Err(err)
  }

  /** Decodes a text box or attribution. The position the WKT carries is
      read into inner variables that shadow the outer ones, so the element
      always lands at (0,0). Each absent attribute takes the default text
      style's value; an unknown fontset name takes the default font style. */
  function ExtractTextElement(u: UserObject, kind: TextKind, m: Metadata, freshId: string, d: StyleDefaults)
    : (r: Result<AdditionalElement, DecodeError>)
    ensures r.Err? <==> u.style.textSymbolizer.None?
    ensures r.Err? ==> r.error == MissingTextSymbolizer
    ensures r.Ok? ==>
      var e := r.value;
      var a := u.style.textSymbolizer.value;
      && e.TextElement? && e.kind == kind
      && e.id == (if m.id.Some? then m.id.value else freshId)
      && e.text == (if m.text.Some? then m.text.value else "")
      && e.location == ORIGIN
      && e.textStyle.fontStyle ==
           (if a.fontsetName.Some? && a.fontsetName.value in d.fontStyleByFontsetName
            then d.fontStyleByFontsetName[a.fontsetName.value] else d.text.fontStyle)
      && e.textStyle.fontSize == (if a.size.Some? then a.size.value else d.text.fontSize)
      && e.textStyle.textOrientation == (if a.orientation.Some? then a.orientation.value else d.text.textOrientation)
      && e.textStyle.fontColor.rgbHexValue == (if a.fill.Some? then a.fill.value else d.text.fontColor.rgbHexValue)
      && e.textStyle.fontColor.opacity == (if a.opacity.Some? then a.opacity.value else d.text.fontColor.opacity)
  {
    match u.style.textSymbolizer
    case None => Err(MissingTextSymbolizer)
    case Some(a) =>
      var fontStyle :=
        if a.fontsetName.Some? && a.fontsetName.value in d.fontStyleByFontsetName
        then d.fontStyleByFontsetName[a.fontsetName.value] else d.text.fontStyle;
      var style := TextStyle(
        fontStyle,
        a.size.GetOr(d.text.fontSize),
        a.orientation.GetOr(d.text.textOrientation),
        Color(a.fill.GetOr(d.text.fontColor.rgbHexValue), a.opacity.GetOr(d.text.fontColor.opacity)));
      Ok(TextElement(kind, m.id.GetOr(freshId), m.text.GetOr(""), style, ORIGIN))
  }

  /** Decodes a scale bar: the default scale style at (0,0), whatever the
      style string and the WKT hold. */
  function ExtractScaleElement(u: UserObject, m: Metadata, freshId: string, d: StyleDefaults): (r: AdditionalElement)
    ensures r.ScaleElement?
    ensures r.id == (if m.id.Some? then m.id.value else freshId)
    ensures r.scaleStyle == d.scale && r.location == ORIGIN
  {
    ScaleElement(m.id.GetOr(freshId), d.scale, ORIGIN)
  }

  /** Decodes a GPX track: its file is named by the metadata `File`, holds no
      data and is stamped with the decoding time; absent stroke attributes
      take the default track style's values. */
  function ExtractGpxElement(u: UserObject, m: Metadata, freshId: string, now: int, d: StyleDefaults)
    : (r: Result<AdditionalElement, DecodeError>)
    ensures r.Err? <==> u.style.lineSymbolizer.None?
    ensures r.Err? ==> r.error == MissingLineSymbolizer
    ensures r.Ok? ==>
      var e := r.value;
      var a := u.style.lineSymbolizer.value;
      && e.GpxElement? && e.Type() == GPX_TRACK
      && e.id == (if m.id.Some? then m.id.value else freshId)
      && e.file == GpxFile(m.file, None, now)
      && e.trackStyle.lineWidth == (if a.strokeWidth.Some? then a.strokeWidth.value else d.track.lineWidth)
      && e.trackStyle.lineColor.rgbHexValue == (if a.stroke.Some? then a.stroke.value else d.track.lineColor.rgbHexValue)
      && e.trackStyle.lineColor.opacity == (if a.strokeOpacity.Some? then a.strokeOpacity.value else d.track.lineColor.opacity)
  {
    match u.style.lineSymbolizer
    case None => Err(MissingLineSymbolizer)
    case Some(a) =>
      var style := TrackStyle(
        a.strokeWidth.GetOr(d.track.lineWidth),
        Color(a.stroke.GetOr(d.track.lineColor.rgbHexValue), a.strokeOpacity.GetOr(d.track.lineColor.opacity)));
      Ok(GpxElement(m.id.GetOr(freshId), style, GpxFile(m.file, None, now)))
  }

  /** Whether the corner lookups of the margins decoder evaluate without a
      TypeError: they are skipped for a geometry without coordinates and
      need two rings of at least three vertices on a polygon; on a point or
      a line string the second index lands on a number or on nothing. */
  predicate CornersReadable(g: Geometry) {
    match g
    case Unreadable => true
    case NoCoordinates => true
    case PointGeometry(_, _) => false
    case LineStringGeometry(_) => false
    case PolygonGeometry(rings) => |rings| >= 2 && |rings[0]| >= 3 && |rings[1]| >= 3
  }

  /** The (top, bottom, left, right) values the margins decoder computes from
      the polygon's corners, by position: ring 1 vertex 0 gives (left,
      bottom), the third vertices of both rings give top and right as
      differences. */
  function PositionalMargins(rings: seq<seq<Point>>): (real, real, real, real)
    requires CornersReadable(PolygonGeometry(rings))
  {
    (rings[0][2].y - rings[1][2].y, rings[1][0].y, rings[1][0].x, rings[0][2].x - rings[1][2].x)
  }

  /** Decodes the margins record. The corner values are assigned to inner
      variables that shadow the outer ones, so a margins record always
      decodes to all-zero margins; any other record decodes to None. */
  function ExtractMargins(u: UserObject): (r: Result<Option<Margins>, DecodeError>)
    ensures r.Ok? && r.value.Some? ==> r.value.value == ZERO_MARGINS
    ensures r.Ok? && r.value.Some? <==>
      u.style.header.Comment? && u.style.header.metadata.typeTag == Some(MARGINS_TAG) && CornersReadable(u.wellKnownText)
    ensures r.Err? <==>
      || u.style.header.MalformedJson?
      || (u.style.header.Comment? && u.style.header.metadata.typeTag == Some(MARGINS_TAG) && !CornersReadable(u.wellKnownText))
  {
    match u.style.header
    case NoComment => Ok(None)
    case MalformedJson => Err(MalformedMetadata)
    case Comment(m) =>
      if m.typeTag == Some(MARGINS_TAG) then
        if CornersReadable(u.wellKnownText) then Ok(Some(ZERO_MARGINS)) else Err(MarginsGeometryNotIndexable)
      else Ok(None)
  }

  /** The margins record of a project: a white fill over the page minus the
      printable area, as a polygon whose outer ring is the page and whose
      inner ring is the area inside the margins, both closed and traversed
      from the origin corner. Without margin fields the WKT holds `NaN` and
      `undefined` and no longer parses. */
  function GenerateMargins(p: MapProject, id: string): (u: UserObject)
    ensures u.style.header == Comment(Metadata(Some(id), Some(MARGINS_TAG), None, None))
    ensures u.style.polygonSymbolizer == Some(PolygonAttributes("white", 1.0))
    ensures u.style.textSymbolizer.None? && u.style.lineSymbolizer.None?
    ensures p.margins.None? ==> u.wellKnownText == Unreadable
    ensures p.margins.Some? ==>
      var w, h := p.widthInMm as real, p.heightInMm as real;
      var m := p.margins.value;
      && u.wellKnownText.PolygonGeometry? && |u.wellKnownText.rings| == 2
      && u.wellKnownText.rings[0] == [Point(0.0, 0.0), Point(0.0, h), Point(w, h), Point(w, 0.0), Point(0.0, 0.0)]
      && u.wellKnownText.rings[1] ==
           [Point(m.left as real, m.bottom as real), Point(m.left as real, h - m.top as real),
            Point(w - m.right as real, h - m.top as real), Point(w - m.right as real, m.bottom as real),
            Point(m.left as real, m.bottom as real)]
  {
    var style := Style(Comment(Metadata(Some(id), Some(MARGINS_TAG), None, None)), None, None, Some(PolygonAttributes("white", 1.0)));
    match p.margins
    case None => UserObject(style, Unreadable)
    case Some(m) =>
      var outerWidth, outerHeight := p.widthInMm as real, p.heightInMm as real;
      var innerWidth1, innerWidth2 := m.left as real, outerWidth - m.right as real;
      var innerHeight1, innerHeight2 := m.bottom as real, outerHeight - m.top as real;
      UserObject(style, PolygonGeometry([
        [Point(0.0, 0.0), Point(0.0, outerHeight), Point(outerWidth, outerHeight), Point(outerWidth, 0.0), Point(0.0, 0.0)],
        [Point(innerWidth1, innerHeight1), Point(innerWidth1, innerHeight2), Point(innerWidth2, innerHeight2),
         Point(innerWidth2, innerHeight1), Point(innerWidth1, innerHeight1)]]))
  }

  /** The positional corner arithmetic inverts the polygon of
      `GenerateMargins`: it yields the project's (top, bottom, left, right). */
  lemma MarginsAt(p: MapProject, id: string)
    requires p.margins.Some?
    ensures GenerateMargins(p, id).wellKnownText.PolygonGeometry?
    ensures CornersReadable(GenerateMargins(p, id).wellKnownText)
    ensures PositionalMargins(GenerateMargins(p, id).wellKnownText.rings) ==
      (p.margins.value.top as real, p.margins.value.bottom as real, p.margins.value.left as real, p.margins.value.right as real)
  {
  }

  /** What is observed instead: the margins record of any project decodes to
      all-zero margins. */
  lemma MarginsRecordDecodesToZero(p: MapProject, id: string)
    ensures ExtractMargins(GenerateMargins(p, id)) == Ok(Some(ZERO_MARGINS))
  {
  }

  /** The margins record never decodes to an additional element. */
  lemma MarginsRecordIsNoElement(p: MapProject, id: string, freshId: string, now: int, d: StyleDefaults)
    ensures ConvertUserObjectToAdditionalElement(GenerateMargins(p, id), freshId, now, d) == Ok(None)
  {
  }

  /** The record a typed element is written as: metadata `{ID, Type, Text}`
      and a text symbolizer for text, `{ID, Type}` and a point for a scale
      bar, `{ID, Type, File}` and a line symbolizer for a track (whose
      geometry travels as an uploaded file). `fontsetName` names the fontset
      of a font style. */
  function EncodeElement(e: AdditionalElement, fontsetName: FontStyle -> string): (u: UserObject)
    ensures u.style.header.Comment?
    ensures u.style.header.metadata == Metadata(
      Some(e.id), Some(TypeTag(e.Type())),
      if e.TextElement? then Some(e.text) else None,
      if e.GpxElement? then e.file.name else None)
  {
    var meta := Metadata(Some(e.id), Some(TypeTag(e.Type())), None, None);
    match e
    case TextElement(_, id, text, s, loc) =>
      UserObject(
        Style(Comment(meta.(text := Some(text))),
              Some(TextAttributes(Some(fontsetName(s.fontStyle)), Some(s.fontSize), Some(s.textOrientation),
                                  Some(s.fontColor.rgbHexValue), Some(s.fontColor.opacity))),
              None, None),
        PointGeometry(loc.x, loc.y))
    case ScaleElement(id, _, loc) =>
      UserObject(Style(Comment(meta), None, None, None), PointGeometry(loc.x, loc.y))
    case GpxElement(id, s, file) =>
      UserObject(
        Style(Comment(meta.(file := file.name)), None,
              Some(LineAttributes(Some(s.lineWidth), Some(s.lineColor.rgbHexValue), Some(s.lineColor.opacity))), None),
        Unreadable)
  }

  /** An element as it comes back from the wire: text and scale elements at
      (0,0), a scale bar in the default scale style, a track's file without
      data and stamped with the decoding time. */
  function Reloaded(e: AdditionalElement, now: int, d: StyleDefaults): AdditionalElement {
    match e
    case TextElement(kind, id, text, s, _) => TextElement(kind, id, text, s, ORIGIN)
    case ScaleElement(id, _, _) => ScaleElement(id, d.scale, ORIGIN)
    case GpxElement(id, s, file) => GpxElement(id, s, GpxFile(file.name, None, now))
  }

  /** The fontset name an element is written with reads back as its font. */
  ghost predicate FontRoundTrips(e: AdditionalElement, d: StyleDefaults, fontsetName: FontStyle -> string) {
    e.TextElement? ==>
      fontsetName(e.textStyle.fontStyle) in d.fontStyleByFontsetName &&
      d.fontStyleByFontsetName[fontsetName(e.textStyle.fontStyle)] == e.textStyle.fontStyle
  }

  /** Decoding an encoded element gives it back, except for the fields that
      do not travel: positions, the scale bar's style and the track's data. */
  lemma DecodeEncode(e: AdditionalElement, fontsetName: FontStyle -> string, freshId: string, now: int, d: StyleDefaults)
    requires FontRoundTrips(e, d, fontsetName)
    ensures ConvertUserObjectToAdditionalElement(EncodeElement(e, fontsetName), freshId, now, d) == Ok(Some(Reloaded(e, now, d)))
    ensures ExtractMargins(EncodeElement(e, fontsetName)) == Ok(None)
  {
    var u := EncodeElement(e, fontsetName);
    assert ElementTypeOf(Some(TypeTag(e.Type()))) == Some(e.Type());
    match e
    case TextElement(kind, id, text, s, loc) =>
      var r := ExtractTextElement(u, kind, u.style.header.metadata, freshId, d);
      assert r.Ok?;
      assert r.value.textStyle == s;
    case ScaleElement(_, _, _) =>
    case GpxElement(_, s, _) =>
      var r := ExtractGpxElement(u, u.style.header.metadata, freshId, now, d);
      assert r.Ok?;
      assert r.value.trackStyle == s;
  }

  /** Decoding is insensitive to the geometry of text, scale and track
      records: two records with the same style decode alike. */
  lemma DecodeIgnoresGeometry(u: UserObject, g: Geometry, freshId: string, now: int, d: StyleDefaults)
    ensures ConvertUserObjectToAdditionalElement(u.(wellKnownText := g), freshId, now, d) ==
            ConvertUserObjectToAdditionalElement(u, freshId, now, d)
  {
  }
}
