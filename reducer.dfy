/** The editor's state machine: the state the user interface keeps (the
    project list, the open project, the map centre and the selected
    element) and the new state each dispatched event produces. */
module Reducer {
  import opened Wrappers
  import opened Model
  import opened Seqs

  datatype UiState = UiState(
    mapProjectReferences: seq<MapProjectReference>,
    currentMapProject: Option<MapProject>,
    mapCenter: Center,
    selectedAdditionalElementId: Option<string>)

  /** The events the editor dispatches. The ids a handler draws at random
      travel with the event: `attributionId` for the attribution a new
      project starts with, `newId` for an added element. */
  datatype Event =
    | MapProjectReferencesLoaded(mapProjectReferences: seq<MapProjectReference>)
    | CreateMapProject(name: string, attributionId: string)
    | MapProjectLoaded(mapProject: MapProject)
    | CloseMapProject
    | MapProjectDeleted(id: string)
    | MapProjectUploaded(mapProjectReference: MapProjectReference)
    | UpdateMapName(name: string)
    | UpdateCenterCoordinates(center: Center)
    | UpdateSelectedArea(widthInM: real, heightInM: real, scale: Scale)
    | UpdateMapOptions(options: MapOptions)
    | MapProjectStateUpdated(id: string, mapProjectState: MapProjectState)
    | AddAdditionalElement(elementType: ElementType, newId: string)
    | SelectAdditionalElement(selectedId: Option<string>)
    | RemoveAdditionalElement(id: string)
    | UpdateAdditionalElement(element: AdditionalElement)

  /** How a handler goes wrong: it reads a property of an absent project or
      of the absent element created for a scale bar or a track (a TypeError
      is thrown), or it builds a project object out of the absent project
      that has only the fields it sets. */
  datatype Fault = Throws | PartialProject

  const FILE_FORMAT_SVG := "SVG"
  const MAP_STYLE_OSM_CARTO := "OSM_CARTO"
  const NEW_TEXT := "New Text Element"
  const ATTRIBUTION_TEXT := "${attribution}"

  /** JavaScript's `Math.round`: the nearest integer, halves rounded up. */
  function Round(x: real): (n: int)
    ensures x - 0.5 < n as real <= x + 0.5
  {
    (x + 0.5).Floor
  }

  /** Rounding a whole number leaves it. */
  lemma RoundWhole(k: int)
    ensures Round(k as real) == k
  {
  }

  /** Half of a whole number rounds to the ceiling of the half. */
  lemma RoundHalf(n: int)
    ensures Round(n as real / 2.0) == (n + 1) / 2
  {
    var r := Round(n as real / 2.0);
    assert n - 1 < 2 * r <= n + 1;
  }

  const BILLION: real := 1000000000.0

  /** lodash `round(x, 9)`: the nearest multiple of 10^-9, halves rounded up. */
  function Round9(x: real): (r: real)
    ensures x - 0.5 / BILLION < r <= x + 0.5 / BILLION
    ensures r == Round(x * BILLION) as real / BILLION
  {
    Round(x * BILLION) as real / BILLION
  }

  /** A multiple of 10^-9 is already rounded. */
  lemma Round9Fixes(k: int)
    ensures Round9(k as real / BILLION) == k as real / BILLION
  {
    assert (k as real / BILLION) * BILLION == k as real;
    RoundWhole(k);
  }

  /** `Math.min(Math.max(x, lo), hi)` over the reals. */
  function Clamp(x: real, lo: real, hi: real): (r: real)
    ensures r <= hi && (lo <= hi ==> lo <= r)
    ensures lo <= x <= hi ==> r == x
    ensures lo <= hi && x < lo ==> r == lo
    ensures x > hi ==> r == hi
  {
    var atLeast := if x > lo then x else lo;
    if atLeast < hi then atLeast else hi
  }

  /** The same clamp on whole numbers, whose result is again whole. */
  function ClampInt(n: int, lo: int, hi: int): (r: int)
    ensures r <= hi && (lo <= hi ==> lo <= r)
    ensures lo <= n <= hi ==> r == n
    ensures lo <= hi && n < lo ==> r == lo
    ensures n > hi ==> r == hi
  {
    Clamp(n as real, lo as real, hi as real).Floor
  }

  /** A centre the editor can show: latitude within [-85, 85] and longitude
      within [-180, 180]. */
  predicate InBounds(c: Center) {
    -85.0 <= c.latitude <= 85.0 && -180.0 <= c.longitude <= 180.0
  }

  /** The centre the editor stores for a requested one: each coordinate
      rounded to nine decimals, then clamped into bounds. */
  function RoundedCoordinates(c: Center): (r: Center)
    ensures InBounds(r)
    ensures r.latitude == Clamp(Round9(c.latitude), -85.0, 85.0)
    ensures r.longitude == Clamp(Round9(c.longitude), -180.0, 180.0)
    ensures InBounds(c) ==>
      && c.latitude - 0.5 / BILLION < r.latitude <= c.latitude + 0.5 / BILLION
      && c.longitude - 0.5 / BILLION < r.longitude <= c.longitude + 0.5 / BILLION
  {
    Center(Clamp(Round9(c.latitude), -85.0, 85.0), Clamp(Round9(c.longitude), -180.0, 180.0))
  }

  /** Rounding and clamping one coordinate twice is doing it once. */
  lemma {:induction false} ClampRound9Idempotent(x: real, bound: int)
    requires bound > 0
    ensures var b := bound as real;
      Clamp(Round9(Clamp(Round9(x), -b, b)), -b, b) == Clamp(Round9(x), -b, b)
  {
    var b := bound as real;
    var v := Clamp(Round9(x), -b, b);
    if v == Round9(x) {
      Round9Fixes(Round(x * BILLION));
    } else if v == b {
      assert b == (bound * 1000000000) as real / BILLION;
      Round9Fixes(bound * 1000000000);
    } else {
      assert v == -b;
      assert -b == (-bound * 1000000000) as real / BILLION;
      Round9Fixes(-bound * 1000000000);
    }
  }

  /** A stored centre is a fixed point: requesting it again stores it
      unchanged. */
  lemma RoundedCoordinatesIdempotent(c: Center)
    ensures RoundedCoordinates(RoundedCoordinates(c)) == RoundedCoordinates(c)
  {
    ClampRound9Idempotent(c.latitude, 85);
    ClampRound9Idempotent(c.longitude, 180);
  }

  /** Out-of-range coordinates saturate at the bounds, and in-range ones are
      rounded to nine decimals. */
  lemma RoundedCoordinatesExamples()
    ensures RoundedCoordinates(Center(90.0, -200.0)) == Center(85.0, -180.0)
    ensures RoundedCoordinates(Center(12.3456789012, 100.0)) == Center(12.345678901, 100.0)
  {
    assert Round(90.0 * BILLION) == 90000000000;
    assert Round(-200.0 * BILLION) == -200000000000;
    assert Round(12.3456789012 * BILLION) == 12345678901;
    assert Round(100.0 * BILLION) == 100000000000;
  }

  /** The new element for a type: a text box in the middle of the page
      (which reads the open project's page size, so it throws without one),
      the attribution placeholder at (40, 6) in any case, and nothing for a
      scale bar or a track. Both texts get the default text style. */
  function CreateAdditionalElement(p: Option<MapProject>, t: ElementType, id: string, textStyle: TextStyle)
    : (r: Result<Option<AdditionalElement>, Fault>)
    ensures r.Err? <==> t == TEXT_BOX && p.None?
    ensures r == Ok(None) <==> t == SCALE || t == GPX_TRACK
    ensures r.Ok? && r.value.Some? ==> r.value.value.Type() == t && r.value.value.id == id
    ensures t == ATTRIBUTION ==> r == Ok(Some(TextElement(Attribution, id, ATTRIBUTION_TEXT, textStyle, Point(40.0, 6.0))))
    ensures t == TEXT_BOX && p.Some? ==>
      var w, h := p.value.widthInMm, p.value.heightInMm;
      r == Ok(Some(TextElement(TextBox, id, NEW_TEXT, textStyle, Point(((w + 1) / 2) as real, ((h + 1) / 2) as real))))
  {
    match t
    case TEXT_BOX =>
      if p.None? then Err(Throws)
      else
        var w, h := p.value.widthInMm, p.value.heightInMm;
        RoundHalf(w);
        RoundHalf(h);
        Ok(Some(TextElement(TextBox, id, NEW_TEXT, textStyle,
          Point(Round(w as real / 2.0) as real, Round(h as real / 2.0) as real))))
    case ATTRIBUTION => Ok(Some(TextElement(Attribution, id, ATTRIBUTION_TEXT, textStyle, Point(40.0, 6.0))))
    case _ => Ok(None)
  }

  /** The open project has the given id (an open project without an id has
      none). */
  predicate IsCurrent(s: UiState, id: string) {
    s.currentMapProject.Some? && s.currentMapProject.value.id == Some(id)
  }

  function RefIdIs(id: string): MapProjectReference -> bool {
    (r: MapProjectReference) => r.id == id
  }

  function RefIdIsNot(id: string): MapProjectReference -> bool {
    (r: MapProjectReference) => r.id != id
  }

  function ElementIdIsNot(id: string): AdditionalElement -> bool {
    (e: AdditionalElement) => e.id != id
  }

  function RefId(r: MapProjectReference): string { r.id }

  function ElementId(e: AdditionalElement): string { e.id }

  /** A new project: no id, A4 portrait (210 x 297 mm) at 1:50000, SVG in the
      OSM Carto style, not rendered, modified locally, centred where the map
      is, no margin fields, and the attribution as its only element. */
  function OnCreateMapProject(s: UiState, name: string, attributionId: string, textStyle: TextStyle): (t: UiState)
    ensures t.mapProjectReferences == s.mapProjectReferences && t.mapCenter == s.mapCenter
    ensures t.selectedAdditionalElementId == s.selectedAdditionalElementId
    ensures t.currentMapProject.Some?
    ensures var p := t.currentMapProject.value;
      && p.id.None? && p.name == name && p.state == Some(NOT_RENDERED) && p.modifiedLocally
      && p.center == s.mapCenter && p.widthInMm == 210 && p.heightInMm == 297 && p.scale == RATIO_1_50000
      && p.options == MapOptions(FILE_FORMAT_SVG, MAP_STYLE_OSM_CARTO) && p.margins.None?
      && p.additionalElements == [TextElement(Attribution, attributionId, ATTRIBUTION_TEXT, textStyle, Point(40.0, 6.0))]
  {
    var p := MapProject(None, name, Some(NOT_RENDERED), RATIO_1_50000, s.mapCenter, 210, 297, None,
                        MapOptions(FILE_FORMAT_SVG, MAP_STYLE_OSM_CARTO), [], true);
    var attribution := CreateAdditionalElement(Some(p), ATTRIBUTION, attributionId, textStyle).value.value;
    s.(currentMapProject := Some(p.(additionalElements := [attribution])))
  }

  /** Deleting a project removes every reference with its id, keeping the
      others in order, and closes the open project when it is the one. */
  function OnMapProjectDeleted(s: UiState, id: string): (t: UiState)
    ensures t.currentMapProject == if IsCurrent(s, id) then None else s.currentMapProject
    ensures forall r :: r in t.mapProjectReferences <==> r in s.mapProjectReferences && r.id != id
    ensures t.mapProjectReferences == Filter(RefIdIsNot(id), s.mapProjectReferences)
    ensures t.mapCenter == s.mapCenter && t.selectedAdditionalElementId == s.selectedAdditionalElementId
  {
    forall r ensures r in Filter(RefIdIsNot(id), s.mapProjectReferences) <==> r in s.mapProjectReferences && r.id != id {
      FilterMembership(RefIdIsNot(id), s.mapProjectReferences, r);
    }
    s.(currentMapProject := if IsCurrent(s, id) then None else s.currentMapProject,
       mapProjectReferences := Filter(RefIdIsNot(id), s.mapProjectReferences))
  }

  /** After an upload the open project keeps its id if it has a non-empty
      one and otherwise takes the reference's, and is no longer modified
      locally; the reference is appended unless one with its id is listed. */
  function OnMapProjectUploaded(s: UiState, ref: MapProjectReference): (r: Result<UiState, Fault>)
    ensures r.Err? <==> s.currentMapProject.None?
    ensures r.Ok? ==>
      var t, p := r.value, s.currentMapProject.value;
      && t.currentMapProject == Some(p.(id := if p.id.Some? && p.id.value != "" then p.id else Some(ref.id), modifiedLocally := false))
      && (if exists x :: x in s.mapProjectReferences && x.id == ref.id
          then t.mapProjectReferences == s.mapProjectReferences
          else t.mapProjectReferences == s.mapProjectReferences + [ref])
      && (exists x :: x in t.mapProjectReferences && x.id == ref.id)
      && t.mapCenter == s.mapCenter && t.selectedAdditionalElementId == s.selectedAdditionalElementId
  {
    if s.currentMapProject.None? then Err(Throws)
    else
      var p := s.currentMapProject.value;
      var refs := s.mapProjectReferences;
      FilterEmpty(RefIdIs(ref.id), refs);
      assert ref in refs + [ref];
      Ok(s.(currentMapProject := Some(p.(id := if p.id.Some? && p.id.value != "" then p.id else Some(ref.id), modifiedLocally := false)),
            mapProjectReferences := refs + (if |Filter(RefIdIs(ref.id), refs)| == 0 then [ref] else [])))
  }

  /** The reference renamed when it is the open project's. */
  function Renamed(current: Option<string>, name: string): MapProjectReference -> MapProjectReference {
    (r: MapProjectReference) => if Some(r.id) == current then r.(name := name) else r
  }

  /** Renaming renames the references with the open project's id and
      nothing else, not even the open project. Without an open project it
      throws as soon as there is a reference to compare. */
  function OnUpdateMapName(s: UiState, name: string): (r: Result<UiState, Fault>)
    ensures r.Err? <==> s.currentMapProject.None? && s.mapProjectReferences != []
    ensures r.Ok? ==>
      var t, refs := r.value, s.mapProjectReferences;
      && t.currentMapProject == s.currentMapProject
      && |t.mapProjectReferences| == |refs|
      && (forall i :: 0 <= i < |refs| ==>
            t.mapProjectReferences[i] == if IsCurrent(s, refs[i].id) then refs[i].(name := name) else refs[i])
      && t.mapCenter == s.mapCenter && t.selectedAdditionalElementId == s.selectedAdditionalElementId
  {
    if s.currentMapProject.None? && s.mapProjectReferences != [] then Err(Throws)
    else
      var current := if s.currentMapProject.Some? then s.currentMapProject.value.id else None;
      Ok(s.(mapProjectReferences := Map(Renamed(current, name), s.mapProjectReferences)))
  }

  /** Moving the map stores the rounded, clamped centre, and moves the open
      project there too, marking it modified. */
  function OnUpdateCenterCoordinates(s: UiState, c: Center): (t: UiState)
    ensures t.mapCenter == RoundedCoordinates(c) && InBounds(t.mapCenter)
    ensures t.currentMapProject ==
      if s.currentMapProject.None? then None
      else Some(s.currentMapProject.value.(center := t.mapCenter, modifiedLocally := true))
    ensures t.mapProjectReferences == s.mapProjectReferences
    ensures t.selectedAdditionalElementId == s.selectedAdditionalElementId
  {
    var rounded := RoundedCoordinates(c);
    s.(mapCenter := rounded,
       currentMapProject := if s.currentMapProject.Some?
         then Some(s.currentMapProject.value.(center := rounded, modifiedLocally := true))
         else s.currentMapProject)
  }

  /** The page size for a selected area: metres on the ground over the
      reduction factor, in millimetres, rounded and clamped. */
  function PageMm(m: real, scale: Scale, lo: int, hi: int): (mm: int)
    ensures mm <= hi && (lo <= hi ==> lo <= mm)
    ensures var n := Round(m / scale.reductionFactor as real * 1000.0);
      && (lo <= n <= hi ==> mm == n)
      && (lo <= hi && n < lo ==> mm == lo)
      && (n > hi ==> mm == hi)
  {
    ClampInt(Round(m / scale.reductionFactor as real * 1000.0), lo, hi)
  }

  /** Selecting an area sets the page size (width within [50, 3000] mm,
      height within [50, 2500] mm) and the scale, marking the project
      modified; nothing else changes. */
  function OnUpdateSelectedArea(s: UiState, widthInM: real, heightInM: real, scale: Scale): (r: Result<UiState, Fault>)
    ensures r.Err? <==> s.currentMapProject.None?
    ensures r.Ok? ==>
      var t, p := r.value, s.currentMapProject.value;
      && t.currentMapProject.Some?
      && var q := t.currentMapProject.value;
      && 50 <= q.widthInMm <= 3000 && 50 <= q.heightInMm <= 2500
      && q == p.(widthInMm := PageMm(widthInM, scale, 50, 3000), heightInMm := PageMm(heightInM, scale, 50, 2500),
                 scale := scale, modifiedLocally := true)
      && t == s.(currentMapProject := t.currentMapProject)
  {
    if s.currentMapProject.None? then Err(PartialProject)
    else
      var p := s.currentMapProject.value;
      Ok(s.(currentMapProject := Some(p.(
        widthInMm := PageMm(widthInM, scale, 50, 3000),
        heightInMm := PageMm(heightInM, scale, 50, 2500),
        scale := scale,
        modifiedLocally := true))))
  }

  /** A page size in range survives the round trip through ground metres:
      selecting the ground length that `mm` millimetres cover at a scale
      gives back `mm`. */
  lemma PageMmRoundTrip(mm: int, scale: Scale, lo: int, hi: int)
    requires lo <= mm <= hi
    ensures PageMm(mm as real * scale.reductionFactor as real / 1000.0, scale, lo, hi) == mm
  {
    var r := scale.reductionFactor as real;
    var m := mm as real * r / 1000.0;
    assert m / r * r == m;
    assert m / r * 1000.0 == mm as real;
    RoundWhole(mm);
    assert Round(m / r * 1000.0) == mm;
    assert PageMm(m, scale, lo, hi) == ClampInt(mm, lo, hi);
    assert ClampInt(mm, lo, hi) == mm;
    assert m == mm as real * scale.reductionFactor as real / 1000.0;
  }

  /** 1000 m at 1:5 would need 200000 mm and is cut to 3000 mm; 10 m at
      1:50000 would need 0.2 mm and is raised to 50 mm; 10500 m at 1:50000
      is 210 mm. */
  lemma PageMmExamples()
    ensures PageMm(1000.0, Scale(5), 50, 3000) == 3000
    ensures PageMm(10.0, RATIO_1_50000, 50, 3000) == 50
    ensures PageMm(10500.0, RATIO_1_50000, 50, 3000) == 210
  {
    assert Round(1000.0 / 5.0 * 1000.0) == 200000;
    assert Round(10.0 / 50000.0 * 1000.0) == 0;
    assert Round(10500.0 / 50000.0 * 1000.0) == 210;
  }

  /** Selecting the area a page of W x H mm covers at a scale gives back a
      page of W x H mm, for every page size the editor allows. */
  lemma SelectedAreaRoundTrip(s: UiState, w: int, h: int, scale: Scale, textStyle: TextStyle)
    requires s.currentMapProject.Some?
    requires 50 <= w <= 3000 && 50 <= h <= 2500
    ensures var r := scale.reductionFactor as real;
      var t := Step(s, UpdateSelectedArea(w as real * r / 1000.0, h as real * r / 1000.0, scale), textStyle);
      t.Ok? && t.value.currentMapProject.Some?
      && t.value.currentMapProject.value.widthInMm == w && t.value.currentMapProject.value.heightInMm == h
  {
    PageMmRoundTrip(w, scale, 50, 3000);
    PageMmRoundTrip(h, scale, 50, 2500);
  }

  /** The reference with the new render state when its id matches. */
  function WithState(id: string, st: MapProjectState): MapProjectReference -> MapProjectReference {
    (r: MapProjectReference) => if r.id == id then r.(state := Some(st)) else r
  }

  /** A reported render state is set on every reference with the id and on
      the open project when it is the one; nothing else changes. */
  function OnMapProjectStateUpdated(s: UiState, id: string, st: MapProjectState): (t: UiState)
    ensures |t.mapProjectReferences| == |s.mapProjectReferences|
    ensures forall i :: 0 <= i < |s.mapProjectReferences| ==>
      var ref := s.mapProjectReferences[i];
      t.mapProjectReferences[i] == if ref.id == id then ref.(state := Some(st)) else ref
    ensures t.currentMapProject ==
      if IsCurrent(s, id) then Some(s.currentMapProject.value.(state := Some(st))) else s.currentMapProject
    ensures t.mapCenter == s.mapCenter && t.selectedAdditionalElementId == s.selectedAdditionalElementId
  {
    s.(mapProjectReferences := Map(WithState(id, st), s.mapProjectReferences),
       currentMapProject := if IsCurrent(s, id) then Some(s.currentMapProject.value.(state := Some(st))) else s.currentMapProject)
  }

  /** Adding an element appends the new one after the existing ones, marks
      the project modified and selects the new id. The attribution can be
      added, and selected, without an open project; a text box needs one;
      a scale bar or a track is never created, and the handler throws. */
  function OnAddAdditionalElement(s: UiState, t: ElementType, newId: string, textStyle: TextStyle)
    : (r: Result<UiState, Fault>)
    ensures r.Err? <==> t == SCALE || t == GPX_TRACK || (t == TEXT_BOX && s.currentMapProject.None?)
    ensures r.Ok? ==>
      var u := r.value;
      && u.selectedAdditionalElementId == Some(newId)
      && u.mapProjectReferences == s.mapProjectReferences && u.mapCenter == s.mapCenter
      && (s.currentMapProject.None? ==> u.currentMapProject.None?)
      && (s.currentMapProject.Some? ==>
            var p := s.currentMapProject.value;
            && u.currentMapProject.Some?
            && var q := u.currentMapProject.value;
            && |q.additionalElements| == |p.additionalElements| + 1
            && q.additionalElements[..|p.additionalElements|] == p.additionalElements
            && q.additionalElements[|p.additionalElements|].id == newId
            && q.additionalElements[|p.additionalElements|].Type() == t
            && CreateAdditionalElement(s.currentMapProject, t, newId, textStyle) == Ok(Some(q.additionalElements[|p.additionalElements|]))
            && q == p.(modifiedLocally := true, additionalElements := q.additionalElements))
  {
    match CreateAdditionalElement(s.currentMapProject, t, newId, textStyle)
    case Err(f) => Err(f)
    case Ok(None) => Err(Throws)
    case Ok(Some(e)) =>
      Ok(s.(currentMapProject := if s.currentMapProject.Some?
              then Some(s.currentMapProject.value.(
                modifiedLocally := true,
                additionalElements := s.currentMapProject.value.additionalElements + [e]))
              else s.currentMapProject,
            selectedAdditionalElementId := Some(e.id)))
  }

  /** Removing drops every element with the id, keeping the others in
      order, marks the project modified even when nothing matched, and
      always clears the selection. */
  function OnRemoveAdditionalElement(s: UiState, id: string): (t: UiState)
    ensures t.selectedAdditionalElementId.None?
    ensures t.mapProjectReferences == s.mapProjectReferences && t.mapCenter == s.mapCenter
    ensures s.currentMapProject.None? ==> t.currentMapProject.None?
    ensures s.currentMapProject.Some? ==>
      var p := s.currentMapProject.value;
      && t.currentMapProject.Some?
      && var q := t.currentMapProject.value;
      && (forall e :: e in q.additionalElements <==> e in p.additionalElements && e.id != id)
      && q.additionalElements == Filter(ElementIdIsNot(id), p.additionalElements)
      && q == p.(modifiedLocally := true, additionalElements := q.additionalElements)
  {
    if s.currentMapProject.None? then s.(selectedAdditionalElementId := None)
    else
      var p := s.currentMapProject.value;
      forall e ensures e in Filter(ElementIdIsNot(id), p.additionalElements) <==> e in p.additionalElements && e.id != id {
        FilterMembership(ElementIdIsNot(id), p.additionalElements, e);
      }
      s.(currentMapProject := Some(p.(modifiedLocally := true,
                                      additionalElements := Filter(ElementIdIsNot(id), p.additionalElements))),
         selectedAdditionalElementId := None)
  }

  /** The element replaced by the edited one when their ids match. */
  function Replacing(edited: AdditionalElement): AdditionalElement -> AdditionalElement {
    (e: AdditionalElement) => if e.id == edited.id then edited else e
  }

  /** Editing an element replaces every element with its id, in place, and
      marks the project modified even when nothing matched. */
  function OnUpdateAdditionalElement(s: UiState, edited: AdditionalElement): (t: UiState)
    ensures t.mapProjectReferences == s.mapProjectReferences && t.mapCenter == s.mapCenter
    ensures t.selectedAdditionalElementId == s.selectedAdditionalElementId
    ensures s.currentMapProject.None? ==> t.currentMapProject.None?
    ensures s.currentMapProject.Some? ==>
      var p := s.currentMapProject.value;
      && t.currentMapProject.Some?
      && var q := t.currentMapProject.value;
      && |q.additionalElements| == |p.additionalElements|
      && (forall i :: 0 <= i < |p.additionalElements| ==>
            q.additionalElements[i] == if p.additionalElements[i].id == edited.id then edited else p.additionalElements[i])
      && q == p.(modifiedLocally := true, additionalElements := q.additionalElements)
  {
    if s.currentMapProject.None? then s
    else
      var p := s.currentMapProject.value;
      s.(currentMapProject := Some(p.(modifiedLocally := true,
                                      additionalElements := Map(Replacing(edited), p.additionalElements))))
  }

  /** One step of the editor. The events that only replace a field are
      handled here. A fault is exactly one of the cases where a handler
      meets no open project and reads it or builds on it, or where a scale
      bar or a track is added. */
  function Step(s: UiState, e: Event, textStyle: TextStyle): (r: Result<UiState, Fault>)
    ensures r.Err? <==>
      || ((e.MapProjectUploaded? || e.UpdateSelectedArea? || e.UpdateMapOptions?) && s.currentMapProject.None?)
      || (e.UpdateMapName? && s.currentMapProject.None? && s.mapProjectReferences != [])
      || (e.AddAdditionalElement? &&
          (e.elementType == SCALE || e.elementType == GPX_TRACK || (e.elementType == TEXT_BOX && s.currentMapProject.None?)))
    ensures r.Ok? && !e.UpdateCenterCoordinates? ==> r.value.mapCenter == s.mapCenter
    ensures e.MapProjectReferencesLoaded? ==> r == Ok(s.(mapProjectReferences := e.mapProjectReferences))
    ensures e.MapProjectLoaded? ==> r == Ok(s.(currentMapProject := Some(e.mapProject)))
    ensures e.CloseMapProject? ==> r == Ok(s.(currentMapProject := None))
    ensures e.SelectAdditionalElement? ==> r == Ok(s.(selectedAdditionalElementId := e.selectedId))
    ensures e.UpdateMapOptions? && s.currentMapProject.Some? ==>
      r == Ok(s.(currentMapProject := Some(s.currentMapProject.value.(options := e.options, modifiedLocally := true))))
  {
    match e
    case MapProjectReferencesLoaded(refs) => Ok(s.(mapProjectReferences := refs))
    case CreateMapProject(name, attributionId) => Ok(OnCreateMapProject(s, name, attributionId, textStyle))
    case MapProjectLoaded(p) => Ok(s.(currentMapProject := Some(p)))
    case CloseMapProject => Ok(s.(currentMapProject := None))
    case MapProjectDeleted(id) => Ok(OnMapProjectDeleted(s, id))
    case MapProjectUploaded(ref) => OnMapProjectUploaded(s, ref)
    case UpdateMapName(name) => OnUpdateMapName(s, name)
    case UpdateCenterCoordinates(c) => Ok(OnUpdateCenterCoordinates(s, c))
    case UpdateSelectedArea(w, h, scale) => OnUpdateSelectedArea(s, w, h, scale)
    case UpdateMapOptions(options) =>
      if s.currentMapProject.None? then Err(PartialProject)
      else Ok(s.(currentMapProject := Some(s.currentMapProject.value.(options := options, modifiedLocally := true))))
    case MapProjectStateUpdated(id, st) => Ok(OnMapProjectStateUpdated(s, id, st))
    case AddAdditionalElement(t, newId) => OnAddAdditionalElement(s, t, newId, textStyle)
    case SelectAdditionalElement(id) => Ok(s.(selectedAdditionalElementId := id))
    case RemoveAdditionalElement(id) => Ok(OnRemoveAdditionalElement(s, id))
    case UpdateAdditionalElement(edited) => Ok(OnUpdateAdditionalElement(s, edited))
  }

  /** Reporting an upload twice is reporting it once. */
  lemma UploadIdempotent(s: UiState, ref: MapProjectReference, textStyle: TextStyle)
    requires Step(s, MapProjectUploaded(ref), textStyle).Ok?
    ensures var once := Step(s, MapProjectUploaded(ref), textStyle).value;
      Step(once, MapProjectUploaded(ref), textStyle) == Ok(once)
  {
    var e := MapProjectUploaded(ref);
    var once := Step(s, e, textStyle).value;
    var twice := Step(once, e, textStyle).value;
    assert exists x :: x in once.mapProjectReferences && x.id == ref.id;
    assert twice.mapProjectReferences == once.mapProjectReferences;
  }

  /** Reporting a render state twice is reporting it once. */
  lemma StateUpdatedIdempotent(s: UiState, id: string, st: MapProjectState, textStyle: TextStyle)
    ensures var e := MapProjectStateUpdated(id, st);
      Step(Step(s, e, textStyle).value, e, textStyle) == Step(s, e, textStyle)
  {
    var e := MapProjectStateUpdated(id, st);
    var once := Step(s, e, textStyle).value;
    var twice := Step(once, e, textStyle).value;
    assert twice.mapProjectReferences == once.mapProjectReferences;
  }

  /** Deleting a project twice is deleting it once. */
  lemma DeleteIdempotent(s: UiState, id: string, textStyle: TextStyle)
    ensures var e := MapProjectDeleted(id);
      Step(Step(s, e, textStyle).value, e, textStyle) == Step(s, e, textStyle)
  {
    FilterIdempotent(RefIdIsNot(id), s.mapProjectReferences);
  }

  /** Applying the same edit twice is applying it once. */
  lemma UpdateElementIdempotent(s: UiState, edited: AdditionalElement, textStyle: TextStyle)
    ensures var e := UpdateAdditionalElement(edited);
      Step(Step(s, e, textStyle).value, e, textStyle) == Step(s, e, textStyle)
  {
    var e := UpdateAdditionalElement(edited);
    var once := Step(s, e, textStyle).value;
    if s.currentMapProject.Some? {
      var twice := Step(once, e, textStyle).value;
      assert twice.currentMapProject.value.additionalElements == once.currentMapProject.value.additionalElements;
    }
  }

  /** Removing an element right after adding it, under an id no element had,
      gives back the element list from before, and nothing is selected. */
  lemma RemoveUndoesAdd(s: UiState, t: ElementType, newId: string, textStyle: TextStyle)
    requires s.currentMapProject.Some?
    requires forall x :: x in s.currentMapProject.value.additionalElements ==> x.id != newId
    requires Step(s, AddAdditionalElement(t, newId), textStyle).Ok?
    ensures var added := Step(s, AddAdditionalElement(t, newId), textStyle).value;
      var removed := Step(added, RemoveAdditionalElement(newId), textStyle).value;
      && removed.currentMapProject == Some(s.currentMapProject.value.(modifiedLocally := true))
      && removed.selectedAdditionalElementId.None?
  {
    var els := s.currentMapProject.value.additionalElements;
    var added := Step(s, AddAdditionalElement(t, newId), textStyle).value;
    var grown := added.currentMapProject.value.additionalElements;
    assert grown == els + [grown[|els|]];
    FilterDropsLast(ElementIdIsNot(newId), els, grown[|els|]);
  }

  /** What the editor keeps true: references have distinct ids, the open
      project's elements have distinct ids, and the map centre is in
      bounds. */
  ghost predicate Valid(s: UiState) {
    && DistinctBy(RefId, s.mapProjectReferences)
    && (s.currentMapProject.Some? ==> DistinctBy(ElementId, s.currentMapProject.value.additionalElements))
    && InBounds(s.mapCenter)
  }

  /** Appending an element whose key no element has keeps keys distinct. */
  lemma AppendDistinct<T, K>(key: T -> K, s: seq<T>, x: T)
    requires DistinctBy(key, s)
    requires forall y :: y in s ==> key(y) != key(x)
    ensures DistinctBy(key, s + [x])
  {
    var r := s + [x];
    forall i, j | 0 <= i < j < |r| ensures key(r[i]) != key(r[j]) {
      assert r[i] == s[i];
      if j == |s| {
        assert s[i] in s;
      } else {
        assert r[j] == s[j];
      }
    }
  }

  /** Every step keeps the editor valid, given that loaded lists have
      distinct ids and that an added element's id is new. */
  lemma StepPreservesValid(s: UiState, e: Event, textStyle: TextStyle)
    requires Valid(s)
    requires e.MapProjectReferencesLoaded? ==> DistinctBy(RefId, e.mapProjectReferences)
    requires e.MapProjectLoaded? ==> DistinctBy(ElementId, e.mapProject.additionalElements)
    requires e.AddAdditionalElement? && s.currentMapProject.Some? ==>
      forall x :: x in s.currentMapProject.value.additionalElements ==> x.id != e.newId
    ensures Step(s, e, textStyle).Ok? ==> Valid(Step(s, e, textStyle).value)
  {
    var refs := s.mapProjectReferences;
    match e
    case MapProjectDeleted(id) =>
      FilterDistinct(RefIdIsNot(id), RefId, refs);
    case MapProjectUploaded(ref) =>
      if s.currentMapProject.Some? && !exists x :: x in refs && x.id == ref.id {
        AppendDistinct(RefId, refs, ref);
      }
    case UpdateMapName(name) =>
      if Step(s, e, textStyle).Ok? {
        var renamed := Step(s, e, textStyle).value.mapProjectReferences;
        assert forall i :: 0 <= i < |refs| ==> RefId(renamed[i]) == RefId(refs[i]);
      }
    case MapProjectStateUpdated(id, st) =>
      var updated := Step(s, e, textStyle).value.mapProjectReferences;
      assert forall i :: 0 <= i < |refs| ==> RefId(updated[i]) == RefId(refs[i]);
    case AddAdditionalElement(t, newId) =>
      if Step(s, e, textStyle).Ok? && s.currentMapProject.Some? {
        var els := s.currentMapProject.value.additionalElements;
        var grown := Step(s, e, textStyle).value.currentMapProject.value.additionalElements;
        assert grown == els + [grown[|els|]];
        AppendDistinct(ElementId, els, grown[|els|]);
      }
    case RemoveAdditionalElement(id) =>
      if s.currentMapProject.Some? {
        FilterDistinct(ElementIdIsNot(id), ElementId, s.currentMapProject.value.additionalElements);
      }
    case UpdateAdditionalElement(edited) =>
      if s.currentMapProject.Some? {
        var els := s.currentMapProject.value.additionalElements;
        var edits := Step(s, e, textStyle).value.currentMapProject.value.additionalElements;
        assert forall i :: 0 <= i < |els| ==> ElementId(edits[i]) == ElementId(els[i]);
      }
    case _ =>
  }
}
