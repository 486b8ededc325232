# printmaps-ui core, modelled in Dafny

printmaps-ui is a browser editor for printable maps. A user opens a *map
project* and sets its page size, scale, centre and options. They place
*additional elements* on it: text boxes, the attribution, scale bars and GPX
tracks. The project is saved to a remote rendering service as a *map
rendering job*. That job document carries each element, and the page
margins, as a styled-geometry record (a *user object*): a style string that
opens with a `<!--{json}-->` metadata comment, and a WKT geometry.

This project models two pure parts of the editor:

- **The wire codec and the project mapper** (`printmaps.service.ts`):
  - module `Codec` decodes one record into an element or into margins, and
    builds the margins record;
  - module `Mapper` turns a project into a job document and back, and lists
    the attachments a save uploads, including the scale-bar unit length.
- **The editing state machine** (`main.reducers.ts`): module `Reducer` is
  the reducer. `Step(state, event)` gives the new editor state, or the fault
  the handler runs into: when no project is open, and whenever a scale bar
  or a track is added.

Support modules:

- `Model`: the editor's entities;
- `Wire`: the job document once the foreign parsers have run;
- `Seqs`: filter, map and collect over sequences, with their lemmas;
- `Wrappers`: `Option` and `Result`.

The model follows what the code does, not what it appears to intend:

- Text and scale-bar positions read from the WKT are assigned to inner
  variables that shadow the outer ones. So a decoded text or scale element
  always sits at (0,0).
- The margins decoder shadows its variables in the same way, so a margins
  record always decodes to all-zero margins. A saved project therefore loads
  back with zero margins, because `?? 8` replaces only a missing margins
  record.
- The positional corner arithmetic does still invert the generated polygon.
  `Codec.MarginsAt` proves this separately.
- The margins decoder evaluates its corner lookups even though their values
  are discarded. On a point, a line string or a short polygon, those lookups
  index into `undefined` and throw. The model follows the code and returns
  `Err(MarginsGeometryNotIndexable)`.

## Model

| member | source | states |
|---|---|---|
| Codec.ElementTypeOf | src/app/services/printmaps.service.ts:56-62 | A metadata `Type` selects an element type exactly when it is one of the four element-type tags, and the selected type's tag is that `Type`. |
| Codec.ConvertUserObjectToAdditionalElement | src/app/services/printmaps.service.ts:51-64 | No leading comment, or a `Type` that is no element type (`"margins"` included), decodes to None. Malformed JSON fails. Each element type's record decodes to exactly what its extractor gives: a text box or attribution to `ExtractTextElement`'s element or error, a scale bar to `ExtractScaleElement`'s element, a track to `ExtractGpxElement`'s element or error. A missing TextSymbolizer or LineSymbolizer is therefore the only other failure. |
| Codec.ExtractTextElement | src/app/services/printmaps.service.ts:66-99 | Fails exactly when there is no TextSymbolizer. The id is metadata `ID`, or else the fresh id. The text is metadata `Text`, or else "". The location is (0,0). Each absent attribute takes the default text style's value. An unknown fontset name takes the default font style. |
| Codec.ExtractScaleElement | src/app/services/printmaps.service.ts:101-115 | A scale bar whose id is metadata `ID` (or else the fresh id), in the default scale style, at (0,0), whatever the WKT holds. |
| Codec.ExtractGpxElement | src/app/services/printmaps.service.ts:117-138 | Fails exactly when there is no LineSymbolizer. The element is a GPX track whose file is named by metadata `File`, holds no data and is stamped with the decoding time. Each absent stroke attribute takes the default track style's value. |
| Codec.ExtractMargins | src/app/services/printmaps.service.ts:140-166 | Gives all-zero margins exactly for a `"margins"` record whose corners can be read. Fails exactly for malformed JSON, or for a margins record whose geometry cannot be indexed. Gives None otherwise. |
| Codec.GenerateMargins | src/app/services/printmaps.service.ts:258-274 | The record has metadata `{ID, Type: "margins"}` and a white polygon symbolizer. Its geometry is two closed five-point rings: (0,0),(0,H),(W,H),(W,0),(0,0) and (L,B),(L,H-T),(W-R,H-T),(W-R,B),(L,B). Without margin fields the WKT does not parse. |
| Codec.MarginsAt | src/app/services/printmaps.service.ts:153-156 | On the generated polygon, the corner expressions are readable and give exactly (T, B, L, R). |
| Codec.MarginsRecordDecodesToZero | src/app/services/printmaps.service.ts:145-163 | The margins record of any project decodes to all-zero margins. |
| Codec.MarginsRecordIsNoElement | src/app/services/printmaps.service.ts:51-64 | The margins record of any project never decodes to an additional element. |
| Codec.DecodeEncode | src/app/services/printmaps.service.ts:51-138 | An element written with its metadata and symbolizer decodes back to itself, except for the fields that do not travel: its position, a scale bar's style and a track's data and timestamp. It never reads as margins. |
| Codec.DecodeIgnoresGeometry | src/app/services/printmaps.service.ts:70-75 | Element decoding does not depend on the record's geometry. |
| Mapper.StateOnStatusError | src/app/services/printmaps.service.ts:173-178 | A failed status query reports NONEXISTENT exactly for status 400, and RENDERING_UNSUCCESSFUL otherwise. |
| Mapper.FromReductionFactor | src/app/services/printmaps.service.ts:286 | The scale found is a known scale with that reduction factor. None means no known scale has it. |
| Mapper.MarginsOf | src/app/services/printmaps.service.ts:279-281 | Succeeds exactly when every record's margins decoding succeeds. Finds margins exactly when some record decodes as margins, and what it finds is all zero. |
| Mapper.DecodeAll | src/app/services/printmaps.service.ts:298-300 | Succeeds exactly when every record decodes, record i with fresh id i. The elements are then the decoder mapped over the records, with the records that decode to nothing dropped, in record order. |
| Mapper.DecodeAllMembers | src/app/services/printmaps.service.ts:298-300 | An element is loaded exactly when some record decodes to it. |
| Seqs.CollectSomeFound | src/app/services/printmaps.service.ts:298-300 | Decoding the records one by one, first error winning, gives what mapping the decoder over them and keeping the values found gives. |
| Mapper.FromMapRenderingJob | src/app/services/printmaps.service.ts:276-303 | Succeeds exactly when the margins pass, the scale lookup and the element pass succeed. The loaded project keeps the job's id, takes the given name, has no state and is not modified locally. Scale, centre, page size and options come from the attributes. Margins are zero if a record decodes as margins, and 8 on every side otherwise. Elements are the decoded records in order. |
| Mapper.PartitionSize | src/app/services/printmaps.service.ts:306-313 | The tracks and the other elements together number as many as the elements. |
| Mapper.ToMapRenderingJob | src/app/services/printmaps.service.ts:305-337 | The records are the tracks' encodings in element order, then the margins record, then the other elements' encodings in element order, so there is one more record than elements. Projection is "3857" and HideLayers is "". Type, id, format, style, scale, centre and page size are copied. |
| Mapper.OneMarginsRecord | src/app/services/printmaps.service.ts:314-318 | If no element's record reads as margins, then exactly one record of the document does, and it sits right after the tracks. |
| Mapper.DecodeAllEncoded | src/app/services/printmaps.service.ts:298-300 | Encoded elements decode in order to their reloaded forms, whatever ids are drawn. |
| Mapper.SavedMargins | src/app/services/printmaps.service.ts:279-281 | The margins pass over a saved project's document gives all-zero margins. |
| Mapper.DecodeAllAround | src/app/services/printmaps.service.ts:298-300 | Two runs of encoded elements around a record that decodes to nothing decode to the two runs reloaded. |
| Mapper.SavedElements | src/app/services/printmaps.service.ts:298-300 | The element pass over a saved project's document gives the reloaded tracks, then the reloaded other elements. |
| Mapper.LoadSaved | src/app/services/printmaps.service.ts:276-337 | Saving a project and loading it back gives the same project under the given name, with no state and not modified locally. Its margins are zero, its positions and scale styles are reset, and its tracks come first. |
| Mapper.CeilPowerOfTen | src/app/services/printmaps.service.ts:341 | 10^ceil(log10 n) is at least n, and below 10n. |
| Mapper.CeilPowerOfTenIsLeast | src/app/services/printmaps.service.ts:341 | That value is a power of ten, and no power of ten at least n is smaller. |
| Mapper.UnitLengthFor | src/app/services/printmaps.service.ts:343-349 | The interval is P/4000 when P >= 30r, P/2000 when 15r <= P < 30r, and P/1000 otherwise. |
| Mapper.UnitLengthInM | src/app/services/printmaps.service.ts:340-349 | The same three cases, for P the smallest power of ten at least 10r. |
| Mapper.UnitLengthOnPaper | src/app/services/printmaps.service.ts:340-349 | At every scale, one scale-bar interval is between 7.5 mm and 25 mm long on paper. |
| Mapper.UnitLengthAt50000 | src/app/services/printmaps.service.ts:340-349 | At 1:50000 one interval is 500 m. |
| Mapper.ScaleFiles | src/app/services/printmaps.service.ts:350-355 | One `scale_<id>.svg` graphic per scale bar, in element order, built from the unit length and the reduction factor. |
| Mapper.TrackFiles | src/app/services/printmaps.service.ts:356-365 | One file per track that holds data, named by the track's file and holding that data, in element order. |
| Mapper.ToUserFiles | src/app/services/printmaps.service.ts:339-366 | The scale-bar graphics first, then the track files. The count is the number of scale bars plus the number of tracks with data. |
| Reducer.Round | src/app/reducers/main.reducers.ts:225-226 | `Math.round`: the result is within half a unit of x, and a half rounds up. |
| Reducer.RoundHalf | src/app/reducers/main.reducers.ts:225-226 | Half of a whole number rounds to the ceiling of the half. |
| Reducer.Round9 | src/app/reducers/main.reducers.ts:98-99 | Rounding to nine decimals moves the value by at most half of 10^-9. |
| Reducer.Clamp | src/app/reducers/main.reducers.ts:98-99 | `Math.min(Math.max(x, lo), hi)`: a value in range is kept, a value below lo gives lo, a value above hi gives hi. |
| Reducer.ClampInt | src/app/reducers/main.reducers.ts:119-120 | The same clamp on whole numbers: a value in range is kept, a value below lo gives lo, a value above hi gives hi. |
| Reducer.RoundedCoordinates | src/app/reducers/main.reducers.ts:97-100 | Each coordinate is rounded to nine decimals, then clamped: latitude into [-85, 85], longitude into [-180, 180]. The result is in bounds, and an in-bounds centre moves by at most half of 10^-9. |
| Reducer.ClampRound9Idempotent | src/app/reducers/main.reducers.ts:98-99 | Rounding and clamping a coordinate twice is doing it once. |
| Reducer.RoundedCoordinatesIdempotent | src/app/reducers/main.reducers.ts:97-100 | A stored centre is stored unchanged when requested again. |
| Reducer.RoundedCoordinatesExamples | src/app/reducers/main.reducers.ts:97-100 | (90, -200) is stored as (85, -180), and the latitude 12.3456789012 as 12.345678901. |
| Reducer.CreateAdditionalElement | src/app/reducers/main.reducers.ts:213-239 | A text box without a project throws, and nothing else fails. Nothing is created for a scale bar or a track. The attribution is "${attribution}" at (40,6). A text box is placed at (round(W/2), round(H/2)). Both text elements take the given id and the default text style. |
| Reducer.OnCreateMapProject | src/app/reducers/main.reducers.ts:21-47 | The new project has no id, 210x297 mm, 1:50000, SVG/OSM_CARTO and NOT_RENDERED. It is modified locally, centred on the map centre and has no margin fields. Its only element is the attribution. The rest of the state is unchanged. |
| Reducer.OnMapProjectDeleted | src/app/reducers/main.reducers.ts:61-66 | Removes exactly the references with the id, keeping the others in order. Closes the open project exactly when it has that id. |
| Reducer.OnMapProjectUploaded | src/app/reducers/main.reducers.ts:68-82 | Throws exactly without an open project. The project keeps a non-empty id or takes the reference's, and is no longer modified locally. The reference is appended exactly when no listed reference has its id. |
| Reducer.OnUpdateMapName | src/app/reducers/main.reducers.ts:84-93 | Throws exactly without an open project while references exist. Renames exactly the references with the open project's id. The project itself, including its name, is unchanged. |
| Reducer.OnUpdateCenterCoordinates | src/app/reducers/main.reducers.ts:95-112 | The map centre always becomes the rounded, clamped centre. The open project, if any, moves there and is marked modified. Nothing else changes. |
| Reducer.PageMm | src/app/reducers/main.reducers.ts:119-120 | With n = round(m / reductionFactor * 1000): n when it lies within [lo, hi], lo when below, hi when above. |
| Reducer.PageMmExamples | src/app/reducers/main.reducers.ts:119-120 | 1000 m at 1:5 gives 3000 mm, 10 m at 1:50000 gives 50 mm, 10500 m at 1:50000 gives 210 mm. |
| Reducer.OnUpdateSelectedArea | src/app/reducers/main.reducers.ts:114-124 | Fails exactly without an open project. Sets width within [50,3000] and height within [50,2500], from round(m / reductionFactor * 1000). Sets the scale and marks the project modified. Nothing else changes. |
| Reducer.PageMmRoundTrip | src/app/reducers/main.reducers.ts:119-120 | A page size in range survives the trip through ground metres and back. |
| Reducer.SelectedAreaRoundTrip | src/app/reducers/main.reducers.ts:114-124 | Selecting the area that an allowed W x H page covers gives back a W x H page. |
| Reducer.OnMapProjectStateUpdated | src/app/reducers/main.reducers.ts:136-153 | Sets the state on every reference with the id, and on the open project exactly when it has the id. Nothing else changes. |
| Reducer.OnAddAdditionalElement | src/app/reducers/main.reducers.ts:155-172 | Fails exactly for a scale bar, a track, or a text box without a project. The appended element is exactly the one `CreateAdditionalElement` gives for the type and the new id, and the existing elements are unchanged. The project is marked modified and the new id is selected. |
| Reducer.OnRemoveAdditionalElement | src/app/reducers/main.reducers.ts:180-191 | Drops exactly the elements with the id, keeping the others in order. Marks the project modified even when nothing matched. Always clears the selection. |
| Reducer.OnUpdateAdditionalElement | src/app/reducers/main.reducers.ts:193-206 | Replaces exactly the elements with the edited element's id, in place, so the length is kept. Marks the project modified even when nothing matched. |
| Reducer.Step | src/app/reducers/main.reducers.ts:15-206 | A step fails exactly in the handlers' no-project cases, and whenever a scale bar or a track is added. Only a centre update moves the map centre. Loading references, loading a project, closing, selecting and setting options replace just their field. |
| Reducer.UploadIdempotent | src/app/reducers/main.reducers.ts:68-82 | Reporting an upload twice is reporting it once. |
| Reducer.StateUpdatedIdempotent | src/app/reducers/main.reducers.ts:136-153 | Reporting a render state twice is reporting it once. |
| Reducer.DeleteIdempotent | src/app/reducers/main.reducers.ts:61-66 | Deleting a project twice is deleting it once. |
| Reducer.UpdateElementIdempotent | src/app/reducers/main.reducers.ts:193-206 | Applying an element edit twice is applying it once. |
| Reducer.RemoveUndoesAdd | src/app/reducers/main.reducers.ts:155-191 | Removing a just-added element, whose id was new, restores the element list and clears the selection. |
| Reducer.StepPreservesValid | src/app/reducers/main.reducers.ts:15-206 | Every step keeps three things true, given that loaded lists have distinct ids and an added id is new: reference ids are distinct, element ids are distinct, and the map centre is in bounds. |

## Left out

- The HTTP and rxjs plumbing (`loadMapProjectState`, `loadMapProject`, the job create, update, launch and delete calls, and `uploadUserFile`) is network I/O and is not modelled. Only the status-to-state mapping is modelled, as `Mapper.StateOnStatusError`.
- The foreign parsers and serialisers are represented by their results. These are `DOMParser`, `wellknown.parse`, `JSON.parse`/`JSON.stringify` and the style-comment regular expression. The results are the `Wire` datatypes: header, symbolizer attributes and parsed geometry.
- Multi-geometries (MULTIPOINT, MULTILINESTRING, MULTIPOLYGON) are not represented in `Wire.Geometry`. The margins decoder's corner lookups index their nested coordinates one level deeper, and the model does not capture that.
- The number-to-text formatting of the margins WKT is not modelled. A project without margin fields writes `NaN`/`undefined` into that WKT, which is represented as an unreadable geometry.
- `parseInt`/`parseFloat` of symbolizer attributes are not modelled; attributes arrive already parsed.
- `uuid()` and `new Date().getTime()` are nondeterministic. They are parameters instead:
  - record i draws `freshIds(i)`;
  - the margins record draws `marginsId`;
  - the reducer's new ids travel in the events;
  - one `now` stands for every clock read in one load.
- Code outside these two files is not part of this model, and enters as parameters. This covers:
  - `ADDITIONAL_ELEMENT_TYPES.toUserObject` and the templates behind it. The encoder is a parameter, and `Codec.EncodeElement` is a reference encoder used by the round-trip lemmas.
  - The `SCALES` table and `getScaleProperties`. Scales carry their reduction factor, and `fromReductionFactor` is a lookup in a list of known scales.
  - `scaleService.buildScaleSvg`, recorded as its arguments.
  - The `DEFAULT_*_STYLE` values and `FONT_STYLE_BY_FONTSET_NAME`.
- Mapper.FromMapRenderingJob: a reduction factor that matches no known scale is modelled as a load error. How `fromReductionFactor` treats it is not part of this model.
- Enumeration values are written as their names (`"SVG"`, `"OSM_CARTO"`, `"TEXT_BOX"`, …), and `$localize` as its source text.
- Floating point is not modelled; arithmetic is exact over integers and reals.
- `Math.log10`/`Math.pow` is the exact smallest power of ten at least 10r. Their rounding error is not modelled.
- Reducer.Round9: lodash `round(x, 9)` is exact decimal rounding, halves up. The binary representation of the scaled value is not modelled.
- Handlers that fail are modelled as faults:
  - Where a handler reads the absent project, it throws, modelled as `Err(Throws)`.
  - Adding a scale bar or a track throws even with a project open: no element is created for them, and the handler then reads the absent element's id. This is also `Err(Throws)`.
  - `updateSelectedArea` and `updateMapOptions` do not throw in the source. They store a project object that holds only the fields they set. That object is not representable in the model, so both give `Err(PartialProject)`.
- The ngrx wiring (`createReducer`, `on`, `printmapsUiReducer`) is modelled only as `Reducer.Step` over the `Event` datatype.
