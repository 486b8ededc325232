/** The mapping between a map project and the remote rendering job document,
    and the attachments a saved project uploads. */
module Mapper {
  import opened Wrappers
  import opened Model
  import opened Wire
  import opened Codec
  import opened Seqs

  /** Why loading a project from a job document fails. */
  datatype LoadError = RecordError(cause: DecodeError) | UnknownScale(reductionFactor: int)

  /** The render state a failed status query reports: a 400 means the job
      does not exist, any other failure that rendering failed. */
  function StateOnStatusError(status: int): (s: MapProjectState)
    ensures s == NONEXISTENT <==> status == 400
    ensures s != NONEXISTENT ==> s == RENDERING_UNSUCCESSFUL
  {
    if status == 400 then NONEXISTENT else RENDERING_UNSUCCESSFUL
  }

  /** The known scale with the given reduction factor, if there is one. */
  function FromReductionFactor(scales: seq<Scale>, rf: int): (r: Option<Scale>)
    ensures r.Some? ==> r.value in scales && r.value.reductionFactor == rf
    ensures r.None? ==> forall s :: s in scales ==> s.reductionFactor != rf
  {
    if scales == [] then None
    else if scales[0].reductionFactor == rf then Some(scales[0])
    else FromReductionFactor(scales[1..], rf)
  }

  /** The margins pass of the loader: every record goes through the margins
      decoder (the first one that throws makes the load fail), and the first
      margins found is the one kept. */
  function MarginsOf(records: seq<UserObject>): (r: Result<Option<Margins>, DecodeError>)
    ensures r.Ok? <==> forall i :: 0 <= i < |records| ==> ExtractMargins(records[i]).Ok?
    ensures r.Ok? ==> (r.value.Some? <==> exists i :: 0 <= i < |records| && ExtractMargins(records[i]) == Ok(Some(ZERO_MARGINS)))
    ensures r.Ok? && r.value.Some? ==> r.value.value == ZERO_MARGINS
  {
    FirstSomeOk(records, ExtractMargins);
    FirstSome(records, ExtractMargins)
  }

  /** The element pass of the loader: record `i` of the document is decoded
      with `freshIds(start + i)` as the id it takes when its metadata has
      none; records that are no element are dropped, the others keep their
      order. */
  function DecodeAll(records: seq<UserObject>, start: nat, freshIds: nat -> string, now: int, d: StyleDefaults)
    : (r: Result<seq<AdditionalElement>, DecodeError>)
    ensures r.Ok? <==> forall i :: 0 <= i < |records| ==> ConvertUserObjectToAdditionalElement(records[i], freshIds(start + i), now, d).Ok?
    ensures r.Ok? ==> r.value == Found(MapIndexed(Decoder(freshIds, now, d), records, start))
  {
    CollectSomeOk(records, start, Decoder(freshIds, now, d));
    CollectSomeFound(records, start, Decoder(freshIds, now, d));
    CollectSome(records, start, Decoder(freshIds, now, d))
  }

  /** The elements loaded are exactly the elements the records decode to. */
  lemma DecodeAllMembers(records: seq<UserObject>, start: nat, freshIds: nat -> string, now: int, d: StyleDefaults, e: AdditionalElement)
    requires DecodeAll(records, start, freshIds, now, d).Ok?
    ensures e in DecodeAll(records, start, freshIds, now, d).value <==>
      exists i :: 0 <= i < |records| && ConvertUserObjectToAdditionalElement(records[i], freshIds(start + i), now, d) == Ok(Some(e))
  {
    var decodings := MapIndexed(Decoder(freshIds, now, d), records, start);
    FoundMembers(decodings, e);
    if Ok(Some(e)) in decodings {
      var i :| 0 <= i < |decodings| && decodings[i] == Ok(Some(e));
      MapIndexedAt(Decoder(freshIds, now, d), records, start, i);
      assert ConvertUserObjectToAdditionalElement(records[i], freshIds(start + i), now, d) == Ok(Some(e));
    }
    if exists i :: 0 <= i < |records| && ConvertUserObjectToAdditionalElement(records[i], freshIds(start + i), now, d) == Ok(Some(e)) {
      var i :| 0 <= i < |records| && ConvertUserObjectToAdditionalElement(records[i], freshIds(start + i), now, d) == Ok(Some(e));
      MapIndexedAt(Decoder(freshIds, now, d), records, start, i);
      assert decodings[i] == Ok(Some(e));
    }
  }

  /** Record decoding with the id drawn for position `i`. */
  function Decoder(freshIds: nat -> string, now: int, d: StyleDefaults): (UserObject, nat) -> Result<Option<AdditionalElement>, DecodeError> {
    (u: UserObject, i: nat) => ConvertUserObjectToAdditionalElement(u, freshIds(i), now, d)
  }

  /** Rebuilds a project from a job document: margins from the first margins
      record (8 on every side if there is none), elements from the records
      in order, the rest copied; the project is not modified locally and its
      render state is left for the caller to fetch. */
  function FromMapRenderingJob(name: string, job: MapRenderingJob, scales: seq<Scale>, freshIds: nat -> string, now: int, d: StyleDefaults)
    : (r: Result<MapProject, LoadError>)
    ensures r.Ok? <==>
      && MarginsOf(job.attributes.userObjects).Ok?
      && FromReductionFactor(scales, job.attributes.scale).Some?
      && DecodeAll(job.attributes.userObjects, 0, freshIds, now, d).Ok?
    ensures r.Ok? ==>
      var p, a := r.value, job.attributes;
      && p.id == job.id && p.name == name && p.state.None? && !p.modifiedLocally
      && p.scale in scales && p.scale.reductionFactor == a.scale
      && p.center == Center(a.latitude, a.longitude)
      && p.widthInMm == a.printWidth && p.heightInMm == a.printHeight
      && p.options == MapOptions(a.fileformat, a.style)
      && p.margins == Some(if exists i :: 0 <= i < |a.userObjects| && ExtractMargins(a.userObjects[i]) == Ok(Some(ZERO_MARGINS))
                           then ZERO_MARGINS else DEFAULT_MARGINS)
      && p.additionalElements == DecodeAll(a.userObjects, 0, freshIds, now, d).value
  {
    var a := job.attributes;
    match MarginsOf(a.userObjects)
    case Err(e) => Err(RecordError(e))
    case Ok(margins) =>
      match FromReductionFactor(scales, a.scale)
      case None => Err(UnknownScale(a.scale))
      case Some(scale) =>
        match DecodeAll(a.userObjects, 0, freshIds, now, d)
        case Err(e) => Err(RecordError(e))
        case Ok(elements) =>
          Ok(MapProject(
            job.id, name, None, scale, Center(a.latitude, a.longitude), a.printWidth, a.printHeight,
            Some(margins.GetOr(DEFAULT_MARGINS)), MapOptions(a.fileformat, a.style), elements, false))
  }

  predicate IsGpx(e: AdditionalElement) { e.Type() == GPX_TRACK }

  predicate IsNotGpx(e: AdditionalElement) { e.Type() != GPX_TRACK }

  /** Every element is either a track or not. */
  lemma {:induction false} PartitionSize(s: seq<AdditionalElement>)
    ensures |Filter(IsGpx, s)| + |Filter(IsNotGpx, s)| == |s|
  {
    if s != [] {
      PartitionSize(s[1..]);
    }
  }

  /** The job document of a project: the tracks' records first, in element
      order, then the one margins record, then the other elements' records
      in element order; the projection is always 3857 and no layer is
      hidden. `encode` writes one element's record and `marginsId` is the
      id drawn for the margins record. */
  function ToMapRenderingJob(p: MapProject, encode: AdditionalElement -> UserObject, marginsId: string): (job: MapRenderingJob)
    ensures job.dataType == "maps" && job.id == p.id
    ensures job.attributes.projection == "3857" && job.attributes.hideLayers == ""
    ensures job.attributes.fileformat == p.options.fileFormat && job.attributes.style == p.options.mapStyle
    ensures job.attributes.scale == p.scale.reductionFactor
    ensures job.attributes.latitude == p.center.latitude && job.attributes.longitude == p.center.longitude
    ensures job.attributes.printWidth == p.widthInMm && job.attributes.printHeight == p.heightInMm
    ensures |job.attributes.userObjects| == |p.additionalElements| + 1
    ensures var k := |Filter(IsGpx, p.additionalElements)|;
      && job.attributes.userObjects[..k] == Map(encode, Filter(IsGpx, p.additionalElements))
      && job.attributes.userObjects[k] == GenerateMargins(p, marginsId)
      && job.attributes.userObjects[k + 1..] == Map(encode, Filter(IsNotGpx, p.additionalElements))
  {
    PartitionSize(p.additionalElements);
    var gpxTracks := Map(encode, Filter(IsGpx, p.additionalElements));
    var others := Map(encode, Filter(IsNotGpx, p.additionalElements));
    var userObjects := gpxTracks + [GenerateMargins(p, marginsId)] + others;
    assert userObjects[..|gpxTracks|] == gpxTracks;
    assert userObjects[|gpxTracks| + 1..] == others;
    MapRenderingJob("maps", p.id, JobAttributes(
      p.options.fileFormat, p.options.mapStyle, "3857", p.scale.reductionFactor,
      p.center.latitude, p.center.longitude, p.widthInMm, p.heightInMm, "", userObjects))
  }

  /** When no element's record reads as margins, the document holds exactly
      one margins record, right after the tracks. */
  lemma OneMarginsRecord(p: MapProject, encode: AdditionalElement -> UserObject, marginsId: string)
    requires forall e :: ExtractMargins(encode(e)) == Ok(None)
    ensures var records, k := ToMapRenderingJob(p, encode, marginsId).attributes.userObjects, |Filter(IsGpx, p.additionalElements)|;
      && ExtractMargins(records[k]) == Ok(Some(ZERO_MARGINS))
      && forall i :: 0 <= i < |records| && i != k ==> ExtractMargins(records[i]) == Ok(None)
  {
    var records, k := ToMapRenderingJob(p, encode, marginsId).attributes.userObjects, |Filter(IsGpx, p.additionalElements)|;
    MarginsRecordDecodesToZero(p, marginsId);
    forall i | 0 <= i < |records| && i != k
      ensures ExtractMargins(records[i]) == Ok(None)
    {
      if i < k {
        assert records[i] == records[..k][i];
      } else {
        assert records[i] == records[k + 1..][i - k - 1];
      }
    }
  }

  /** The project a saved project loads back as: the same project under the
      given name, with zero margins, no render state, not modified locally,
      and its tracks moved in front of its other elements. */
  function SavedAndLoaded(p: MapProject, name: string, now: int, d: StyleDefaults): MapProject {
    var reload := e => Reloaded(e, now, d);
    p.(name := name, state := None, margins := Some(ZERO_MARGINS), modifiedLocally := false,
       additionalElements := Map(reload, Filter(IsGpx, p.additionalElements)) + Map(reload, Filter(IsNotGpx, p.additionalElements)))
  }

  /** Encoded elements decode, in order, to their reloaded forms. */
  lemma {:induction false} DecodeAllEncoded(
    els: seq<AdditionalElement>, fontsetName: FontStyle -> string, start: nat, freshIds: nat -> string, now: int, d: StyleDefaults)
    requires forall e :: e in els ==> FontRoundTrips(e, d, fontsetName)
    ensures DecodeAll(Map(e => EncodeElement(e, fontsetName), els), start, freshIds, now, d) == Ok(Map(e => Reloaded(e, now, d), els))
  {
    if els != [] {
      var records := Map(e => EncodeElement(e, fontsetName), els);
      DecodeEncode(els[0], fontsetName, freshIds(start), now, d);
      assert records[1..] == Map(e => EncodeElement(e, fontsetName), els[1..]);
      DecodeAllEncoded(els[1..], fontsetName, start + 1, freshIds, now, d);
    }
  }

  /** The margins pass over a saved document finds the one margins record. */
  lemma SavedMargins(p: MapProject, fontsetName: FontStyle -> string, marginsId: string, now: int, d: StyleDefaults)
    requires forall e :: e in p.additionalElements ==> FontRoundTrips(e, d, fontsetName)
    ensures MarginsOf(ToMapRenderingJob(p, e => EncodeElement(e, fontsetName), marginsId).attributes.userObjects)
            == Ok(Some(ZERO_MARGINS))
  {
    var encode := e => EncodeElement(e, fontsetName);
    var els := p.additionalElements;
    var gpx, others := Filter(IsGpx, els), Filter(IsNotGpx, els);
    var records := ToMapRenderingJob(p, encode, marginsId).attributes.userObjects;
    var g, m, o := Map(encode, gpx), GenerateMargins(p, marginsId), Map(encode, others);
    assert records == g + [m] + o by {
      assert records == records[..|gpx|] + [records[|gpx|]] + records[|gpx| + 1..];
    }
    forall i | 0 <= i < |g| ensures ExtractMargins(g[i]) == Ok(None) {
      FilterMembership(IsGpx, els, gpx[i]);
      DecodeEncode(gpx[i], fontsetName, "", now, d);
    }
    forall i | 0 <= i < |o| ensures ExtractMargins(o[i]).Ok? {
      FilterMembership(IsNotGpx, els, others[i]);
      DecodeEncode(others[i], fontsetName, "", now, d);
    }
    MarginsRecordDecodesToZero(p, marginsId);
    FirstSomeAround(g, m, o, ExtractMargins, ZERO_MARGINS);
  }

  /** Records of two runs of elements around a record that decodes to
      nothing decode to the two runs reloaded. */
  lemma DecodeAllAround(
    xs: seq<AdditionalElement>, m: UserObject, ys: seq<AdditionalElement>,
    fontsetName: FontStyle -> string, freshIds: nat -> string, now: int, d: StyleDefaults)
    requires forall e :: e in xs ==> FontRoundTrips(e, d, fontsetName)
    requires forall e :: e in ys ==> FontRoundTrips(e, d, fontsetName)
    requires Decoder(freshIds, now, d)(m, |xs|) == Ok(None)
    ensures var encode, reload := e => EncodeElement(e, fontsetName), e => Reloaded(e, now, d);
      DecodeAll(Map(encode, xs) + [m] + Map(encode, ys), 0, freshIds, now, d) == Ok(Map(reload, xs) + Map(reload, ys))
  {
    var encode, reload := e => EncodeElement(e, fontsetName), e => Reloaded(e, now, d);
    var g, o := Map(encode, xs), Map(encode, ys);
    var decode := Decoder(freshIds, now, d);
    DecodeAllEncoded(xs, fontsetName, 0, freshIds, now, d);
    DecodeAllEncoded(ys, fontsetName, |g| + 1, freshIds, now, d);
    assert CollectSome(g, 0, decode) == Ok(Map(reload, xs));
    assert CollectSome(o, |g| + 1, decode) == Ok(Map(reload, ys));
    CollectSomeAround(g, m, o, 0, decode);
  }

  /** The element pass over a saved document gives the reloaded tracks, then
      the reloaded other elements; the margins record adds nothing. */
  lemma SavedElements(
    p: MapProject, fontsetName: FontStyle -> string, marginsId: string, freshIds: nat -> string, now: int, d: StyleDefaults)
    requires forall e :: e in p.additionalElements ==> FontRoundTrips(e, d, fontsetName)
    ensures DecodeAll(ToMapRenderingJob(p, e => EncodeElement(e, fontsetName), marginsId).attributes.userObjects, 0, freshIds, now, d)
            == Ok(SavedAndLoaded(p, "", now, d).additionalElements)
  {
    var encode := e => EncodeElement(e, fontsetName);
    var els := p.additionalElements;
    var gpx, others := Filter(IsGpx, els), Filter(IsNotGpx, els);
    var records := ToMapRenderingJob(p, encode, marginsId).attributes.userObjects;
    var g, m, o := Map(encode, gpx), GenerateMargins(p, marginsId), Map(encode, others);
    assert records == g + [m] + o by {
      assert records == records[..|gpx|] + [records[|gpx|]] + records[|gpx| + 1..];
    }
    forall e | e in gpx ensures FontRoundTrips(e, d, fontsetName) {
      FilterMembership(IsGpx, els, e);
    }
    forall e | e in others ensures FontRoundTrips(e, d, fontsetName) {
      FilterMembership(IsNotGpx, els, e);
    }
    MarginsRecordIsNoElement(p, marginsId, freshIds(|gpx|), now, d);
    assert Decoder(freshIds, now, d)(m, |gpx|) == Ok(None);
    DecodeAllAround(gpx, m, others, fontsetName, freshIds, now, d);
  }

  /** Saving a project and loading the document back gives the project with
      its margins zeroed, its element positions and scale styles reset and
      its tracks first, whatever ids the loader could draw. */
  lemma LoadSaved(
    p: MapProject, name: string, fontsetName: FontStyle -> string, marginsId: string,
    scales: seq<Scale>, freshIds: nat -> string, now: int, d: StyleDefaults)
    requires p.scale in scales
    requires forall e :: e in p.additionalElements ==> FontRoundTrips(e, d, fontsetName)
    ensures FromMapRenderingJob(name, ToMapRenderingJob(p, e => EncodeElement(e, fontsetName), marginsId), scales, freshIds, now, d)
            == Ok(SavedAndLoaded(p, name, now, d))
  {
    SavedMargins(p, fontsetName, marginsId, now, d);
    SavedElements(p, fontsetName, marginsId, freshIds, now, d);
  }

  /** A number of the form 10^k. */
  ghost predicate IsPowerOfTen(n: int)
    decreases if n < 0 then 0 else n
  {
    n == 1 || (n >= 10 && n % 10 == 0 && IsPowerOfTen(n / 10))
  }

  /** 10^ceil(log10 n): the smallest power of ten that is at least `n`
      (see CeilPowerOfTenIsLeast), and less than 10n. */
  function CeilPowerOfTen(n: nat): (p: nat)
    ensures n <= p
    ensures n >= 1 ==> p < 10 * n
  {
    if n <= 1 then 1 else 10 * CeilPowerOfTen((n + 9) / 10)
  }

  /** The result is a power of ten, and no power of ten at least `n` is
      smaller. */
  lemma {:induction false} CeilPowerOfTenIsLeast(n: nat, q: int)
    ensures IsPowerOfTen(CeilPowerOfTen(n))
    ensures IsPowerOfTen(q) && n <= q ==> CeilPowerOfTen(n) <= q
  {
    if n > 1 {
      var m := (n + 9) / 10;
      CeilPowerOfTenIsLeast(m, q / 10);
      var c := CeilPowerOfTen(m);
      assert (10 * c) % 10 == 0 && (10 * c) / 10 == c;
      if IsPowerOfTen(q) && n <= q {
        assert q >= 10 && q % 10 == 0;
        assert m <= q / 10;
      }
    }
  }

  /** Comparing a ratio with a bound is comparing the numerator with the
      bound times the positive denominator. */
  lemma RatioAtLeast(p: real, r: real, c: real)
    requires r > 0.0
    ensures p / r >= c <==> p >= c * r
    ensures (p / r) * r == p
  {
    var q := p / r;
    assert q * r == p;
    assert (q - c) * r == p - c * r;
    if q >= c {
      assert (q - c) * r >= 0.0;
    } else {
      assert (c - q) * r > 0.0;
    }
  }

  /** The integer comparisons the scale bar depends on, read over the reals. */
  lemma CastComparisons(n: int, rf: int)
    ensures n >= 30 * rf <==> n as real >= 30.0 * rf as real
    ensures n >= 15 * rf <==> n as real >= 15.0 * rf as real
    ensures 10 * rf <= n <==> 10.0 * rf as real <= n as real
    ensures n < 100 * rf <==> n as real < 100.0 * rf as real
  {
  }

  /** The length in metres of one interval of the scale bar at the
      reduction factor r: with P the smallest power of ten at least 10r, a
      quarter, a half or the whole of P/1000 as P is at least 30r, at least
      15r, or less. */
  function UnitLengthInM(rf: ReductionFactor): (u: real)
    ensures var n := CeilPowerOfTen(10 * rf);
      && (n >= 30 * rf ==> u * 4000.0 == n as real)
      && (15 * rf <= n < 30 * rf ==> u * 2000.0 == n as real)
      && (n < 15 * rf ==> u * 1000.0 == n as real)
  {
    CastComparisons(CeilPowerOfTen(10 * rf), rf);
    UnitLengthFor(CeilPowerOfTen(10 * rf) as real, rf as real)
  }

  /** The interval length for the power of ten `p` and the reduction factor
      `r`, branching on the scale ratio p/r: a quarter, a half or the whole
      of p/1000 as p is at least 30r, at least 15r, or less. */
  function UnitLengthFor(p: real, r: real): (u: real)
    requires r > 0.0
    ensures p >= 30.0 * r ==> u * 4000.0 == p
    ensures 15.0 * r <= p < 30.0 * r ==> u * 2000.0 == p
    ensures p < 15.0 * r ==> u * 1000.0 == p
  {
    RatioAtLeast(p, r, 30.0);
    RatioAtLeast(p, r, 15.0);
    var scaleRatio := p / r;
    if scaleRatio >= 30.0 then scaleRatio * r / 4000.0
    else if scaleRatio >= 15.0 then scaleRatio * r / 2000.0
    else scaleRatio * r / 1000.0
  }

  /** Bounds on a numerator, relative to a positive denominator, bound the
      quotient. */
  lemma QuotientBounds(x: real, r: real, lo: real, hi: real)
    requires r > 0.0 && lo * r <= x < hi * r
    ensures lo <= x / r < hi
  {
    RatioAtLeast(x, r, lo);
    RatioAtLeast(x, r, hi);
  }

  /** One interval of the scale bar is between 7.5 mm and 25 mm long on the
      printed page, at every scale. */
  lemma UnitLengthOnPaper(rf: ReductionFactor)
    ensures 7.5 <= UnitLengthInM(rf) * 1000.0 / rf as real < 25.0
  {
    var n := CeilPowerOfTen(10 * rf);
    var r, p := rf as real, n as real;
    var u := UnitLengthInM(rf);
    var x := u * 1000.0;
    CastComparisons(n, rf);
    assert 10.0 * r <= p < 100.0 * r;
    if n >= 30 * rf {
      assert x == p / 4.0;
      assert 7.5 * r <= x < 25.0 * r;
    } else if n >= 15 * rf {
      assert x == p / 2.0;
      assert 7.5 * r <= x < 25.0 * r;
    } else {
      assert x == p;
      assert 7.5 * r <= x < 25.0 * r;
    }
    QuotientBounds(x, r, 7.5, 25.0);
  }

  /** At 1:50000 the ratio is 20, so one interval is 500 m. */
  lemma UnitLengthAt50000()
    ensures UnitLengthInM(50000) == 500.0
  {
    assert CeilPowerOfTen(500000) == 1000000 by {
      assert CeilPowerOfTen(1) == 1;
      assert CeilPowerOfTen(5) == 10;
      assert CeilPowerOfTen(50) == 100;
      assert CeilPowerOfTen(500) == 1000;
      assert CeilPowerOfTen(5000) == 10000;
      assert CeilPowerOfTen(50000) == 100000;
    }
  }

  /** What an attachment holds: a generated scale-bar graphic, built from the
      unit length and the reduction factor, or a track file's data. */
  datatype FileContent = ScaleSvg(unitLengthInM: real, reductionFactor: int) | TrackData(data: string)

  /** An attachment to upload after a save, with the name it is uploaded under. */
  datatype UserFile = UserFile(name: Option<string>, content: FileContent)

  predicate IsScale(e: AdditionalElement) { e.Type() == SCALE }

  /** A track whose file still holds data (a non-empty string). */
  predicate HasTrackData(e: AdditionalElement) {
    e.GpxElement? && e.file.data.Some? && e.file.data.value != ""
  }

  /** One `scale_<id>.svg` graphic per scale bar, in element order. */
  function ScaleFiles(els: seq<AdditionalElement>, unit: real, rf: int): (files: seq<UserFile>)
    ensures var scales := Filter(IsScale, els);
      && |files| == |scales|
      && forall i :: 0 <= i < |files| ==> files[i] == UserFile(Some("scale_" + scales[i].id + ".svg"), ScaleSvg(unit, rf))
  {
    if els == [] then []
    else (if IsScale(els[0]) then [UserFile(Some("scale_" + els[0].id + ".svg"), ScaleSvg(unit, rf))] else [])
         + ScaleFiles(els[1..], unit, rf)
  }

  /** One file per track that holds data, named as the track's file, in
      element order. */
  function TrackFiles(els: seq<AdditionalElement>): (files: seq<UserFile>)
    ensures var tracks := Filter(HasTrackData, els);
      && |files| == |tracks|
      && forall i :: 0 <= i < |files| ==>
           HasTrackData(tracks[i]) && files[i] == UserFile(tracks[i].file.name, TrackData(tracks[i].file.data.value))
  {
    if els == [] then []
    else (if HasTrackData(els[0]) then [UserFile(els[0].file.name, TrackData(els[0].file.data.value))] else [])
         + TrackFiles(els[1..])
  }

  /** The attachments a saved project uploads: the scale-bar graphics first,
      then the track files that hold data. */
  function ToUserFiles(p: MapProject): (files: seq<UserFile>)
    ensures var scales, tracks := Filter(IsScale, p.additionalElements), Filter(HasTrackData, p.additionalElements);
      var rf := p.scale.reductionFactor;
      && |files| == |scales| + |tracks|
      && (forall i :: 0 <= i < |scales| ==>
            files[i] == UserFile(Some("scale_" + scales[i].id + ".svg"), ScaleSvg(UnitLengthInM(rf), rf)))
      && (forall i :: 0 <= i < |tracks| ==>
            HasTrackData(tracks[i]) &&
            files[|scales| + i] == UserFile(tracks[i].file.name, TrackData(tracks[i].file.data.value)))
  {
    var rf := p.scale.reductionFactor;
    var scaleFiles := ScaleFiles(p.additionalElements, UnitLengthInM(rf), rf);
    var trackFiles := TrackFiles(p.additionalElements);
    assert forall i :: 0 <= i < |trackFiles| ==> (scaleFiles + trackFiles)[|scaleFiles| + i] == trackFiles[i];
    scaleFiles + trackFiles
  }
}
