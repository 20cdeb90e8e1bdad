// Encode and Decode as they run: each stage's objects are filled in place and handed to the next.
module CodecStream {
  import opened Wrappers
  import opened BitIO
  import opened HeaderTypes
  import opened Geometry
  import opened GeometryTiling
  import opened Planes
  import opened WaveletLevels
  import opened WaveletTransform
  import opened MultiComponent
  import opened SampleScaling
  import opened BodyCodec
  import opened BodyStream
  import opened Codec
  import HeaderCodec
  import Precinct
  import PrecinctDecoder
  import HeaderStream

  // ---- stages ----------------------------------------------------------------------------------------

  method ScalePlanesIn(h: Headers, picture: Picture) returns (r: Result<Picture>)
    requires Valid(h) && PlanesOk(picture) && |picture| == h.pih.nc && h.nlt.None?
    ensures r == ScaleIn(h, picture, 0)
  {
    hide Valid, ScaleFromInput, CurveOk;
    ghost var goal := ScaleIn(h, picture, 0);
    var planes: Picture := [];
    assert goal.Ok? ==> [] + goal.value == goal.value;
    for k := 0 to |picture|
      invariant goal == Ahead(planes, ScaleIn(h, picture, k))
    {
      ghost var rest := ScaleIn(h, picture, k + 1);
      var p :- ScalePlaneIn(h, k, picture[k]);
      assert rest.Ok? ==> planes + ([p] + rest.value) == planes + [p] + rest.value;
      planes := planes + [p];
    }
    assert planes + [] == planes;
    return Ok(planes);
  }

  function Ahead(done: Picture, r: Result<Picture>): Result<Picture> {
    match r
    case Ok(more) => Ok(done + more)
    case Err(e) => Err(e)
  }

  method ScalePlanesOut(h: Headers, planes: Picture) returns (r: Result<Picture>)
    requires Valid(h) && PlanesOk(planes) && |planes| == h.pih.nc
    ensures r == ScaleOut(h, planes, 0)
  {
    hide Valid, ScaleToOutput;
    ghost var goal := ScaleOut(h, planes, 0);
    var out: Picture := [];
    assert goal.Ok? ==> [] + goal.value == goal.value;
    for k := 0 to |planes|
      invariant goal == Ahead(out, ScaleOut(h, planes, k))
    {
      ghost var rest := ScaleOut(h, planes, k + 1);
      var p :- ScalePlaneOut(h, k, planes[k]);
      assert rest.Ok? ==> out + ([p] + rest.value) == out + [p] + rest.value;
      out := out + [p];
    }
    assert out + [] == out;
    return Ok(out);
  }

  method TransformForward(h: Headers, planes: Picture, image: CoefficientImage) returns (r: Result<()>)
    requires Supported(h) && PlanesOk(planes) && |planes| == h.pih.nc && AllOk(image.bands)
    modifies image
    ensures match ForwardAll(h, planes, 0, old(image.bands))
            case Ok(img) => r.Ok? && image.bands == img
            case Err(e) => r == Err(e)
  {
    hide Supported, ForwardDwt;
    ghost var goal := ForwardAll(h, planes, 0, image.bands);
    for k := 0 to |planes|
      invariant AllOk(image.bands) && goal == ForwardAll(h, planes, k, image.bands)
    {
      var _ :- ForwardTransform(h, k, planes[k], image);
    }
    return Ok(());
  }

  method TransformInverse(h: Headers, image: CoefficientImage) returns (r: Result<Picture>)
    requires Supported(h) && AllOk(image.bands)
    ensures r.Ok? == InverseAll(h, image.bands, 0).Ok?
    ensures r.Ok? ==> r == InverseAll(h, image.bands, 0)
  {
    hide Supported, InverseDwt;
    ghost var goal := InverseAll(h, image.bands, 0);
    var planes: Picture := [];
    assert goal.Ok? ==> [] + goal.value == goal.value;
    for k := 0 to h.pih.nc
      invariant goal == Ahead(planes, InverseAll(h, image.bands, k))
    {
      ghost var rest := InverseAll(h, image.bands, k + 1);
      var p :- InverseTransform(h, k, image);
      assert rest.Ok? ==> planes + ([p] + rest.value) == planes + [p] + rest.value;
      planes := planes + [p];
    }
    assert planes + [] == planes;
    return Ok(planes);
  }

  method CheckPicture(h: Headers, picture: Picture) returns (ok: bool)
    requires Supported(h)
    ensures ok <==> SizesMatch(h, picture)
  {
    hide Supported, ComponentWidth, ComponentHeight;
    HeaderFacts(h);
    if |picture| != h.pih.nc {
      return false;
    }
    for k := 0 to |picture|
      invariant forall i | 0 <= i < k ::
                  picture[i].width == ComponentWidth(h, i) && picture[i].height == ComponentHeight(h, i)
    {
      if picture[k].width != ComponentWidth(h, k) || picture[k].height != ComponentHeight(h, k) {
        return false;
      }
    }
    return true;
  }

  /** Scaled planes transformed in place, then decomposed into the band buffers. */
  method AnalysePicture(h: Headers, picture: Picture, image: CoefficientImage) returns (r: Result<()>)
    requires Supported(h) && PlanesOk(picture) && |picture| == h.pih.nc && h.nlt.None? && image.bands == Blank(h)
    modifies image
    ensures match Analyse(h, picture)
            case Ok(img) => r.Ok? && image.bands == img
            case Err(_) => r.Err?
  {
    hide Supported, ScaleIn, Mct, ForwardAll, NumBands;
    SupportedIsValid(h);
    GridNotEmpty(h);
    var planes :- ScalePlanesIn(h, picture);
    var planeSet := new PlaneSet(planes);
    var _ :- TransformMct(h, planeSet, true);
    MctShape(h, planes, true);
    var _ :- TransformForward(h, planeSet.planes, image);
    return Ok(());
  }

  method SynthesisePicture(h: Headers, image: CoefficientImage) returns (r: Result<Picture>)
    requires Supported(h) && AllOk(image.bands)
    ensures match Synthesise(h, image.bands)
            case Ok(picture) => r == Ok(picture)
            case Err(_) => r.Err?
  {
    hide Supported, InverseAll, Mct, ScaleOut;
    SupportedIsValid(h);
    GridNotEmpty(h);
    var mixed :- TransformInverse(h, image);
    var planeSet := new PlaneSet(mixed);
    var _ :- TransformMct(h, planeSet, false);
    MctShape(h, mixed, false);
    r := ScalePlanesOut(h, planeSet.planes);
  }

  lemma FreshIsBlank(h: Headers, img: BandPlanes)
    requires Supported(h) && |img| == NumBands(h)
    requires forall b | 0 <= b < |img| :: img[b] == Zeros(BandOf(h, b).width, BandOf(h, b).height)
    ensures img == Blank(h)
  {
    hide Supported, NumBands, BandOf;
  }

  // ---- encoder ---------------------------------------------------------------------------------------

  method EncodePicture(c: EncoderConfig, picture: Picture) returns (r: Result<seq<byte>>)
    requires PlanesOk(picture)
    ensures match Encode(c, picture)
            case Ok(bytes) => r == Ok(bytes)
            case Err(_) => r.Err?
  {
    hide MakeHeaders, Supported, SizesMatch, EncodeWith;
    var h :- MakeHeaders(c);
    var g :- Build(h);
    var fits := CheckPicture(h, picture);
    if !fits {
      return Err(BadShape);
    }
    MatchCount(h, picture);
    r := EncodeChecked(c, h, picture);
  }

  lemma MatchCount(h: Headers, picture: Picture)
    requires Supported(h) && SizesMatch(h, picture)
    ensures |picture| == h.pih.nc
  {
  }

  /** Transforms, headers, slices; at a constant rate the headers are written again with the length filled in. */
  method EncodeChecked(c: EncoderConfig, h: Headers, picture: Picture) returns (r: Result<seq<byte>>)
    requires Supported(h) && PlanesOk(picture) && |picture| == h.pih.nc && h.nlt.None?
    ensures match EncodeWith(c, h, picture)
            case Ok(bytes) => r == Ok(bytes)
            case Err(_) => r.Err?
  {
    hide Supported, Analyse, HeaderCodec.WriteHeaders, PolicyOf, SlicesEncode, NumBands, BandOf, Npx, WithLength;
    var image := new CoefficientImage(h);
    FreshIsBlank(h, image.bands);
    var _ :- AnalysePicture(h, picture, image);
    var front :- HeaderStream.WriteHeaderBytes(h);
    var policy :- PolicyOf(c, h, |front|);
    if !Allocated(h, image.bands) {
      return Err(BadBand);
    }
    var columns := FreshColumns(Npx(h));
    ghost var none := NoStates(h);
    StartStates(h, none, columns);
    ghost var coded := SlicesEncode(h, policy, image.bands, 0, none);
    var body :- EncodeSlices(h, policy, image, columns, none);
    assert body == [] + coded.value.0 == coded.value.0;
    if c.lossless {
      return Ok(front + body + END_MARKER);
    }
    var final :- HeaderStream.WriteHeaderBytes(WithLength(h, |front| + |body| + 2));
    return Ok(final + body + END_MARKER);
  }

  lemma StartStates(h: Headers, none: seq<Precinct.State>, columns: seq<PrecinctDecoder.PredictorState>)
    requires Supported(h) && none == NoStates(h) && |columns| == Npx(h)
    requires Hold(columns, seq(Npx(h), _ => Precinct.State([], [], false)))
    ensures Hold(columns, none)
  {
    hide Supported, Npx;
  }

  // ---- decoder ---------------------------------------------------------------------------------------

  /** Slices, end marker and transforms from byte `offset`. */
  method DecodeFrom(h: Headers, data: seq<byte>, offset: nat) returns (r: Result<Picture>)
    requires Supported(h) && offset <= |data|
    ensures match DecodePicture(h, data[offset..])
            case Ok(picture) => r == Ok(picture)
            case Err(_) => r.Err?
  {
    hide Supported, Synthesise, SlicesDecode, NumBands, BandOf, Npx;
    var image := new CoefficientImage(h);
    FreshIsBlank(h, image.bands);
    var columns := FreshColumns(Npx(h));
    ghost var none := NoStates(h);
    StartStates(h, none, columns);
    var end :- DecodeSlices(h, columns, none, image, data, offset);
    assert |data[end..]| == |data| - end;
    if end + 2 > |data| || data[end] != 0xFF || data[end + 1] != 0x11 {
      return Err(BadMarker);
    }
    r := SynthesisePicture(h, image);
  }

  lemma OnlyValid(h: Headers)
    ensures !Valid(h) ==> !Supported(h)
  {
  }

  method DecodeStream(data: seq<byte>) returns (r: Result<(Headers, Picture)>)
    ensures match Decode(data)
            case Ok(out) => r == Ok(out)
            case Err(_) => r.Err?
  {
    hide Supported, DecodePicture, HeaderCodec.ParseHeaders, WithLength;
    var parsed :- HeaderStream.ParseHeaderBytes(data);
    var h, offset := parsed.0, parsed.1;
    OnlyValid(WithLength(h, 0));
    var g :- Build(WithLength(h, 0));
    if !(0 <= offset <= |data|) {
      return Err(EndOfData);
    }
    var picture :- DecodeFrom(WithLength(h, 0), data, offset);
    return Ok((h, picture));
  }
}
