// What a decoder returns on arbitrary bytes: headers that meet all constraints and a picture of exactly the size and
// range they announce.
module DecodedPicture {
  import opened Wrappers
  import opened Arith
  import opened BitIO
  import opened HeaderTypes
  import opened Geometry
  import opened Planes
  import opened WaveletLevels
  import opened MultiComponent
  import opened SampleScaling
  import opened BodyCodec
  import opened Codec
  import ConstantRate
  import HeaderCodec

  lemma InverseSized(h: Headers, k: nat, img: BandPlanes)
    requires Supported(h) && k < h.pih.nc && AllOk(img) && InverseDwt(h, k, img).Ok?
    ensures k < |h.components| && h.components[k].sx > 0 && h.components[k].sy > 0
    ensures var p := InverseDwt(h, k, img).value; p.width == ComponentWidth(h, k) && p.height == ComponentHeight(h, k)
  {
    hide Supported, InverseTo, ScaledBand, NumBands, ComponentWidth, ComponentHeight;
    HeaderFacts(h);
    if k >= Decomposed(h) {
      PlainSize(h, k);
      LoadedSize(h, img, PlainBandIndex(h, k));
    }
  }

  /** Component k + i of the headers for plane i. */
  ghost predicate SizedFrom(h: Headers, planes: Picture, k: nat)
    requires Supported(h) && k + |planes| == h.pih.nc
  {
    HeaderFacts(h);
    forall i | 0 <= i < |planes| ::
      planes[i].width == ComponentWidth(h, k + i) && planes[i].height == ComponentHeight(h, k + i)
  }

  lemma {:induction false} InverseAllSized(h: Headers, img: BandPlanes, k: nat)
    requires Supported(h) && AllOk(img) && k <= h.pih.nc && InverseAll(h, img, k).Ok?
    ensures SizedFrom(h, InverseAll(h, img, k).value, k)
    decreases h.pih.nc - k
  {
    hide Supported, InverseDwt, ComponentWidth, ComponentHeight;
    HeaderFacts(h);
    if k < h.pih.nc {
      InverseSized(h, k, img);
      InverseAllSized(h, img, k + 1);
      var rest := InverseAll(h, img, k + 1).value;
      var all := InverseAll(h, img, k).value;
      forall i | 0 <= i < |all|
        ensures all[i].width == ComponentWidth(h, k + i) && all[i].height == ComponentHeight(h, k + i)
      {
        if i > 0 {
          assert all[i] == rest[i - 1] && k + i == k + 1 + (i - 1);
        }
      }
    }
  }

  lemma OutputPlane(h: Headers, k: nat, p: Plane)
    requires Valid(h) && k < h.pih.nc && p.Ok() && ScaleToOutput(h, k, p).Ok?
    ensures var r := ScaleToOutput(h, k, p).value;
            r.width == p.width && r.height == p.height && SamplesWithin(r, BitDepth(h, k))
  {
    hide Valid, OutSample, Pow2;
    var r := ScaleToOutput(h, k, p).value;
    forall y | 0 <= y < r.height
      ensures RowWithin(r.rows[y], BitDepth(h, k))
    {
      forall x | 0 <= x < r.width
        ensures 0 <= r.rows[y][x] < Pow2(BitDepth(h, k))
      {
        OutputWithin(h, k, p.rows[y][x]);
      }
    }
  }

  ghost predicate InDepthFrom(h: Headers, planes: Picture, k: nat)
    requires Valid(h) && PlanesOk(planes) && k + |planes| == h.pih.nc
  {
    forall i | 0 <= i < |planes| :: SamplesWithin(planes[i], BitDepth(h, k + i))
  }

  lemma {:induction false} ScaleOutWithin(h: Headers, planes: Picture, k: nat)
    requires Valid(h) && PlanesOk(planes) && k <= |planes| == h.pih.nc && ScaleOut(h, planes, k).Ok?
    ensures var r := ScaleOut(h, planes, k).value;
            && k + |r| == h.pih.nc && SameSizes(planes[k..], r) && InDepthFrom(h, r, k)
    decreases |planes| - k
  {
    hide Valid, ScaleToOutput, SamplesWithin, BitDepth;
    if k < |planes| {
      OutputPlane(h, k, planes[k]);
      ScaleOutWithin(h, planes, k + 1);
      var rest := ScaleOut(h, planes, k + 1).value;
      var all := ScaleOut(h, planes, k).value;
      forall i | 0 <= i < |all|
        ensures all[i].width == planes[k..][i].width && all[i].height == planes[k..][i].height
        ensures SamplesWithin(all[i], BitDepth(h, k + i))
      {
        if i > 0 {
          assert all[i] == rest[i - 1] && planes[k..][i] == planes[k + 1..][i - 1] && k + i == k + 1 + (i - 1);
        }
      }
    }
  }

  lemma SynthesisWithin(h: Headers, img: BandPlanes)
    requires Supported(h) && AllOk(img) && Synthesise(h, img).Ok?
    ensures Valid(h)
    ensures var picture := Synthesise(h, img).value;
            PlanesOk(picture) && SizesMatch(h, picture) && WithinDepth(h, picture)
  {
    hide Supported, Valid, InverseAll, Mct, ScaleOut, ComponentWidth, ComponentHeight, SamplesWithin;
    SupportedIsValid(h);
    HeaderFacts(h);
    GridNotEmpty(h);
    var mixed := InverseAll(h, img, 0).value;
    InverseAllSized(h, img, 0);
    MctShape(h, mixed, false);
    var planes := Mct(h, mixed, false).value;
    ScaleOutWithin(h, planes, 0);
    assert planes[0..] == planes;
    var picture := Synthesise(h, img).value;
    forall k | 0 <= k < |picture|
      ensures picture[k].width == ComponentWidth(h, k) && picture[k].height == ComponentHeight(h, k)
      ensures SamplesWithin(picture[k], BitDepth(h, k))
    {
      assert picture[k].width == planes[k].width && planes[k].width == mixed[k].width == ComponentWidth(h, 0 + k);
      assert picture[k].height == planes[k].height && planes[k].height == mixed[k].height == ComponentHeight(h, 0 + k);
      assert SamplesWithin(picture[k], BitDepth(h, 0 + k));
    }
  }

  /** Headers that meet all constraints, and a picture of their sizes and their sample range. */
  ghost predicate Sound(h: Headers, picture: Picture) {
    hide ComponentWidth, ComponentHeight, SamplesWithin;
    && Supported(h) && Valid(h) && PlanesOk(picture)
    && SizesMatch(h, picture) && WithinDepth(h, picture)
  }

  ghost predicate SoundIfDecoded(data: seq<byte>) {
    hide Decode, Sound;
    Decode(data).Ok? ==> Sound(Decode(data).value.0, Decode(data).value.1)
  }

  /** Any bytes that decode at all carry valid headers, and the picture has their sizes and their sample range. */
  lemma DecodedIsSound(data: seq<byte>)
    ensures SoundIfDecoded(data)
  {
    hide Supported, Valid, DecodePicture, WithLength, SamplesWithin, BitDepth;
    if Decode(data).Ok? {
      var (h, picture) := Decode(data).value;
      var g := WithLength(h, 0);
      PictureFrom(g, data[HeaderCodec.ParseHeaders(data).value.1..]);
      SupportedIsValid(g);
      SameLimits(h, picture);
    }
  }

  lemma PictureFrom(h: Headers, data: seq<byte>)
    requires Supported(h) && DecodePicture(h, data).Ok?
    ensures Valid(h)
    ensures var picture := DecodePicture(h, data).value;
            PlanesOk(picture) && SizesMatch(h, picture) && WithinDepth(h, picture)
  {
    hide Supported, Valid, SlicesDecode, Synthesise, SizesMatch, WithinDepth;
    SynthesisWithin(h, SlicesDecode(h, 0, NoStates(h), Blank(h), data).value.img);
  }

  /** Lcod takes no part in sizes and ranges. */
  lemma SameLimits(h: Headers, picture: Picture)
    requires Supported(WithLength(h, 0)) && Valid(WithLength(h, 0)) && PlanesOk(picture)
    requires SizesMatch(WithLength(h, 0), picture) && WithinDepth(WithLength(h, 0), picture)
    ensures Supported(h) && Valid(h) && SizesMatch(h, picture) && WithinDepth(h, picture)
  {
    var g := WithLength(h, 0);
    assert WithLength(g, h.pih.lcod) == h;
    ConstantRate.LengthChangesNothing(g, h.pih.lcod);
    hide Supported, Valid, WithLength, SamplesWithin;
  }
}
