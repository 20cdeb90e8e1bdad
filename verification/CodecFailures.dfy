// When encoding a picture fails once its headers are made: a value beyond 32 bits or the bitplanes of a coefficient, a
// length beyond its field, the budget, headers that cannot be written, or a CFA pattern the transform does not know.
module CodecFailures {
  import opened Wrappers
  import opened Arith
  import opened HeaderTypes
  import opened Geometry
  import opened GeometryTiling
  import opened Planes
  import opened WaveletLevels
  import opened MultiComponent
  import opened SampleScaling
  import opened BodyCodec
  import opened BodyFailures
  import opened Codec
  import ConstantRate
  import HeaderCodec
  import HeaderLimits
  import StarTetrix

  lemma {:induction false} ScaleInFails(h: Headers, picture: Picture, k: nat)
    requires Valid(h) && PlanesOk(picture) && k <= |picture| == h.pih.nc && h.nlt.None?
    ensures var r := ScaleIn(h, picture, k);
            if r.Ok? then SameSizes(picture[k..], r.value) else r.error == Overflow
    decreases |picture| - k
  {
    hide Valid, InPlane, Fits;
    if k < |picture| {
      ScaleInFails(h, picture, k + 1);
      if ScaleIn(h, picture, k).Ok? {
        var rest, all := ScaleIn(h, picture, k + 1).value, ScaleIn(h, picture, k).value;
        forall i | 0 <= i < |all|
          ensures all[i].Ok() && all[i].width == picture[k..][i].width && all[i].height == picture[k..][i].height
        {
          if i > 0 {
            assert all[i] == rest[i - 1] && picture[k..][i] == picture[k + 1..][i - 1];
          }
        }
      }
    }
  }

  /** The CFA pattern of the headers is one of those the transform knows, where it is needed. */
  predicate PatternKnown(h: Headers) {
    h.pih.cpih == 3 ==> PatternType(h.crg).Ok?
  }

  lemma {:induction false} RunFailsOnOverflow(st: StarTetrix.Tetrix, steps: seq<StarTetrix.Step>, planes: Picture)
    requires st.Ok() && StepsAllOk(steps) && st.Holds(planes)
    ensures StarTetrix.Run(st, steps, planes).Err? ==> StarTetrix.Run(st, steps, planes).error == Overflow
  {
    hide Fits, StarTetrix.LiftedPlane;
    if steps != [] && StarTetrix.Lift(st, steps[0], planes).Ok? {
      RunFailsOnOverflow(st, steps[1..], StarTetrix.Lift(st, steps[0], planes).value);
    }
  }

  lemma PlanesTakePart(h: Headers, planes: Picture)
    requires Supported(h) && SizesMatch(h, planes)
    ensures h.pih.cpih == 1 ==> PlanesMatch(h, planes, 3)
    ensures h.pih.cpih == 3 ==> PlanesMatch(h, planes, 4) && h.cts.Some?
    ensures h.pih.cpih == 0 || h.pih.cpih == 1 || h.pih.cpih == 3
  {
    hide SizesOk, PrecisionOk, ComputeBandLayout, BandTablesOk, CeilDiv;
    HeaderFacts(h);
    assert Unsampled(h.components, 0, 3) ==> forall c | 0 <= c < 3 && c < |planes| :: h.components[c].sx == 1;
    assert Unsampled(h.components, 0, 4) ==> forall c | 0 <= c < 4 && c < |planes| :: h.components[c].sx == 1;
    CeilDivOne(h.pih.wf);
    CeilDivOne(h.pih.hf);
  }

  lemma MctFails(h: Headers, planes: Picture)
    requires Supported(h) && PictureOk(h, planes) && SizesMatch(h, planes) && PatternKnown(h)
    ensures Mct(h, planes, true).Err? ==> Mct(h, planes, true).error == Overflow
  {
    hide Supported, SizesMatch, PlanesMatch, PatternType, Fits, StarTetrix.Run, ForwardSteps, InverseSteps;
    PlanesTakePart(h, planes);
    if h.pih.cpih == 3 {
      PlanesHeld(h, planes);
      StepsOk(TetrixOf(h).value);
      RunFailsOnOverflow(TetrixOf(h).value, ForwardSteps(TetrixOf(h).value), Swap(planes));
    }
  }

  lemma PlanesHeld(h: Headers, planes: Picture)
    requires PictureOk(h, planes) && PlanesMatch(h, planes, 4) && TetrixOf(h).Ok?
    ensures TetrixOf(h).value.Ok() && TetrixOf(h).value.Holds(planes) && TetrixOf(h).value.Holds(Swap(planes))
  {
  }

  lemma {:induction false} ForwardAllFails(h: Headers, planes: Picture, k: nat, img: BandPlanes)
    requires Supported(h) && PlanesOk(planes) && k <= |planes| == h.pih.nc && SizesMatch(h, planes) && Allocated(h, img)
    ensures var r := ForwardAll(h, planes, k, img); if r.Ok? then Allocated(h, r.value) else r.error == Overflow
    decreases |planes| - k
  {
    hide Supported, ForwardDwt, Allocated, ComponentWidth, ComponentHeight;
    HeaderFacts(h);
    AllocatedOk(h, img);
    if k < |planes| {
      ForwardDwtMatches(h, k, planes[k], img);
      if ForwardDwt(h, k, planes[k], img).Ok? {
        ForwardAllFails(h, planes, k + 1, ForwardDwt(h, k, planes[k], img).value);
      }
    }
  }

  lemma AllocatedOk(h: Headers, img: BandPlanes)
    requires Supported(h) && Allocated(h, img)
    ensures AllOk(img)
  {
  }

  /** The transforms of a picture of the right sizes fail on values beyond 32 bits only. */
  lemma AnalyseFails(h: Headers, picture: Picture)
    requires Supported(h) && PlanesOk(picture) && SizesMatch(h, picture) && h.nlt.None? && PatternKnown(h)
    ensures |picture| == h.pih.nc
    ensures var r := Analyse(h, picture); if r.Ok? then Allocated(h, r.value) else r.error == Overflow
  {
    hide Supported, ScaleIn, Mct, ForwardAll, ComponentWidth, ComponentHeight, PatternKnown, Allocated;
    SupportedIsValid(h);
    GridNotEmpty(h);
    ScaleInFails(h, picture, 0);
    if ScaleIn(h, picture, 0).Ok? {
      var planes := ScaleIn(h, picture, 0).value;
      assert picture[0..] == picture;
      SizesKept(h, picture, planes);
      MctFails(h, planes);
      if Mct(h, planes, true).Ok? {
        MctShape(h, planes, true);
        SizesKept(h, planes, Mct(h, planes, true).value);
        ForwardAllFails(h, Mct(h, planes, true).value, 0, Blank(h));
      }
    }
  }

  lemma SizesKept(h: Headers, planes: Picture, other: Picture)
    requires Supported(h) && SizesMatch(h, planes) && SameSizes(planes, other)
    ensures SizesMatch(h, other) && PlanesOk(other)
  {
    hide Supported, ComponentWidth, ComponentHeight;
    HeaderFacts(h);
  }

  /**
   * Encoding a picture of the right sizes ends in one of these ways. The lossless encoder never misses a budget, and
   * nothing else that the encoder, its transforms and its writers check can go wrong.
   */
  lemma EncodeFailsOnlyOn(c: EncoderConfig, h: Headers, picture: Picture)
    requires Supported(h) && PlanesOk(picture) && SizesMatch(h, picture) && h.nlt.None?
    requires HeaderLimits.Writable(h) && PatternKnown(h)
    ensures |picture| == h.pih.nc
    ensures var r := EncodeWith(c, h, picture);
            r.Err? ==> r.error in {Overflow, TooManyBitplanes, LengthOutOfRange} || (!c.lossless && r.error == BudgetTooSmall)
    ensures EncodeWith(c, h, picture) == Err(Overflow) ==> Analyse(h, picture).Err?
  {
    hide Supported, Valid, Analyse, HeaderCodec.WriteHeaders, SlicesEncode, NumBands, NumPrecincts, Npx, WithLength, Allocated,
         HeaderLimits.Writable, FixedBytes, SizesMatch, PatternKnown;
    SupportedIsValid(h);
    AnalyseFails(h, picture);
    HeaderLimits.WriteHeadersExact(h);
    if Analyse(h, picture).Ok? && PolicyOf(c, h, |HeaderCodec.WriteHeaders(h).value|).Ok? {
      var front := HeaderCodec.WriteHeaders(h).value;
      var policy, img := PolicyOf(c, h, |front|).value, Analyse(h, picture).value;
      SlicesFail(h, policy, img, 0, NoStates(h));
      if SlicesEncode(h, policy, img, 0, NoStates(h)).Ok? {
        ConstantRate.HeaderSizeSame(h, |front| + |SlicesEncode(h, policy, img, 0, NoStates(h)).value.0| + 2);
      }
    }
  }
}
