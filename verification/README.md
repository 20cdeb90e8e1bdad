# JPEG XS codec: model and proofs

A Dafny model of the JPEG XS reference codec in `compression/jxs` (ISO/IEC 21122-1:2024, Annexes A to G), encoder
and decoder, and proofs that the one undoes the other. Two theorems sum it up:

- `Codec.LosslessEndToEnd`: whatever a lossless configuration and a picture in range encode to decodes to that
  picture, sample for sample.
- `ConstantRate.ConstantRateEndToEnd`: a constant-rate stream meets its target to within one byte per precinct and
  decodes to what the finest quantisers that fit every precinct's budget keep: the least Q of all, then the largest R.

A codec whose two sides agree may still write another format than the standard's. What the bytes and the transforms mean is
proved as well, apart from any round trip: where each field and bit stands (HeaderLayout, HeaderSegments, BitLayout,
StreamLayout), which line follows which (PacketOrder, PrecinctOrder), what predicts a count and what that costs
(CountCosts), how far a decoded coefficient is from its original (CodingError), and what bands, colour components and
samples are of a picture (BandMeaning, ColourMeaning, CurveMeaning).

Everything else is either a layer below them or a property of one layer that goes further: exact re-encoding of
decoded precincts, totality of the precinct decoder on arbitrary bytes, the raw-mode constraint and the optimality of
the raw-mode fallback, sizes that are monotone in Q and R, error bounds of the quantisers, tiling of bands by
precincts and of lines by packets, reversibility of the wavelet and multi-component transforms on all sizes and their
range, the exact conditions under which samples survive the non-linear transfer curves, and the only ways in which
encoding can fail.

## Layout

Each layer has functions that say what is computed, lemmas about them, and methods that compute it the way the
program does: bit cursors, in-place filters over arrays, state and image objects, loops that append bytes. The methods
are proved equal to the functions; the lemmas are proved about the functions.

| layer | functions and lemmas | methods |
|---|---|---|
| bits and codes | Arith, BitIO, Vlc, PacketHeaders | BitIO, Vlc, PacketHeaders |
| quantisation | Quantiser, CodingError, RefinementOrder | Quantiser |
| precincts | Precinct, PrecinctLines, PrecinctRoundTrip, PrecinctTheorems, Reencoding, RawFallback, RawOptimality, CountCosts, BitLayout, HeaderModes, CoarserTruncation, SizesMonotone, StreamFlags, DecoderTotality, EncoderFailures, SmallPrecincts | PrecinctDecoder, PrecinctEncoder |
| headers | HeaderTypes, Segments, HeaderFields, HeaderCodec, HeaderLimits, HeaderLayout, HeaderSegments, ParsedHeaders, PrecinctHeaders, AnnexWeights | Segments, HeaderStream, PrecinctHeaders |
| geometry | Geometry, GeometryTiling, GeometryPackets, PrecinctOrder, PacketOrder, Placement | Geometry, GeometryPackets, Placement |
| wavelet | Planes, Lifting, Wavelet, WaveletLevels, BandMeaning | Lifting, Wavelet, WaveletTransform |
| components and samples | StarTetrix, MultiComponent, ColourMeaning, SquareRoot, Scaling, CurveMeaning, SampleScaling | MultiComponent, SquareRoot, SampleScaling |
| codec | BodyCodec, Codec, StreamLayout, RunHistory, ConstantRate, DecodedPicture, BodyFailures, SmallPictures, CodecFailures, TransformRange, GreyPictures, Instances, ManyBands | RateControl, BodyStream, CodecStream |

A thrown exception is an `Err` of `Wrappers.Result`; `Narrow` is a check that a value fits in 32 bits, and integers are
otherwise unbounded. `HeaderTypes.Valid` is `Validate` (headers.cc:416-518); `Geometry.Supported` adds that no
component is subsampled vertically, which the geometry refuses. Ng = 4 and Ss = 8 are the only values the headers admit
and appear as constants.

Five places where the code and what one expects of it part, each with the exact condition:

- `WriteHeaders` lets through extended NLT slopes outside 1..4 and refresh gains above 15, which `ParseHeaders`
  refuses. `HeaderCodec.HeadersRoundTrip` says exactly when headers survive, `HeaderLimits.WriteHeadersExact` when they
  are written at all.
- The constraints do not order the thresholds of the extended NLT. With T1 > T2 the black and the regular branch overlap
  and samples in the overlap are read by the other branch than wrote them. `Scaling.ExtendedExact` says exactly which
  samples survive in either order, `Instances.ReversedStreamFails` shows one that does not.
- R is searched in 0..2*NL-1 but carried in eight bits. `ConstantRate.CarriedIsChosen` says exactly when the two differ:
  with more than 128 bands and a budget that the finest quantisation fits, as in `ManyBands.ManyEncodes`. It also says
  that it does no harm: either R truncates alike, and the second coding of the precinct always fits
  (`ConstantRate.WinnerRecodes`).
- Star-Tetrix knows a CFA pattern by its greens only. Under BGGR and GBRG, which CRG may register too, red and blue are
  taken to lie in each other's places. `ColourMeaning.PlacedAsRegistered` says that they lie where CRG puts them exactly
  when red is in the upper row.
- R is meant to refine one band after the other. Two of the six Annex I tables give two bands the same priority
  (`RefinementOrder.SharedPriority`), so that one step of R refines both and another none; with the other four each step
  refines exactly one (`RefinementOrder.OneBandRefined`).

## Model

| member | source | states |
|---|---|---|
| Codec.LosslessEndToEnd | compression/jxs/encoder.cc:112-254 | main theorem: for every lossless configuration and every picture whose samples are below 2^B, whenever encoding returns bytes, decoding them (with anything appended) returns the same headers and exactly the same planes; through scaling, Mct, DWT, precincts, slices and headers |
| Codec.SynthesisUndoes | compression/jxs/decoder.cc:49-57 | without fractional bits and non-linearity the inverse chain (all DWTs, Mct, output scaling) undoes the forward chain for every size, every Cpih and every level count |
| Codec.PlainHeadersBack | compression/jxs/headers.cc:279-340 | headers the encoder makes parse back unchanged, ending exactly where the first slice begins |
| Codec.ForwardAllRestores | compression/jxs/encoder.cc:124-130 | transforming the components one after the other into shared band buffers loses none of them: each is reconstructed exactly afterwards |
| Codec.MakeHeaders | compression/jxs/encoder.cc:61-110 | headers made from a configuration are valid, carry no NLT and no refresh weights, and have Fq = 0 when lossless |
| Codec.CapabilitiesTold | compression/jxs/encoder.cc:70-93 | capability bit i of the headers made is set exactly for what was configured: 1 Star-Tetrix, 5 components without decomposition, 6 lossless, 8 raw mode per packet, and no other |
| AnnexWeights.AnnexIFits | compression/jxs/encoder.cc:43-59 | without configured weights the Annex I table has one entry per band of a CFA picture with one plain component, gains the constraints admit and priorities below the number of bands |
| RefinementOrder.OwnPriorities | compression/jxs/encoder.cc:20-50 | four of the six Annex I tables give every band a priority of its own, so R takes the bands in one definite order |
| RefinementOrder.SharedPriority | compression/jxs/encoder.cc:20-34 | the in-line tables for no and for one vertical level give priority 9 to two bands, and none priority 8 or 0 |
| RefinementOrder.OneBandRefined | compression/jxs/entropy.cc:34-39 | where priorities differ, one more in R lowers T in a single band, and only by one; after as many steps as bands every band is at the T of the next finer Q |
| RefinementOrder.NextR | compression/jxs/entropy.cc:34-39 | one more in R changes T only where the priority is R, there by at most one, and by exactly one unless Q is used up by the gain or 2^Br is |
| DecodedPicture.DecodedIsSound | compression/jxs/decoder.cc:15-58 | any bytes that decode at all carry headers meeting every constraint, and the picture has exactly their sizes and every sample below 2^B |
| CodecFailures.EncodeFailsOnlyOn | compression/jxs/encoder.cc:112-254 | once headers are made, encoding ends only in a value beyond 32 bits (of the transforms), too many bitplanes, a length beyond its field, or (constant rate) the budget; no other check of encoder, transforms or writers can fail |
| CodecFailures.AnalyseFails | compression/jxs/encoder.cc:124-130 | the transforms of a picture of the right sizes fail on values beyond 32 bits only |
| TransformRange.AnalyseSucceeds | compression/jxs/encoder.cc:124-130 | for every picture of the right sizes with samples below 2^B, under headers without NLT that leave room in 32 bits, scaling, Mct and all DWTs succeed: no intermediate value is ever narrowed away |
| TransformRange.UsualHeadersStay | compression/jxs/headers.cc:416-518 | the headers that leave that room: all of Cpih 0 and 1, and with Star-Tetrix those of up to 16 bits or of up to nine levels in both directions together |
| TransformRange.LineGrows | compression/jxs/transform.cc:60-65 | the 5/3 filter enlarges magnitudes by at most 3/2 (rounded up) in the low-pass and 2 in the high-pass band, borders included |
| TransformRange.TetrixBelow | compression/jxs/transform.cc:520-556 | Star-Tetrix enlarges magnitudes by at most 18, for every Cf, E1, E2 and pattern |
| TransformRange.EncodeFailsInRange | compression/jxs/encoder.cc:112-254 | of pictures in range only sizes remain to fail on: of coefficients, of length fields and of the budget |
| GreyPictures.GreyEncodes | compression/jxs/encoder.cc:112-254 | a mid-grey picture without multi-component transform whose precincts are small is encoded, losslessly or with a budget of at least 2^19 bytes per precinct, for every size and level count |
| Instances.GreyPairEncodes | compression/jxs/encoder.cc:112-254 | a concrete configuration and picture for which encoding returns, so that it comes back |
| ManyBands.ManyEncodes | compression/jxs/encoder.cc:112-254 | a concrete constant-rate configuration of 136 bands and a picture for which encoding returns and keeps its rate; the search ends at R = 271 and the header carries 15 |
| CodecStream.EncodePicture | compression/jxs/encoder.cc:112-254 | the encoder run on its objects (band buffers, column states, growing output) returns exactly the bytes of the function the theorems speak of, or fails with it |
| CodecStream.DecodeStream | compression/jxs/decoder.cc:15-58 | the decoder run on its objects returns exactly what the decoding function returns on any bytes, or fails with it |
| CodecStream.DecodeFrom | compression/jxs/decoder.cc:23-47 | slices, end-of-codestream marker and inverse transforms from a byte offset |
| CodecStream.AnalysePicture | compression/jxs/encoder.cc:124-130 | input scaling, in-place Mct and DWT into the band buffers compute the specified coefficient image |
| CodecStream.SynthesisePicture | compression/jxs/decoder.cc:49-57 | inverse DWT, in-place Mct and output scaling compute the specified picture |
| ConstantRate.ConstantRateEndToEnd | compression/jxs/encoder.cc:132-254 | main theorem: whenever constant-rate encoding returns: target - precincts < length <= target, the header carries the length (mod 2^32), and the stream decodes to the transforms of coefficients quantised by plans chosen, precinct by precinct, from the committed predictor states: at the least Q that fits the budget and the largest R that fits at that Q |
| ConstantRate.TargetMet | compression/jxs/encoder.cc:132-147 | the length bounds alone, and that the final bytes start with headers carrying that very length |
| ConstantRate.StreamDecodes | compression/jxs/decoder.cc:15-58 | any encoded stream (lossless, constant rate) decodes to one reconstruction per precinct at the Q and R chosen for it |
| ConstantRate.HeaderSizeSame | compression/jxs/encoder.cc:240-244 | writing the headers again with Lcod filled in succeeds and has the same size |
| ConstantRate.PlannedAtEdge | compression/jxs/encoder.cc:183-225 | a chosen plan fits its budget, no smaller Q fits, and with its Q no larger R fits, all measured from the state its predecessors leave |
| ConstantRate.CarriedIsChosen | compression/jxs/encoder.cc:221-224 | in every picture the 8-bit R in the header is the R found if and only if there are at most 128 bands or the finest quantisation (Q = R = 0) does not fit; otherwise Q is 0, the R found 2*NL - 1 and the R carried 2*NL - 257; either gives the same truncation positions |
| ConstantRate.WinnerRecodes | compression/jxs/encoder.cc:221-228 | coding the winner of the search again from its header always succeeds within the budget, so the check for an internal budget error never fires |
| ConstantRate.RecodingExact | compression/jxs/encoder.cc:221-232 | coding a precinct again with any carried choices succeeds if and only if they fit the budget |
| RateControl.CarriedExactly | compression/jxs/encoder.cc:211-224 | the same condition for any precinct whose priorities come from bytes: one trial at Q = R = 0 decides |
| RateControl.CarriedMeansFound | compression/jxs/encoder.cc:221-224 | the 8-bit cast of R changes neither the truncation positions nor a byte of the packets nor the state left behind |
| RateControl.WideRAtFinest | compression/jxs/encoder.cc:211-220 | an R of 256 or more is found at Q = 0 only: at a larger Q it refines every band and so costs what Q - 1 costs |
| RateControl.GenerousBudget | compression/jxs/encoder.cc:199-223 | a budget that every trial fits ends at Q = 0 and R = 2*NL - 1 |
| RateControl.ChoiceFails | compression/jxs/encoder.cc:195-220 | the search fails only with the error of a trial, or because Q = 31 exceeds the budget |
| RunHistory.PicturePlanned | compression/jxs/encoder.cc:157-238 | every precinct is planned from the state that the plans before it lead to, reset at slice tops (so discarded trials leave no trace), and a constant-rate body has exactly one slice header per slice and one full budget per precinct |
| RunHistory.RunPlanned | compression/jxs/encoder.cc:162-237 | the same for a run of precincts inside one slice, continuing any history |
| RunHistory.StepLength | compression/jxs/encoder.cc:227-232 | a precinct coded within a budget occupies its header plus exactly the budget, filler included |
| RunHistory.NoTopInside | compression/jxs/geometry.cc:192-195 | between the first precinct of a slice and its end no other slice begins |
| RateControl.ChoiceIsBoundary | compression/jxs/encoder.cc:183-220 | the two binary searches end at a boundary: Q fits and Q - 1 does not; R fits at Q and R + 1 does not |
| RateControl.ChoiceIsOptimal | compression/jxs/encoder.cc:184-220 | the chosen Q is the least of all that fit with R = 0, and the chosen R the largest of all that fit at that Q, in every precinct in which bands that meet in a packet share all packets or raw mode is per packet |
| RateControl.SizeMonotone | compression/jxs/encoder.cc:183-184 | sizes never rise with Q and never fall with R, at any pair of choices that can be packed: what the comment above the search takes for granted |
| SizesMonotone.PrecinctFalls | compression/jxs/entropy.cc:534-640 | a precinct coded at coarser truncation takes no more bytes, although groups become silent and packets change between raw and coded mode; both Rl, Rm, Fs, Qpih and every D |
| SizesMonotone.ChosenCountsFall | compression/jxs/entropy.cc:565-605 | significance and count bytes never rise with truncation, each encoder choosing its raw packets for itself |
| SizesMonotone.SizeIsSum | compression/jxs/entropy.cc:607-629 | the packets of a precinct take headers, significance, counts, data and signs, and nothing else |
| CoarserTruncation.CodedLineFalls | compression/jxs/entropy.cc:444-470 | counts and predictions clipped to a higher T never lengthen the codewords of a line, whatever more is silent |
| CoarserTruncation.PredictedClips | compression/jxs/entropy.cc:142-157 | predictions at a higher T are the old ones clipped, next to lines above that were coded at any T (which group predicts which, CountCosts.VerticalLine says) |
| CountCosts.PlainLine | compression/jxs/entropy.cc:444-470 | D = 0: the bits of a line are the codewords of its counts, each less T, group after group, and no flags |
| CountCosts.VerticalLine | compression/jxs/entropy.cc:142-158 | D = 1: group g is coded against group g of the line above, raised to the larger of T and Ttop; within a precinct and across precincts |
| CountCosts.SameAsAbove | compression/jxs/entropy.cc:444-470 | a line equal to the line above, with no count below T or Ttop, costs one zero bit per code group |
| CountCosts.ZerosRepeatAbove | compression/jxs/entropy.cc:272-297 | one zero bit per code group is read as the line above, raised to T and Ttop |
| CountCosts.ZerosMeanT | compression/jxs/entropy.cc:272-297 | without vertical prediction as many zero bits set every count to T |
| CountCosts.BelowPrecinct | compression/jxs/entropy.cc:142-168 | the first line of a precinct has above it the last coded line of the precinct before in the column, with the T of that precinct |
| CountCosts.SameAsPrecinctAbove | compression/jxs/entropy.cc:142-168 | so a first line equal to that last line costs one zero bit per code group |
| CountCosts.NothingAbove | compression/jxs/entropy.cc:142-150 | without such a state the first line of a precinct can be neither coded nor read with vertical prediction |
| CountCosts.FlagMeaning | compression/jxs/entropy.cc:453-466 | one flag per eight code groups, set exactly when all of them hold what the decoder would infer: the prediction (Rm = 0) or T (Rm = 1) |
| CountCosts.SilentLine | compression/jxs/entropy.cc:453-470 | a line that can be inferred costs its flags, all set, and not one bit more |
| CountCosts.SilentLineRead | compression/jxs/entropy.cc:272-297 | and is read from those flags without touching the count bits |
| CountCosts.RawCountAt | compression/jxs/entropy.cc:438-442 | raw mode: the count of group g is the number in bits g*Br to g*Br + Br - 1 |
| CoarserTruncation.FlagsStay | compression/jxs/entropy.cc:454-466 | a silent significance group stays silent at a higher T, in both run modes |
| CoarserTruncation.ValueBytesFall | compression/jxs/entropy.cc:480-517 | data and sign subpackets never grow with T: fewer planes remain and no index becomes non-zero, with both quantisers |
| RateControl.TrySize | compression/jxs/encoder.cc:186-192 | a trial on a copy of the predictor state yields the true packet size and modifies nothing |
| RateControl.FindQ | compression/jxs/encoder.cc:194-209 | the loop over lo and hi computes the specified smallest Q |
| RateControl.FindR | compression/jxs/encoder.cc:210-220 | the loop over rlo and rhi computes the specified largest R |
| RateControl.ChooseQuantisation | compression/jxs/encoder.cc:193-224 | the choice of Q, then R, from trials only |
| BodyCodec.StepRoundTrip | compression/jxs/decoder.cc:35-42 | one encoded precinct (header, packets, filler) decodes to the reconstruction of its coefficients at its Q and R, leaves the encoder's predictor state, and hands over exactly the bytes behind it |
| BodyCodec.RunRoundTrip | compression/jxs/decoder.cc:32-43 | over any run of precincts in any column layout the decoder retraces the encoder: same column states, every precinct rebuilt in the band buffers, exact byte consumption |
| BodyCodec.SlicesRoundTrip | compression/jxs/decoder.cc:26-44 | over all slices, with states reset at each slice top |
| BodyCodec.LosslessBody | compression/jxs/decoder.cc:21-44 | a losslessly coded body decodes to the coefficient image itself, whatever the buffers held before |
| BodyCodec.RecoveredLossless | compression/jxs/encoder.cc:177-182 | at Q = R = 0 what the decoder recovers is what placing all extracted precincts gives |
| BodyCodec.SliceIndexFits | compression/jxs/encoder.cc:158 | slice indices of every valid picture fit their 16-bit field |
| BodyFailures.SlicesFail | compression/jxs/encoder.cc:157-238 | coding the body fails on sizes only: every state fits the precinct below it, every choice is admissible, and vertical prediction always has something to predict from |
| BodyFailures.LeftForBelow | compression/jxs/entropy.cc:161-168 | the state a precinct leaves has the shape of the precinct one row below, for every band with lines there |
| SmallPictures.BodyEncodes | compression/jxs/encoder.cc:157-238 | the body of a picture of small precincts (at most 256 packets of 64 code groups), losslessly or with a budget of at least 2^19 bytes, is encoded if and only if every coefficient fits 2^Br-1 bitplanes |
| BodyStream.EncodeStep | compression/jxs/encoder.cc:163-237 | packets, header and filler of one precinct as specified, advancing the column's state object |
| StreamLayout.StepLayout | compression/jxs/encoder.cc:227-232 | the bytes of a precinct: three of length, Q, R, two bits of D per band, packets, and zeros up to the length announced |
| StreamLayout.SliceStarts | compression/jxs/encoder.cc:157-158 | slice t starts with FF20, length 4 and t |
| StreamLayout.StreamEnds | compression/jxs/encoder.cc:248-249 | a codestream ends with FF11 |
| BodyStream.EncodeRun | compression/jxs/encoder.cc:162-237 | the precinct loop over column state objects appends exactly the specified bytes |
| BodyStream.EncodeSlices | compression/jxs/encoder.cc:157-238 | the slice loop, with invalidation of all column states, produces exactly the specified body |
| BodyStream.ChoosePlan | compression/jxs/encoder.cc:165-224 | the choice for one precinct; a rate search leaves the state as it found it |
| BodyStream.ListModes | compression/jxs/encoder.cc:165-174 | D per band: bit 0 only below the first precinct row of a slice, bit 1 as configured |
| BodyStream.DecodeStep | compression/jxs/decoder.cc:35-42 | one precinct from a byte offset: coefficients placed, state advanced, new offset inside the data |
| BodyStream.DecodeRun | compression/jxs/decoder.cc:32-43 | the precinct loop of the decoder computes the specified walk |
| BodyStream.DecodeSlices | compression/jxs/decoder.cc:25-44 | the slice loop of the decoder computes the specified walk, the offset staying within the data |
| BodyStream.InvalidateAll | compression/jxs/decoder.cc:31 | every column state is marked invalid and otherwise kept |
| PrecinctTheorems.PrecinctRoundTrips | compression/jxs/entropy.cc:207-350 | decoding an encoded precinct with any filler behind it consumes exactly its bytes, yields Dequantise(Quantise(c)) at every position, and leaves the encoder's predictor state; the coefficients depend on Q, R, weights and Qpih only, not on D, Dr, Fs, Rm, Rl |
| PrecinctTheorems.QuantisedRoundTrip | compression/jxs/entropy.cc:233-350 | the same for any quantised data and any choice of raw packets |
| PrecinctTheorems.EncodeKeepsState | compression/jxs/entropy.cc:161-168 | the state an encoder leaves is valid and within 0..2^Br-1, so encoding may start from it again |
| PrecinctTheorems.LosslessPrecinct | compression/jxs/entropy.cc:86-107 | at Q = R = 0 every coefficient is reconstructed exactly, by both quantisers |
| EncoderFailures.EncodeFails | compression/jxs/entropy.cc:518-639 | with choices in range and a state that fits the precinct, encoding fails only with TooManyBitplanes, exactly when a coefficient needs more than 2^Br-1 bitplanes, or with a length beyond its field |
| SmallPrecincts.SmallEncodes | compression/jxs/entropy.cc:607-629 | a small precinct is encoded if and only if its coefficients fit, into at most 2^19 bytes: no length can overflow |
| SmallPrecincts.SmallPacket | compression/jxs/entropy.cc:607-626 | a packet of at most 64 code groups takes at most 2048 bytes and its lengths fit the short header |
| PrecinctTheorems.PrecinctQuantised | compression/jxs/entropy.cc:364-415 | whenever quantisation of a precinct succeeds, every line has counts in T..2^Br-1 and magnitudes within their bitplanes, with no sign on a zero |
| PrecinctTheorems.PacketsRoundTrip | compression/jxs/entropy.cc:229-346 | packet by packet: lines already decoded stay, the packet's lines join them |
| PrecinctRoundTrip.PacketRoundTrip | compression/jxs/entropy.cc:233-346 | one packet, whatever follows: its counts and coefficients are recovered and exactly its bytes are consumed |
| PrecinctRoundTrip.PredictedSame | compression/jxs/entropy.cc:142-158 | the decoder, knowing only the lines before, predicts exactly what the encoder predicted from all of them (which group predicts which, CountCosts.VerticalLine says) |
| PrecinctRoundTrip.CountsRoundTrip | compression/jxs/entropy.cc:258-297 | the bitplane-count subpacket reads back, line after line, each line predicted from counts already read |
| PrecinctRoundTrip.FlagsRoundTrip | compression/jxs/entropy.cc:242-256 | the significance subpacket reads back the flags of all entries |
| PrecinctRoundTrip.DataRoundTrip | compression/jxs/entropy.cc:299-324 | the data subpacket reads back magnitudes (and signs, when they travel with the data) |
| PrecinctRoundTrip.SignsRoundTrip | compression/jxs/entropy.cc:326-335 | the sign subpacket completes the signs of all non-zero magnitudes |
| PrecinctRoundTrip.SubpacketBounds | compression/jxs/entropy.cc:187-199 | a zero-padded subpacket ends at the byte where the next one starts |
| PrecinctLines.CodedLineRoundTrip | compression/jxs/entropy.cc:272-288 | residuals of one line with silent significance groups read back, for both modes Rm |
| PrecinctLines.CodedLineSucceeds | compression/jxs/entropy.cc:57-62 | counts clamped to T are representable from every predictor: coding never fails on them |
| PrecinctLines.FlagsSound | compression/jxs/entropy.cc:453-465 | a group flagged silent holds exactly the counts the decoder fills in |
| PrecinctLines.PlanesRoundTrip | compression/jxs/entropy.cc:318-320 | bitplanes written from the top read back by OR-ing them in |
| PrecinctLines.LineSignsRoundTrip | compression/jxs/entropy.cc:330-332 | one sign per non-zero magnitude reads back the signs of a line |
| BitLayout.MagnitudeBit | compression/jxs/entropy.cc:480-499 | where bit i of the index of each coefficient of a line stands: behind the groups before, the signs of its own group and the bitplanes above i |
| BitLayout.InlineSign | compression/jxs/entropy.cc:489-491 | Fs = 0: before the bitplanes of a group, one bit per coefficient, set exactly for a negative one with an index |
| BitLayout.OwnSign | compression/jxs/entropy.cc:502-512 | Fs = 1: in the sign subpacket a coefficient with an index has the bit behind those of the coefficients with an index before it, set exactly if it is negative |
| BitLayout.ValuesInTurn | compression/jxs/entropy.cc:480-512 | the lines of a packet follow one another in data and sign subpackets |
| BitLayout.CountsInTurn | compression/jxs/entropy.cc:427-474 | and in significance and count subpackets |
| BitLayout.PacketLayout | compression/jxs/entropy.cc:607-626 | a packet is header, significance, counts, data and signs in this order, the last three as long as the lengths parsed from its own header |
| HeaderModes.QuantiserOf | compression/jxs/entropy.cc:219-220 | Qpih = 0 in the picture header is the dead-zone quantiser, read in the middle of steps of 2^T, and Qpih = 1 the uniform one without a wider step around zero |
| HeaderModes.SignsOf | compression/jxs/entropy.cc:489-512 | Fs = 0: signs with the data and no sign subpacket; Fs = 1: a sign subpacket in every packet |
| HeaderModes.RunsOf | compression/jxs/entropy.cc:278-288 | Rm = 0: silent groups hold their prediction; otherwise T |
| HeaderModes.RawFlagsOf | compression/jxs/entropy.cc:576-605 | Rl = 1: the raw flags of the stream are the cheapest of all; Rl = 0: the cheapest of all that agree on every band, and agree themselves |
| HeaderModes.RawCountsOf | compression/jxs/entropy.cc:438-442 | raw counts are as wide as Br says |
| HeaderModes.HeaderSizeOf | compression/jxs/headers.cc:599-601 | packet headers take five bytes exactly when Wf times Nc is below 32752 and Lh is zero |
| Reencoding.ReencodingIsExact | compression/jxs/entropy.cc:518-639 | encoding what the decoder reconstructs from an encoder-made precinct, with the same Q, R, D, Dr and entry state, gives the same bytes and state |
| Reencoding.CountSurvives | compression/jxs/entropy.cc:395-403 | the bitplane count of every code group survives dequantisation |
| Reencoding.PrecinctRequantises | compression/jxs/entropy.cc:364-415 | quantising the reconstruction gives the same counts, indices and signs |
| RawFallback.PerPacketConstraint | compression/jxs/entropy.cc:578-586 | Rl = 1: on return no packet spends more on significance and counts than raw mode would, and requested raw packets stay raw |
| RawFallback.PerBandConstraint | compression/jxs/entropy.cc:587-605 | Rl = 0: on return the packets of every band together spend no more than raw mode would |
| RawFallback.FallbackKeepsAgreement | compression/jxs/entropy.cc:597-602 | Rl = 0: if all packets of a band agreed on raw mode before the fallback they agree after it (C.3) |
| RawFallback.FinalRawStable | compression/jxs/entropy.cc:578-605 | the fallback only adds raw packets and is idempotent |
| RawOptimality.FinalRawOptimal | compression/jxs/entropy.cc:576-605 | the fallback is optimal: of all flags the stream may carry (per packet, or agreeing over the packets of every band), those it ends with take the fewest significance and count bytes |
| RawOptimality.PerPacketOptimal | compression/jxs/entropy.cc:578-586 | Rl = 1: no flags cost less, and of all that cost as little those it ends with have the fewest raw packets |
| RawOptimality.PerBandOptimal | compression/jxs/entropy.cc:587-605 | Rl = 0: no flags on which the packets of every band agree cost less |
| RawOptimality.FallbackJustified | compression/jxs/entropy.cc:587-605 | Rl = 0: packets turn raw only where the packets of a band together exceed their raw cost |
| StreamFlags.StreamReencodes | compression/jxs/entropy.cc:518-639 | whatever raw packets were asked for: encoding what the decoder makes of a precinct, with the Dr flags read from its packet headers, passes the checks of C.2 and C.3 and reproduces the bytes and the state |
| StreamFlags.PictureReencodes | compression/jxs/entropy.cc:518-639 | the same in every precinct of every picture |
| StreamFlags.FlagsComeBack | compression/jxs/entropy.cc:239-240 | the decoder reads from the packet headers exactly the raw flags the encoder ended with |
| StreamFlags.FinalIsRequestable | compression/jxs/entropy.cc:541-560 | what the fallback made of an admissible request is an admissible request |
| RawFallback.RawCost | compression/jxs/entropy.cc:438-442 | raw mode never fails, writes no flags and costs exactly code groups times Br bits |
| Precinct.FewerCoded | compression/jxs/entropy.cc:588-604 | the repeat-until-stable loop terminates: every pass that changes something leaves fewer coded packets |
| Precinct.PacketsWith | compression/jxs/entropy.cc:534-540 | the packets that include a band: exactly those, in order and each once |
| Precinct.Truncation | compression/jxs/entropy.cc:34-39 | T lies in 0..2^Br-1 for every Q, R, gain and priority; what each of them does to it, CodingError and RefinementOrder say |
| CodingError.GainCountsSteps | compression/jxs/entropy.cc:34-39 | one more gain is exactly one less Q |
| CodingError.PlainTruncation | compression/jxs/entropy.cc:34-39 | without gain and refinement T is Q, or 2^Br - 1 when that is less |
| CodingError.PriorityRefines | compression/jxs/entropy.cc:34-39 | R refines exactly the bands of smaller priority, by one step of Q |
| CodingError.CountIsLeast | compression/jxs/entropy.cc:395-403 | the count coded for a group is the least one not below T whose bitplanes hold all four coefficients |
| CodingError.DecodedWithin | compression/jxs/entropy.cc:207-350 | what any decoder of an encoded precinct gets: in a band of gain g every coefficient is within half a step of 2^max(Q-g, 0), or read as zero below one step (dead zone), and within a step and its bitplane count (uniform) |
| DecoderTotality.DecoderIsTotal | compression/jxs/entropy.cc:207-350 | for every body and every state: an error, or a position inside the body, every count of every line in 0..2^Br-1, every line of every band filled with magnitudes below 2^(2^Br-1), and a state encoding may start from |
| DecoderTotality.CoefficientsFitInt32 | compression/jxs/entropy.cc:94-107 | with Br <= 5 the cast to a signed 32-bit integer is exact |
| DecoderTotality.SampleInRange | compression/jxs/entropy.cc:94-107 | a dequantised magnitude is below 2^M for every index within its bitplanes |
| PrecinctDecoder.DecodePrecinct | compression/jxs/entropy.cc:207-350 | the decoder on bit cursor, buffers and state object computes the specified decoding; on an error the state is untouched |
| PrecinctDecoder.DecodePacketAt | compression/jxs/entropy.cc:233-346 | one packet from a byte position |
| PrecinctDecoder.DecodeHeadAt | compression/jxs/entropy.cc:236-297 | header, flags and counts of a packet from a byte position |
| PrecinctDecoder.DecodeValuesAt | compression/jxs/entropy.cc:299-345 | data and signs of a packet; its dequantised lines are stored |
| PrecinctDecoder.DecodeFlagsAt | compression/jxs/entropy.cc:242-256 | significance subpacket from a byte position |
| PrecinctDecoder.DecodeCountsAt | compression/jxs/entropy.cc:258-297 | bitplane-count subpacket; lines are stored as soon as they are complete |
| PrecinctDecoder.DecodeDataAt | compression/jxs/entropy.cc:299-324 | data subpacket |
| PrecinctDecoder.DecodeSignsAt | compression/jxs/entropy.cc:326-335 | sign subpacket |
| PrecinctDecoder.StoreLines | compression/jxs/entropy.cc:337-345 | dequantised lines of a packet stored in the output buffer, all others kept |
| PrecinctDecoder.UpdateState | compression/jxs/entropy.cc:161-168 | the state object holds the last coded line and the truncations of every band |
| PrecinctDecoder.FinishSubpacket | compression/jxs/entropy.cc:187-199 | the position behind a subpacket, with both length checks |
| PrecinctEncoder.EncodePrecinct | compression/jxs/entropy.cc:518-639 | the encoder with its stored subpackets and state object computes the specified bytes and state; on an error the state is untouched |
| PrecinctEncoder.QuantizePrecinct | compression/jxs/entropy.cc:364-415 | line and group loops compute the specified quantisation, failing exactly when a group needs more than 2^Br-1 bitplanes |
| PrecinctEncoder.EncodeCounts | compression/jxs/entropy.cc:427-474 | significance and count subpackets as specified |
| PrecinctEncoder.EncodeData | compression/jxs/entropy.cc:477-499 | data subpacket as specified |
| PrecinctEncoder.EncodeSigns | compression/jxs/entropy.cc:502-512 | sign subpacket as specified |
| PrecinctEncoder.FallBackPerBand | compression/jxs/entropy.cc:587-605 | the passes over the bands reach the specified fixpoint, with the stored subpackets re-encoded to match |
| PrecinctEncoder.FallBackPerPacket | compression/jxs/entropy.cc:580-586 | each packet on its own, stored subpackets matching the final flags |
| PrecinctEncoder.Assemble | compression/jxs/entropy.cc:607-626 | headers and subpackets in order |
| PrecinctEncoder.PacketsOfBand | compression/jxs/entropy.cc:534-540 | the list of packets of a band |
| Quantiser.NeumannClosed | compression/jxs/entropy.cc:100-104 | closed form of the Neumann loop (Legendre): (B-1)*sum = B*x - digit sum of x in base B |
| Quantiser.QuantiseFits | compression/jxs/entropy.cc:86-92 | a magnitude below 2^M has an index below 2^(M-T), both quantisers |
| Quantiser.MagnitudeFits | compression/jxs/entropy.cc:94-107 | an index below 2^(M-T) is reconstructed below 2^M |
| Quantiser.Requantise | compression/jxs/entropy.cc:86-107 | Quantise(Dequantise(v)) = v |
| Quantiser.TopBitSurvives | compression/jxs/entropy.cc:86-107 | a magnitude with its top bit at M-1 keeps it through quantisation and dequantisation |
| Quantiser.ErrorBound | compression/jxs/entropy.cc:86-107 | error below 2^T (dead zone), at most 2^T + M (uniform); DeadZoneHalfStep and UniformHalfStep are sharper |
| Quantiser.DeadZoneHalfStep | compression/jxs/entropy.cc:86-99 | dead zone: what has an index is read within half of 2^T, what is below 2^T as zero |
| Quantiser.UniformHalfStep | compression/jxs/entropy.cc:86-107 | uniform: 2^(M+1) magnitudes fall into 2^(M-T+1) - 1 steps and each is read within half such a step, up to one unit for every term of the Neumann series |
| Quantiser.LosslessAtZero | compression/jxs/entropy.cc:86-107 | T = 0 is the identity |
| Quantiser.BitplaneCountLeast | compression/jxs/entropy.cc:75-84 | a group needs at most m bitplanes exactly when every magnitude is below 2^m |
| Quantiser.BitplaneCount | compression/jxs/entropy.cc:75-84 | the maximum and shift loops compute that count |
| Quantiser.QuantizeMagnitude | compression/jxs/entropy.cc:86-92 | shift or rounded division, as specified |
| Quantiser.DequantizeValue | compression/jxs/entropy.cc:94-107 | the Neumann loop computes the specified value, whose distance from the original DeadZoneHalfStep and UniformHalfStep bound |
| Vlc.SymbolBijection | compression/jxs/entropy.cc:57-68 | in each context the code numbers and the residuals x >= -theta are in bijection |
| Vlc.CodeRoundTrip | compression/jxs/entropy.cc:43-71 | a codeword decodes to its residual, consuming exactly the codeword |
| Vlc.CodeOrder | compression/jxs/entropy.cc:57-71 | codewords are ones closed by a zero, longer the further the residual is from zero, and shorter for the negative of two opposites; with the bijection this leaves one code |
| Vlc.SyncLimit | compression/jxs/entropy.cc:43-55 | 2^(Br+1) ones are lost synchronisation, one less and a zero is a codeword |
| Vlc.DecodedFromT | compression/jxs/entropy.cc:47-51 | next to a predictor that is not below T no bits decode to a count below T: no codeword is spent on one |
| Vlc.ReadCodeShape | compression/jxs/entropy.cc:43-55 | whatever the bits, a decoded residual is admissible and the bits read were its codeword |
| Vlc.CountResidual | compression/jxs/entropy.cc:47-51 | residuals between counts in 0..2^Br-1 never reach the loss-of-synchronisation limit 2^(Br+1) |
| Vlc.Representable | compression/jxs/entropy.cc:57-62 | a count not below T is representable from any predictor |
| Vlc.StreamRoundTrip | compression/jxs/entropy.cc:43-71 | any mixture of codewords and fixed fields reads back, ending at the bit where writing ended |
| Vlc.VlcEncode | compression/jxs/entropy.cc:57-71 | the writer appends exactly the codeword, or refuses a residual below -theta and writes nothing |
| Vlc.VlcDecode | compression/jxs/entropy.cc:43-55 | the reader returns the specified residual and position, or the specified error |
| BitIO.BitWriter.PutBit | compression/jxs/bitio.hpp:57-61 | appends one bit to the packed bytes |
| BitIO.BitWriter.Put | compression/jxs/bitio.hpp:52-56 | appends an n-bit field MSB first, or refuses a value that does not fit |
| BitIO.BitWriter.AlignToByte | compression/jxs/bitio.hpp:63 | zero-pads to the next byte without touching the bytes |
| BitIO.BitWriter.Take | compression/jxs/bitio.hpp:72-75 | hands over exactly the packed bits and empties the writer |
| BitIO.BitReader.Bit | compression/jxs/bitio.hpp:27-32 | the next bit, or an error at the end of the data |
| BitIO.BitReader.Read | compression/jxs/bitio.hpp:18-26 | an n-bit field, or an error that consumes nothing |
| BitIO.PackBits | compression/jxs/bitio.hpp:57-63 | packing loses nothing: the bits come back followed by the zero padding |
| BitIO.BitsThenPack | compression/jxs/bitio.hpp:27-32 | a byte sequence is determined by its bits |
| BitIO.FieldsRoundTrip | compression/jxs/bitio.hpp:18-56 | fields written one after the other read back in order, leaving what follows |
| PacketHeaders.RoundTrip | compression/jxs/headers.cc:601-635 | a written packet header, short or long, occupies exactly the bytes the decoder skips and reads back unchanged |
| HeaderLayout.PacketHeaderLayout | compression/jxs/headers.cc:619-635 | a packet header is one number of 40 or 56 bits: Dr, then Ldat, Lcnt and Lsgn |
| PacketHeaders.WritePacketHeader | compression/jxs/headers.cc:619-635 | writes the specified bytes or refuses lengths that do not fit |
| PacketHeaders.ParsePacketHeader | compression/jxs/headers.cc:603-617 | reads the specified header |
| Geometry.Build | compression/jxs/geometry.cc:22-88 | the constructor succeeds exactly on valid headers without vertical subsampling and fills the band table and precinct grid as specified |
| Geometry.AllBandsExist | compression/jxs/headers.cc:246-275 | with sy = 1 everywhere the band layout has no missing band |
| Geometry.BandIndex | compression/jxs/geometry.cc:90-98 | the index of a filter type of a component is in range and its table entry is that type |
| Geometry.TypeBounds | compression/jxs/geometry.cc:37-52 | depths of every filter type lie within the decomposition, and high-pass directions have positive depth |
| GeometryTiling.PositionInBand | compression/jxs/coefficients.hpp:53-61 | every (precinct, line, index) lands inside its band, at a position owned by that precinct and mapping back to that line and index: the bounds guards never fire |
| GeometryTiling.SampleInPrecinct | compression/jxs/coefficients.hpp:53-61 | every sample of every band lies in exactly the precinct owning it, at its local place; with PositionInBand, ToBandPosition is a bijection |
| GeometryTiling.ColumnWidths | compression/jxs/geometry.cc:103-115 | all columns but the last hold the full width of a band, the last one the rest of the band; sx 1 or 2, full-width or column layout |
| GeometryTiling.WholeExtent | compression/jxs/geometry.cc:64-66 | the band width is the extent of the whole picture at its depth (ceil of ceil is one ceil) |
| GeometryTiling.RowsCover | compression/jxs/geometry.cc:129-135 | a band is never taller than its lines in all precinct rows |
| GeometryTiling.FirstWidthIsStride | compression/jxs/coefficients.hpp:53-61 | the width of the first column, which ToBandPosition uses as stride, is the stride of the band for every row |
| PrecinctOrder.FirstPlace | compression/jxs/coefficients.hpp:53-61 | precinct 0 lies at the origin of every band |
| PrecinctOrder.NextSample | compression/jxs/coefficients.hpp:53-61 | samples of a line stand side by side, lines one below the other |
| PrecinctOrder.NextColumn | compression/jxs/coefficients.hpp:53-61 | the next precinct of a row starts, in every band, right behind the last sample of this one |
| PrecinctOrder.NextRow | compression/jxs/coefficients.hpp:53-61 | the precinct below starts, in every band, on the line behind the last one of this one |
| PrecinctOrder.FullRow | compression/jxs/geometry.cc:129-135 | all precinct rows but the last have all their lines in every band |
| PrecinctOrder.LowestColumn | compression/jxs/geometry.cc:103-115 | in the lowest band full precincts are 8 Cw samples wide, or 16 Cw in components less subsampled than others |
| GeometryPackets.ShapeIsComplete | compression/jxs/geometry.cc:137-183 | every line of every band is in exactly one packet entry of its precinct, each band's lines in increasing order |
| PacketOrder.EntriesInOrder | compression/jxs/geometry.cc:137-183 | packets, and the lines in them, come strictly by resolution (LL and horizontal bands, two-dimensional levels from the coarsest, plain components), then by line, then by band number; with completeness this leaves one order |
| PacketOrder.OnePacket | compression/jxs/geometry.cc:137-183 | two lines share a packet if and only if they are the same line of one resolution and, above the lowest, of one filter type or one plain component |
| GeometryPackets.ShapeIsOk | compression/jxs/geometry.cc:137-183 | every packet entry names an existing line of an existing band, and no packet is empty |
| GeometryPackets.BandsShare | compression/jxs/geometry.cc:137-183 | bands that share one packet share all their packets |
| GeometryPackets.ChunkLines | compression/jxs/geometry.cc:143-181 | over the resolution levels each band is offered its lines 0..span-1 once, in order |
| GeometryPackets.PictureRawFlags | compression/jxs/entropy.cc:587-605 | in every precinct of every picture with Rl = 0 the flags in the stream agree per band and no band exceeds its raw cost |
| GeometryPackets.ListPackets | compression/jxs/geometry.cc:137-183 | the nested push loops produce the specified packets |
| GeometryPackets.FirstPacket | compression/jxs/geometry.cc:143-154 | packet 0: first lines of LL and of the horizontal-only types of all decomposed components |
| GeometryPackets.LevelPackets | compression/jxs/geometry.cc:158-173 | one 2-D level, line by line, three packets a line |
| GeometryPackets.PlainPackets | compression/jxs/geometry.cc:175-181 | one line of every component without decomposition |
| GeometryPackets.SlicesTile | compression/jxs/geometry.cc:185-195 | slices cut the precincts into consecutive runs, all but the last of exactly Hsl rows, each ending where the next begins |
| Placement.PlacingRebuilds | compression/jxs/coefficients.hpp:63-89 | placing all precincts extracted from an image rebuilds that image, whatever the buffers held |
| Placement.PlacedFromSource | compression/jxs/coefficients.hpp:63-75 | placing one precinct changes exactly the samples it owns |
| Placement.ExtractedFromBand | compression/jxs/coefficients.hpp:78-89 | every extracted sample comes from inside its band: the guard never fires |
| Placement.PlacePrecinct | compression/jxs/coefficients.hpp:63-75 | the copy loops write the specified image |
| Placement.ExtractPrecinct | compression/jxs/coefficients.hpp:78-89 | the copy loops read the specified precinct |
| Lifting.LineReversible | compression/jxs/transform.cc:56-65 | the 5/3 filter pair is reversible both ways round, for every length >= 2 |
| Lifting.ExtendSamples | compression/jxs/transform.cc:45-50 | the extension slots are mirror images, Z = 2 (where a slot copies a slot) included |
| Lifting.ForwardFilter | compression/jxs/transform.cc:62-65 | the in-place loops over the line with extension slots equal the two-array form, both parities of Z |
| Lifting.InverseFilter | compression/jxs/transform.cc:55-58 | the in-place inverse equals the two-array form |
| Lifting.ForwardOfLine | compression/jxs/transform.cc:60-65 | both passes of the forward filter, slots included, read off the samples |
| Lifting.InverseOfLine | compression/jxs/transform.cc:52-58 | both passes of the inverse filter, the slot X[Z] included |
| Lifting.Sweep | compression/jxs/transform.cc:56-64 | one pass in place: no slot it rewrites is read by it |
| Wavelet.HorizontalRestores | compression/jxs/transform.cc:86-139 | whatever the forward step returns on a band, the inverse step turns back into the band |
| Wavelet.HorizontalSplitsAgain | compression/jxs/transform.cc:86-139 | and the other way round |
| Wavelet.VerticalRestores | compression/jxs/transform.cc:107-154 | the same along columns |
| Wavelet.VerticalSplitsAgain | compression/jxs/transform.cc:107-154 | and the other way round |
| Wavelet.SplitRows | compression/jxs/transform.cc:124-139 | row loop through the work line, narrowing every sample |
| Wavelet.JoinRows | compression/jxs/transform.cc:86-103 | row loop of the inverse |
| Wavelet.SplitColumns | compression/jxs/transform.cc:142-154 | column loop |
| Wavelet.JoinColumns | compression/jxs/transform.cc:107-121 | column loop of the inverse |
| WaveletLevels.DwtRestores | compression/jxs/transform.cc:417-477 | Fq = 0: InverseDwt undoes ForwardDwt, for every size, component and level count |
| WaveletLevels.DwtSplitsAgain | compression/jxs/transform.cc:417-477 | every Fq: ForwardDwt undoes InverseDwt on every band of the component |
| WaveletLevels.ForwardMatches | compression/jxs/transform.cc:446-477 | on a plane of the right size every band asked for has the size the geometry lists, every filtered line has at least two samples, and every sample of every band of the component is written: the only error left is a value beyond 32 bits |
| WaveletLevels.ForwardDwtMatches | compression/jxs/transform.cc:446-477 | the same for a whole component, with the band buffers staying well-formed |
| WaveletLevels.ForwardDwtFrame | compression/jxs/transform.cc:446-477 | transforming one component leaves the bands of all others alone |
| WaveletLevels.InverseDwtReads | compression/jxs/transform.cc:417-443 | reconstruction reads no band of another component |
| WaveletLevels.LevelSizes | compression/jxs/transform.cc:461-475 | iterated half sizes equal LowPassSize and HighPassSize, and no line gets shorter than 2 before it is filtered |
| Lifting.FilterTaps | compression/jxs/transform.cc:60-65 | low-pass samples of the 5/3 filter are (6x + 2(l + r) - (ll + rr))/8 up to rounding and high-pass samples x - (l + r)/2, with neighbours mirrored at the ends |
| BandMeaning.BandsStored | compression/jxs/transform.cc:446-477 | each stored coefficient times 2^Fq is within 2^(Fq-1) of the unrounded transform: columns and rows in the first NL,y levels, then rows only, in the band whose number the band table gives |
| BandMeaning.PlainStored | compression/jxs/transform.cc:446-460 | a component without decomposition is stored rounded |
| BandMeaning.Directions | compression/jxs/transform.cc:124-154 | rows all the same leave nothing in LH and HH, constant rows nothing in HL and HH |
| BandMeaning.StoredDirections | compression/jxs/transform.cc:446-477 | the same of the bands stored, by their numbers in the band table |
| BandMeaning.TwoByTwo | compression/jxs/transform.cc:461-475 | a picture of two by two samples, from which one sees that columns are filtered before rows |
| BandMeaning.RoundNearest | compression/jxs/transform.cc:215-219 | dropping Fq fractional bits gives a nearest value |
| BandMeaning.RoundTies | compression/jxs/transform.cc:215-219 | and of two nearest ones the one further from zero |
| WaveletLevels.RoundScaled | compression/jxs/transform.cc:185-220 | appending Fq fractional bits and rounding them away is the identity, signs included |
| WaveletLevels.RoundShrinks | compression/jxs/transform.cc:215-219 | rounding brings every value nearer to zero, so what fitted in 32 bits still does (to the nearest value, BandMeaning.RoundNearest says) |
| WaveletTransform.LevelBandUnique | compression/jxs/transform.cc:169-181 | the band FindBand is asked for at a level exists and is the only match |
| WaveletTransform.LowestBandUnique | compression/jxs/transform.cc:169-181 | the same for the LL band |
| WaveletTransform.FindBand | compression/jxs/transform.cc:169-181 | the scan returns the first matching existing band, or an error |
| WaveletTransform.ForwardTransform | compression/jxs/transform.cc:446-477 | the level loop, reassigning its low-pass plane and storing into the image, computes the specified bands |
| WaveletTransform.InverseTransform | compression/jxs/transform.cc:417-443 | the level loop of the inverse computes the specified plane |
| WaveletTransform.StoreInto | compression/jxs/transform.cc:201-220 | a band rounded and stored, all checks made, all other bands kept; what the rounding keeps, BandMeaning.BandsStored says |
| WaveletTransform.LoadScaled | compression/jxs/transform.cc:185-198 | a band read with its fractional bits appended |
| StarTetrix.AccessInside | compression/jxs/transform.cc:297-305 | for every pattern, Cf, position and neighbour: access lands inside the planes, in another component than the one accessed from, and with Cf = 3 in the same super-pixel row |
| StarTetrix.SubPixels | compression/jxs/transform.cc:275-289 | the sub-pixel table inverts the displacements, both pattern types |
| ColourMeaning.AccessIsNeighbour | compression/jxs/transform.cc:297-305 | access finds the sub-pixel beside, above or below in the mosaic, mirrored at the edges of the mosaic or, with Cf = 3, of its row of super pixels |
| ColourMeaning.TetrixAlongRows | compression/jxs/transform.cc:520-556 | Star-Tetrix of every mosaic that varies along rows only, for every pattern, Cf, e1 and e2: which greens Cb and Cr are taken against, how Cb and Cr weigh in luma beside and above, and both steps between the lumas |
| ColourMeaning.TetrixOfColours | compression/jxs/transform.cc:520-556 | four constant colours become Cb = B - G, Cr = R - G, Delta = G1 - G2 and Ya, the mean green plus (2^e2 Cb + 2^e1 Cr)/4, in the slots of Table F.4 |
| ColourMeaning.PatternOfGreens | compression/jxs/transform.cc:481-509 | the pattern type accepted tells in which column the upper green is |
| ColourMeaning.PlacedAsRegistered | compression/jxs/transform.cc:275-289 | both greens are placed where CRG says; red and blue exactly if red is in the upper row |
| ColourMeaning.MctOfColours | compression/jxs/transform.cc:511-560 | the same through the picture header: Cpih = 3, all further components kept |
| ColourMeaning.MctOfRgb | compression/jxs/transform.cc:238-267 | Cpih = 1: (R + 2G + B)/4 rounded down, B - G and R - G |
| StarTetrix.TargetUnread | compression/jxs/transform.cc:318-331 | a lifting step never reads the component it updates |
| StarTetrix.LiftUndone | compression/jxs/transform.cc:318-331 | a step with the opposite sign undoes it |
| StarTetrix.PairUndone | compression/jxs/transform.cc:343-352 | independent steps may be undone in the order they were done |
| StarTetrix.RunOfRow | compression/jxs/transform.cc:299-302 | with Cf = 3 a row of the result depends on the same row of the input only |
| MultiComponent.PairsIndependent | compression/jxs/transform.cc:343-352 | the two lifts of CbCrStep, and of YStep, never read each other |
| MultiComponent.StepsUndone | compression/jxs/transform.cc:520-556 | the six inverse steps undo the six forward steps, and the other way round |
| MultiComponent.StarTetrixUndone | compression/jxs/transform.cc:520-556 | whole transform with slot exchange, both directions, every size, pattern, Cf, e1 and e2 (what it computes, ColourMeaning.TetrixAlongRows says) |
| MultiComponent.RctReversible | compression/jxs/transform.cc:238-267 | the colour transform is a bijection on triples of integers |
| MultiComponent.RctUndone | compression/jxs/transform.cc:238-267 | on whole planes, both directions |
| MultiComponent.MctUndone | compression/jxs/transform.cc:511-560 | each direction of the multi-component transform undoes the other for every Cpih the headers can select |
| MultiComponent.RowsIndependent | compression/jxs/transform.cc:511-560 | with Cf = 3 each super-pixel row is transformed independently of the others, in both directions |
| MultiComponent.LiftStep | compression/jxs/transform.cc:318-331 | the step over the planes as they change equals the two-array form |
| MultiComponent.SwapTwice | compression/jxs/transform.cc:356-359 | exchanging the slots twice is the identity |
| MultiComponent.TransformRct | compression/jxs/transform.cc:238-267 | in-place triple loop computes the specified planes |
| MultiComponent.TransformMct | compression/jxs/transform.cc:511-560 | dispatch and in-place steps compute the specified planes, of which ColourMeaning.MctOfColours and MctOfRgb say what they are |
| SquareRoot.IntegerSqrt | compression/jxs/transform.cc:366-380 | floor(sqrt(n)) for every n >= 0 below 2^64, an error for negative n |
| SquareRoot.BitSerialRoot | compression/jxs/transform.cc:659-668 | the bit-serial loop computes floor(sqrt(v*2^Bw)) for every scaled v below 2^Bw |
| SquareRoot.RootUnique | compression/jxs/transform.cc:366-380 | the square bounds determine the root |
| Scaling.LinearExact | compression/jxs/transform.cc:579-647 | every sample survives linear scaling |
| CurveMeaning.LinearOutNearest | compression/jxs/transform.cc:579-588 | without NLT the output sample is the one nearest to the value, counted from -2^(Bw-1) in steps of 2^(Bw-B) |
| CurveMeaning.LinearInSteps | compression/jxs/transform.cc:642-647 | without NLT sample v is v steps above -2^(Bw-1) |
| CurveMeaning.QuadraticOutNearest | compression/jxs/transform.cc:590-601 | the output sample, less DCO and up to clamping, is nearest to the square of the clamped value |
| CurveMeaning.QuadraticInRoot | compression/jxs/transform.cc:648-670 | the input value is the integer root of the sample less DCO |
| CurveMeaning.ExtendedOutNearest | compression/jxs/transform.cc:602-622 | the output sample is nearest to the extended curve |
| CurveMeaning.CurveShape | compression/jxs/transform.cc:609-619 | the curve is a falling parabola, a line and a rising parabola that meet at the thresholds with the same slope |
| CurveMeaning.CurveInRoots | compression/jxs/transform.cc:671-684 | its inverse takes integer roots of the distance to either vertex, or divides along the line |
| Scaling.QuadraticRoundTrip | compression/jxs/transform.cc:590-670 | for B + 2 <= Bw, which valid headers guarantee, the round trip is exactly the clamping around DCO |
| Scaling.QuadraticExact | compression/jxs/transform.cc:590-670 | a sample survives if and only if the offset does not push it out of range, or pushes it to the end it came from |
| Scaling.ExtendedExact | compression/jxs/transform.cc:602-684 | for all thresholds: when a sample survives the extended curve, as an if and only if. In order: it is in the linear region or its root is not clamped too far. In reverse order: besides the regular and black regions, samples written by the regular branch with working value w below T1 survive iff (w-T2)^2 + (T1-w)^2 and what the root lost stay within half a step |
| Scaling.OverlapRegion | compression/jxs/transform.cc:609-619 | with T1 > T2 a value written by the regular branch and read by the black one is off by exactly the squared distances to both thresholds and the remainder of the root, unless clamped |
| Scaling.SeamRegion | compression/jxs/transform.cc:609-619 | with T1 > T2 the working value T1 is written by the black branch and read by the regular one, and what it is read as |
| Instances.ReversedStreamFails | compression/jxs/headers.cc:472-475 | headers that satisfy the constraints, are written and parse back (T1 = 2^17, T2 = 0), under which the 16-bit sample 32768 comes back as 24119 |
| Scaling.RootsDefined | compression/jxs/transform.cc:674-682 | no root of a negative value is taken |
| Scaling.CurveConstants | compression/jxs/transform.cc:393-401 | the constants of the curve are the shifts the source computes |
| SampleScaling.LinearPlane | compression/jxs/transform.cc:565-689 | without NLT a plane of samples in range comes back unchanged |
| SampleScaling.SampleExact | compression/jxs/transform.cc:565-689 | for every valid header, thresholds in either order: a sample survives input and output scaling if and only if it meets the condition of its transfer curve, in integer arithmetic |
| SampleScaling.CurveFitsExactly | compression/jxs/transform.cc:393-400 | valid headers under which the curve constants stay within signed 64 bits: exactly T1 + 2^(Bw-E-1) <= 3037000499 and T1^2 + T2 * 2^(Bw-E) < 2^63, and all with T1 <= 3036000000 |
| SampleScaling.OutputWithin | compression/jxs/transform.cc:573-577 | output samples lie in 0..2^B-1, so the cast to 16 bits is exact |
| SampleScaling.BitDepth | compression/jxs/headers.cc:437-470 | valid headers give 8 <= B <= 16, B <= Bw, and two guard bits when there is an NLT |
| SampleScaling.ScalePlaneIn | compression/jxs/transform.cc:630-689 | sample loop with the root loops inside computes the specified plane |
| SampleScaling.ScalePlaneOut | compression/jxs/transform.cc:565-627 | sample loop of the output scaling |
| HeaderCodec.HeadersRoundTrip | compression/jxs/headers.cc:279-414 | whenever WriteHeaders returns, parsing its bytes with a slice or end marker behind stops exactly there and returns the headers, with the weights of missing bands and the fields of the other NLT type cleared; it is refused exactly for extended E outside 1..4 or refresh gains above 15 |
| HeaderCodec.HeadersExact | compression/jxs/headers.cc:279-414 | headers come back unchanged if and only if the parser accepts them and no idle field is set |
| HeaderSegments.HeaderBytesAre | compression/jxs/headers.cc:342-414 | every byte of a written header: all segments with their marker numbers, lengths and fields, in order, for all headers that can be written |
| ParsedHeaders.ParsedWritesBack | compression/jxs/headers.cc:279-414 | whatever headers the parser returns on any bytes can be written, and parsing what was written returns them |
| HeaderLimits.WriteHeadersExact | compression/jxs/headers.cc:342-414 | WriteHeaders returns if and only if the headers are valid, Lh and Rl are one bit, DCO fits 16 bits and no comment exceeds a segment |
| Instances.WrittenSlopeRefused | compression/jxs/headers.cc:123 | valid headers with E = 5 that are written and then refused by the parser |
| Instances.WrittenGainRefused | compression/jxs/headers.cc:103 | valid headers with a refresh gain of 16 that are written and then refused by the parser |
| HeaderCodec.InterpretBack | compression/jxs/headers.cc:300-339 | the same on the level of segments: every optional segment is found in its own place |
| HeaderCodec.CapRoundTrip | compression/jxs/headers.cc:36-48 | capability bits round trip, the trailing-zero rule included |
| HeaderFields.PihRoundTrip | compression/jxs/headers.cc:50-78 | picture header |
| HeaderLayout.PihLayout | compression/jxs/headers.cc:204-229 | the picture header is these 24 bytes, each field in its place, first bits first |
| HeaderLayout.CapLayout | compression/jxs/headers.cc:195-202 | capability i is bit i of CAP from the left |
| HeaderLayout.CdtPacked | compression/jxs/headers.cc:350-358 | per component one byte of depth and one of both sampling factors, sx above sy |
| HeaderLayout.WeightsLayout | compression/jxs/headers.cc:231-239 | gain, then priority, one byte each, of the bands that exist |
| HeaderLayout.NltLayout | compression/jxs/headers.cc:361-376 | kind and two bytes of DCO in two's complement, or kind, T1, T2 and E |
| HeaderLayout.CtsLayout | compression/jxs/headers.cc:378-385 | Cf, then E1 above E2 |
| HeaderLayout.CrgLayout | compression/jxs/headers.cc:386-393 | per component x, then y, two bytes each |
| HeaderSegments.TpcLayout | compression/jxs/headers.cc:394-408 | both signed nibbles in one byte, then a pair of bytes per band |
| HeaderFields.CdtRoundTrip | compression/jxs/headers.cc:80-90 | component table |
| HeaderFields.WeightsRoundTrip | compression/jxs/headers.cc:92-106 | weights of the existing bands; refused exactly when a gain exceeds 15 |
| HeaderFields.NltRoundTrip | compression/jxs/headers.cc:108-128 | non-linearity, signed DCO included; refused exactly when E is outside 1..4 |
| HeaderFields.CtsRoundTrip | compression/jxs/headers.cc:135-144 | Star-Tetrix parameters |
| HeaderFields.CrgRoundTrip | compression/jxs/headers.cc:146-155 | component registration |
| HeaderFields.TpcRoundTrip | compression/jxs/headers.cc:157-173 | TPC segment with its signed nibbles |
| HeaderFields.ComRoundTrip | compression/jxs/headers.cc:175-181 | comments |
| Segments.SegmentsRoundTrip | compression/jxs/headers.cc:279-295 | written segments read back one by one, and reading stops at the marker behind them |
| Segments.CollectSegments | compression/jxs/headers.cc:281-295 | the position loop collects the specified segments and offset |
| Segments.FindSegment | compression/jxs/headers.cc:304-312 | the scan finds a segment that may occur at most once |
| Segments.PutSegment | compression/jxs/headers.cc:185-193 | marker, length and payload appended, or refused when too long |
| HeaderStream.WriteHeaderBytes | compression/jxs/headers.cc:342-414 | the writer, segment by segment, computes the specified bytes |
| HeaderStream.ParseHeaderBytes | compression/jxs/headers.cc:279-340 | the parser accepts exactly what the specification accepts and returns the same headers and offset |
| HeaderStream.WriteCap | compression/jxs/headers.cc:195-202 | capability bits written one by one |
| HeaderStream.ReadCap | compression/jxs/headers.cc:36-48 | capability bits read one by one, bits from 32 on refused |
| HeaderStream.ReadWeights | compression/jxs/headers.cc:92-106 | weight loop over the existing bands |
| HeaderStream.ReadComments | compression/jxs/headers.cc:328-337 | comments in order; any marker that does not belong is refused |
| PrecinctHeaders.RoundTrip | compression/jxs/headers.cc:550-597 | a written precinct header, intra or TDC, has the announced size and parses back; refused exactly when Q > 31 or R >= 2*NL |
| PrecinctHeaders.SliceRoundTrip | compression/jxs/headers.cc:522-541 | slice headers round trip anywhere in a stream |
| HeaderLayout.SliceLayout | compression/jxs/headers.cc:533-541 | marker, length 4, and the slice number in two bytes |
| HeaderLayout.PrecinctHeaderLayout | compression/jxs/headers.cc:576-597 | an intra precinct header: three bytes of Lprc, Q, R, and two bits of D per existing band, four to a byte |
| PrecinctHeaders.WidthsSum | compression/jxs/headers.cc:543-548 | the announced precinct header size is the sum of its fields |
| PrecinctHeaders.WritePrecinctHeader | compression/jxs/headers.cc:576-597 | writes the specified bytes or refuses Lprc outside 1..2^20-1 |
| PrecinctHeaders.ParsePrecinctHeader | compression/jxs/headers.cc:550-574 | reads the specified header |

## Left out

- The command-line tools, IVF and RAW containers, statistics, CUDA, Holoscan, HTTP and board code: files, devices and foreign calls.
- ToMosaic and FromMosaic (decoder.cc:72-105): a permutation of samples, which would only add an easy lemma.
- Temporal slices (SLI, Annex H) and vertically subsampled components: the code rejects them, and so does the model.
- The bit rate as a `double` (encoder.cc:140-141): the byte target is a natural number in the configuration.
- Error texts: errors are kinds. Where one method meets several errors at once, the stream-level contracts promise that both sides fail, not with which kind.
- Null-pointer checks, and the size checks on D and Qf at the entry of the precinct decoder (entropy.cc:209-216): the model's precinct decoder requires a D entry per band, which parsed precinct headers always have, and Qf is 32 in every intra slice.
- A component table with sy = 0 (headers.cc:270): the division by zero is an error in the model.
- SampleScaling.SampleExact: is over unbounded integers, while the source's curve constants overflow 64 bits for thresholds above about 3.03e9; the methods that compute roots require them to fit, and SampleScaling.CurveFitsExactly says under which headers they do.
- TransformRange.UsualHeadersStay: does not promise 32 bits for Star-Tetrix with 20 bits of working precision and ten levels or more, where the bounds proved exceed them; CodecFailures.AnalyseFails still holds there.
- Wavelet.SplitColumns: the columns are written one sample at a time, but what they must equal is defined by transposing the plane.
- PrecinctDecoder.DecodePrecinct: bitplane counts and coefficients are maps from band and line instead of nested vectors, reassigned line by line.
- WaveletTransform.CoefficientImage and MultiComponent.PlaneSet hold planes as values in an object's field: an update replaces the plane, so aliasing between planes is not captured.
- HeaderStream.WritePayload: headers of fixed fields go through one loop over a list of fields, not one statement per field.
- Codec.LosslessEndToEnd: the decoder's Lcod is carried to the result and cleared below the headers, where nothing reads it.
