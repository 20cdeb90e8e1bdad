// Headers that come out of the parser can be written again, and parse to themselves.
module ParsedHeaders {
  import opened Wrappers
  import opened Arith
  import opened BitIO
  import opened HeaderTypes
  import opened HeaderFields
  import opened HeaderCodec
  import opened HeaderLimits
  import opened Segments

  // ---- what parsing leaves of each part --------------------------------------------------------------

  lemma PihParsed(payload: seq<byte>)
    requires ParsePih(payload).Ok?
    ensures ParsePih(payload).value.lh <= 1 && ParsePih(payload).value.rl <= 1
  {
    hide Sum, ReadFields, Pow2;
    SmallPowers();
    var v := ParsePayload(PIH_WIDTHS, payload).value;
    assert PIH_WIDTHS[18] == 1 && PIH_WIDTHS[19] == 1;
    assert v[18] < 2 && v[19] < 2;
  }

  lemma NltParsed(payload: seq<byte>)
    requires ParseNlt(payload).Ok?
    ensures var n := ParseNlt(payload).value; DcoFits(n) && NltKept(n) == n && (n.kind == 2 ==> 1 <= n.e <= 4)
  {
    hide Sum, ReadFields, Pow2;
    FieldPowers();
  }

  lemma {:induction false} OfMissing(exists_: seq<bool>, v: seq<nat>)
    requires |v| == 2 * Count(exists_)
    ensures forall b | 0 <= b < |exists_| && !exists_[b] :: WeightsOf(exists_, v)[b] == NO_WEIGHTS
  {
    if exists_ != [] {
      OfMissing(exists_[1..], if exists_[0] then v[2..] else v);
      var w := WeightsOf(exists_, v);
      assert w[1..] == WeightsOf(exists_[1..], if exists_[0] then v[2..] else v);
      forall b | 0 <= b < |exists_| && !exists_[b]
        ensures w[b] == NO_WEIGHTS
      {
        if b > 0 {
          assert w[b] == w[1..][b - 1] && !exists_[1..][b - 1];
        }
      }
    }
  }

  lemma WeightsParsed(exists_: seq<bool>, payload: seq<byte>)
    requires ParseWeights(exists_, payload).Ok?
    ensures var w := ParseWeights(exists_, payload).value; GainsOk(w) && Present(exists_, w) == w
  {
    hide ParsePayload, WeightsOf, WeightWidths;
    var v := ParsePayload(WeightWidths(Count(exists_)), payload).value;
    OfMissing(exists_, v);
  }

  /** A length field of 16 bits bounds every payload. */
  lemma {:induction false} SegmentsShort(data: seq<byte>)
    requires ReadSegments(data).Ok?
    ensures AllShort(ReadSegments(data).value.0)
    decreases |data|
  {
    hide IsMarker, Terminal;
    if !Terminal(ReadU16(data, 0).value) {
      var length := ReadU16(data, 2).value;
      SegmentsShort(data[2 + length..]);
    }
  }

  lemma {:induction false} PayloadsShort(segments: seq<Segment>, marker: nat)
    requires AllShort(segments)
    ensures forall i | 0 <= i < |Payloads(segments, marker)| :: |Payloads(segments, marker)[i]| <= 0xFFFD
  {
    if segments != [] {
      assert Short(segments[0]);
      assert forall i | 0 <= i < |segments[1..]| :: segments[1..][i] == segments[i + 1];
      PayloadsShort(segments[1..], marker);
    }
  }

  lemma {:induction false} ComsParsed(payloads: seq<seq<byte>>)
    requires ParseComs(payloads).Ok? && forall i | 0 <= i < |payloads| :: |payloads[i]| <= 0xFFFD
    ensures CommentsFit(ParseComs(payloads).value)
  {
    if payloads != [] {
      ComsParsed(payloads[1..]);
    }
  }

  // ---- whole headers ---------------------------------------------------------------------------------

  /** Fields of interpreted segments, as far as they matter here. */
  lemma Interpreted(segments: seq<Segment>)
    requires Interpret(segments).Ok? && AllShort(segments)
    ensures Valid(Interpret(segments).value)
    ensures var h := Interpret(segments).value; Writable(h) && Parseable(h) && Kept(h) == h
  {
    hide Valid, ComputeBandLayout, ParseWeights, ParseNlt, ParseCts, ParseCrg, ParseTpc, ParseComs, Payloads, FindOne, Known,
         ParsePih, ParseCap, ParseCdt, Present, GainsOk, NltKept, CommentsFit, DcoFits, AllShort;
    var h := Interpret(segments).value;
    PihParsed(segments[1].payload);
    PayloadsShort(segments, COM);
    ComsParsed(Payloads(segments, COM));
    var exists_ := LayoutOf(h).exists_;
    WeightsParsed(exists_, FindOne(segments, WGT).value.value);
    if h.refresh.Some? {
      WeightsParsed(exists_, FindOne(segments, WGR).value.value);
    }
    if h.nlt.Some? {
      NltParsed(FindOne(segments, NLT).value.value);
    }
  }

  /**
   * Whatever headers were parsed can be written, and parsing what was written gives them back: the parser is a left
   * inverse of the writer on its own results.
   */
  lemma ParsedWritesBack(data: seq<byte>, tail: seq<byte>)
    requires ParseHeaders(data).Ok? && EndsHeaders(tail)
    ensures var h := ParseHeaders(data).value.0;
            WriteHeaders(h).Ok? && ParseHeaders(WriteHeaders(h).value + tail) == Ok((h, |WriteHeaders(h).value|))
  {
    hide Interpret, ReadSegments, WriteHeaders, EndsHeaders, Valid, Writable, Parseable, Kept, AllShort;
    var segments := ReadSegments(data[2..]).value.0;
    var h := ParseHeaders(data).value.0;
    SegmentsShort(data[2..]);
    Interpreted(segments);
    WriteHeadersExact(h);
    Unchanged(h, tail);
  }

  lemma Unchanged(h: Headers, tail: seq<byte>)
    requires WriteHeaders(h).Ok? && EndsHeaders(tail) && Valid(h) && Parseable(h) && Kept(h) == h
    ensures ParseHeaders(WriteHeaders(h).value + tail) == Ok((h, |WriteHeaders(h).value|))
  {
    hide ParseHeaders, WriteHeaders, EndsHeaders, Valid, Parseable, Kept;
    HeadersExact(h, tail);
  }
}
