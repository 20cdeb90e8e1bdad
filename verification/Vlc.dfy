// Variable-length code of bitplane-count residuals (clause C.7, Tables C.17 and C.18).
// A residual x in the context of predictor r and truncation position t is a unary number closed by
// a comma bit: a signed alphabet up to theta = max(r - t, 0) on either side, unary beyond.
module Vlc {
  import opened Wrappers
  import opened Arith
  import opened BitIO

  function Theta(r: int, t: int): nat {
    Max(r - t, 0)
  }

  /** Number of one bits coding residual x. */
  function Symbol(x: int, theta: nat): nat
    requires x + theta >= 0
  {
    if x > theta then x + theta else if x < 0 then -2 * x - 1 else 2 * x
  }

  function Residual(n: nat, theta: nat): int {
    if n > 2 * theta then n - theta
    else if n > 0 then if n % 2 == 1 then -((n + 1) / 2) else n / 2
    else 0
  }

  /** In every context codewords and admissible residuals are in bijection. */
  lemma SymbolBijection(theta: nat)
    ensures forall x: int | x + theta >= 0 :: Residual(Symbol(x, theta), theta) == x
    ensures forall n: nat :: Residual(n, theta) + theta >= 0 && Symbol(Residual(n, theta), theta) == n
  {
    forall n: nat
      ensures Residual(n, theta) + theta >= 0 && Symbol(Residual(n, theta), theta) == n
    {
      if n % 2 == 1 && n <= 2 * theta {
        assert n == 2 * ((n + 1) / 2) - 1;
      }
    }
  }

  /** Residuals nearer to zero come first, and negative ones before positive ones. */
  predicate Before(x: int, y: int) {
    Abs(x) < Abs(y) || (Abs(x) == Abs(y) && x < y)
  }

  function Ones(n: nat): seq<bool> {
    seq(n, _ => true)
  }

  function Code(x: int, r: int, t: int): seq<bool>
    requires x + Theta(r, t) >= 0
  {
    Ones(Symbol(x, Theta(r, t))) + [false]
  }

  /**
   * Codewords are ones closed by a zero, and a residual further from zero has a longer one; of opposite residuals the
   * negative one is shorter. Together with the bijection this fixes the code: 0, -1, 1, -2, 2, ... and, where -x is not
   * admissible any more, x, x + 1, ...
   */
  lemma CodeOrder(x: int, y: int, r: int, t: int)
    requires x + Theta(r, t) >= 0 && y + Theta(r, t) >= 0
    ensures Before(x, y) <==> |Code(x, r, t)| < |Code(y, r, t)|
    ensures var c := Code(x, r, t); c != [] && !c[|c| - 1] && forall i | 0 <= i < |c| - 1 :: c[i]
  {
  }

  function ReadUnary(n: nat, limit: nat, bits: seq<bool>): Result<(nat, seq<bool>)>
    decreases |bits|
  {
    if bits == [] then Err(EndOfData)
    else if !bits[0] then Ok((n, bits[1..]))
    else if n + 1 >= limit then Err(LostSync)
    else ReadUnary(n + 1, limit, bits[1..])
  }

  function ReadCode(r: int, t: int, br: nat, bits: seq<bool>): Result<(int, seq<bool>)> {
    var (n, rest) :- ReadUnary(0, Pow2(br + 1), bits);
    Ok((Residual(n, Theta(r, t)), rest))
  }

  lemma {:induction false} ReadOnes(k: nat, n: nat, limit: nat, tail: seq<bool>)
    requires k <= n < limit
    ensures ReadUnary(k, limit, Ones(n - k) + [false] + tail) == Ok((n, tail))
    decreases n - k
  {
    var bits := Ones(n - k) + [false] + tail;
    if k < n {
      assert bits[1..] == Ones(n - (k + 1)) + [false] + tail;
      ReadOnes(k + 1, n, limit, tail);
    } else {
      assert bits == [false] + tail;
    }
  }

  /** Decoding undoes encoding, and consumes the codeword exactly. */
  lemma CodeRoundTrip(x: int, r: int, t: int, br: nat, tail: seq<bool>)
    requires x + Theta(r, t) >= 0
    requires Symbol(x, Theta(r, t)) < Pow2(br + 1)
    ensures ReadCode(r, t, br, Code(x, r, t) + tail) == Ok((x, tail))
  {
    ReadOnes(0, Symbol(x, Theta(r, t)), Pow2(br + 1), tail);
    SymbolBijection(Theta(r, t));
  }

  lemma {:induction false} TooManyOnes(n: nat, k: nat, limit: nat, bits: seq<bool>)
    requires n < limit <= n + k <= n + |bits| && forall i | 0 <= i < k :: bits[i]
    ensures ReadUnary(n, limit, bits) == Err(LostSync)
    decreases k
  {
    if n + 1 < limit {
      TooManyOnes(n + 1, k - 1, limit, bits[1..]);
    }
  }

  /** 2^(Br+1) one bits in a row are taken for lost synchronisation, one less is not. */
  lemma SyncLimit(r: int, t: int, br: nat, n: nat, tail: seq<bool>)
    ensures ReadCode(r, t, br, Ones(n) + [false] + tail) ==
            if n < Pow2(br + 1) then Ok((Residual(n, Theta(r, t)), tail)) else Err(LostSync)
  {
    hide Pow2, Residual, Theta;
    if n < Pow2(br + 1) {
      ReadOnes(0, n, Pow2(br + 1), tail);
    } else {
      TooManyOnes(0, n, Pow2(br + 1), Ones(n) + [false] + tail);
    }
  }

  /** Whatever the bits, a decoded residual is admissible in its context and its codeword was read. */
  lemma {:induction false} ReadUnaryShape(n: nat, limit: nat, bits: seq<bool>)
    requires ReadUnary(n, limit, bits).Ok?
    ensures var (k, rest) := ReadUnary(n, limit, bits).value;
            n <= k && bits == Ones(k - n) + [false] + rest
    decreases |bits|
  {
    if bits[0] {
      ReadUnaryShape(n + 1, limit, bits[1..]);
      var (k, rest) := ReadUnary(n + 1, limit, bits[1..]).value;
      assert bits == [true] + bits[1..];
      assert [true] + (Ones(k - n - 1) + [false] + rest) == Ones(k - n) + [false] + rest;
    } else {
      assert bits == [false] + bits[1..];
      assert Ones(0) + [false] + bits[1..] == [false] + bits[1..];
    }
  }

  lemma ReadCodeShape(r: int, t: int, br: nat, bits: seq<bool>)
    requires ReadCode(r, t, br, bits).Ok?
    ensures var (x, rest) := ReadCode(r, t, br, bits).value;
            x + Theta(r, t) >= 0 && bits == Code(x, r, t) + rest
  {
    ReadUnaryShape(0, Pow2(br + 1), bits);
    SymbolBijection(Theta(r, t));
  }

  /** Residuals of counts within 0..2^br-1 stay clear of the loss-of-synchronisation limit. */
  lemma CountResidual(m: nat, r: nat, t: nat, br: nat)
    requires m < Pow2(br) && r < Pow2(br)
    requires m - r + Theta(r, t) >= 0
    ensures Symbol(m - r, Theta(r, t)) < Pow2(br + 1)
  {
  }

  /** A count not below the truncation position is representable from any predictor. */
  lemma Representable(m: nat, r: nat, t: nat)
    requires t <= m
    ensures m - r + Theta(r, t) >= 0
  {
  }

  /** And nothing else is: next to a predictor that is not below T, whatever is decoded gives a count that is not either. */
  lemma DecodedFromT(r: int, t: int, br: nat, bits: seq<bool>)
    requires t <= r && ReadCode(r, t, br, bits).Ok?
    ensures r + ReadCode(r, t, br, bits).value.0 >= t
  {
    ReadCodeShape(r, t, br, bits);
  }

  // ---- streams of codewords and fields ---------------------------------------------------------

  /** One item of a subpacket: a residual in its context, or a fixed-width field. */
  datatype Item = Codeword(x: int, r: int, t: int, br: nat) | Field(v: nat, n: nat) {
    predicate Writable() {
      match this
      case Codeword(x, r, t, br) => x + Theta(r, t) >= 0 && Symbol(x, Theta(r, t)) < Pow2(br + 1)
      case Field(v, n) => v < Pow2(n)
    }

    function ItemBits(): seq<bool>
      requires Writable()
    {
      match this
      case Codeword(x, r, t, _) => Code(x, r, t)
      case Field(v, n) => FieldBits(v, n)
    }

    /** Reads an item of this kind and context; its own x or v plays no part. */
    function ReadLike(bits: seq<bool>): Result<(Item, seq<bool>)> {
      match this
      case Codeword(_, r, t, br) => var (x, rest) :- ReadCode(r, t, br, bits); Ok((Codeword(x, r, t, br), rest))
      case Field(_, n) => var (v, rest) :- ReadField(n, bits); Ok((Field(v, n), rest))
    }
  }

  function StreamBits(items: seq<Item>): seq<bool>
    requires forall i | 0 <= i < |items| :: items[i].Writable()
  {
    if items == [] then [] else items[0].ItemBits() + StreamBits(items[1..])
  }

  function ReadStream(like: seq<Item>, bits: seq<bool>): Result<(seq<Item>, seq<bool>)> {
    if like == [] then Ok(([], bits)) else
    var (first, rest) :- like[0].ReadLike(bits);
    var (others, end) :- ReadStream(like[1..], rest);
    Ok(([first] + others, end))
  }

  lemma ItemRoundTrip(item: Item, more: seq<bool>)
    requires item.Writable()
    ensures item.ReadLike(item.ItemBits() + more) == Ok((item, more))
  {
    hide ReadCode, Code, FieldBits, ReadField, Pow2, Symbol, Theta;
    match item {
      case Codeword(x, r, t, br) => CodeRoundTrip(x, r, t, br, more);
      case Field(v, n) => ReadFieldBits(v, n, more);
    }
  }

  /** Any mixture of codewords and fields reads back, ending exactly where it was written. */
  lemma {:induction false} StreamRoundTrip(items: seq<Item>, tail: seq<bool>)
    requires forall i | 0 <= i < |items| :: items[i].Writable()
    ensures ReadStream(items, StreamBits(items) + tail) == Ok((items, tail))
  {
    hide Item.ItemBits, Item.ReadLike, Item.Writable;
    if items != [] {
      var more := StreamBits(items[1..]) + tail;
      assert StreamBits(items) + tail == items[0].ItemBits() + more;
      ItemRoundTrip(items[0], more);
      StreamRoundTrip(items[1..], tail);
      assert [items[0]] + items[1..] == items;
    } else {
      assert StreamBits(items) + tail == tail;
    }
  }

  // ---- the coder -------------------------------------------------------------------------------

  method VlcEncode(writer: BitWriter, x: int, r: int, t: int) returns (res: Result<()>)
    requires writer.Valid()
    modifies writer
    ensures writer.Valid()
    ensures if x + Theta(r, t) >= 0
            then res == Ok(()) && writer.Contents == old(writer.Contents) + Code(x, r, t)
            else res == Err(ResidualTooSmall) && writer.Contents == old(writer.Contents)
  {
    var theta := Max(r - t, 0);
    if x < -theta {
      return Err(ResidualTooSmall);
    }
    var n;
    if x > theta {
      n := x + theta;
    } else {
      var x2 := 2 * x;
      n := if x2 < 0 then -x2 - 1 else x2;
    }
    for i := 0 to n
      invariant writer.Valid()
      invariant writer.Contents == old(writer.Contents) + Ones(i)
    {
      writer.PutBit(true);
    }
    writer.PutBit(false);
    return Ok(());
  }

  /** What remains to be read determines the position. */
  lemma PositionOf(reader: BitReader)
    requires reader.Valid()
    ensures reader.pos + |reader.Rest()| == 8 * |reader.data|
  {
  }

  /** The outcome of a unary run whose next bit has just been read. */
  function RunFrom(n: nat, limit: nat, bit: bool, rest: seq<bool>): Result<(nat, seq<bool>)> {
    if !bit then Ok((n, rest)) else if n + 1 >= limit then Err(LostSync) else ReadUnary(n + 1, limit, rest)
  }

  lemma RunNext(n: nat, limit: nat, bits: seq<bool>)
    ensures ReadUnary(n, limit, bits) == if bits == [] then Err(EndOfData) else RunFrom(n, limit, bits[0], bits[1..])
  {
  }

  /** One bits up to the first zero bit. */
  method CountOnes(reader: BitReader, limit: nat) returns (r: Result<nat>)
    requires reader.Valid()
    modifies reader
    ensures reader.Valid() && reader.pos >= old(reader.pos)
    ensures var f := ReadUnary(0, limit, old(reader.Rest()));
            if f.Ok? then r == Ok(f.value.0) && reader.Rest() == f.value.1 else r == Err(f.error)
  {
    hide ReadUnary, Bits;
    ghost var whole := ReadUnary(0, limit, reader.Rest());
    RunNext(0, limit, reader.Rest());
    var n: nat := 0;
    var bit :- reader.Bit();
    while bit
      invariant reader.Valid() && reader.pos >= old(reader.pos)
      invariant whole == RunFrom(n, limit, bit, reader.Rest())
      decreases 8 * |reader.data| - reader.pos, bit
    {
      n := n + 1;
      if n >= limit {
        return Err(LostSync);
      }
      RunNext(n, limit, reader.Rest());
      bit :- reader.Bit();
    }
    return Ok(n);
  }

  method VlcDecode(reader: BitReader, r: int, t: int, br: nat) returns (res: Result<int>)
    requires reader.Valid()
    modifies reader
    ensures reader.Valid() && reader.pos >= old(reader.pos)
    ensures var f := ReadCode(r, t, br, old(reader.Rest()));
            if f.Ok?
            then res == Ok(f.value.0) && reader.Rest() == f.value.1 &&
                 reader.pos == old(reader.pos) + |old(reader.Rest())| - |f.value.1|
            else res == Err(f.error)
  {
    hide ReadUnary, Pow2, Bits;
    PositionOf(reader);
    var theta := Max(r - t, 0);
    var limit := Pow2(br + 1);
    var n :- CountOnes(reader, limit);
    PositionOf(reader);
    res := if n > 2 * theta then Ok(n - theta)
           else if n > 0 then Ok(if n % 2 == 1 then -((n + 1) / 2) else n / 2)
           else Ok(0);
  }
}
