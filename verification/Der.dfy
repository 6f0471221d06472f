/** Raw ECDSA signatures as DER: sections 8.1.3, 8.3 and 10.1 of X.690. */
module Der {
  import opened Prelude
  import opened Octets

  function Pow2(n: nat): (r: nat)
    ensures r >= 1
  {
    if n == 0 then 1 else 2 * Pow2(n - 1)
  }

  /** `int.bit_length()`. */
  function BitLength(n: nat): (bits: nat) {
    if n == 0 then 0 else BitLength(n / 2) + 1
  }

  /**
   Length octets: one below 128, otherwise a first octet made from the count with
   its top bit set, and the minimal big-endian length.  A count that has the top bit
   set already stands for itself, and one beyond an octet is a `ValueError`.
   */
  function LengthOctets(length: nat): (octets: Option<seq<Byte>>) {
    var count := |Minimal(length)|;
    if length < 128 then Some([length])
    else if count < 128 then Some([128 + count] + Minimal(length))
    else if count < 256 then Some([count] + Minimal(length))
    else None
  }

  method LengthBytes(length: nat) returns (octets: Option<seq<Byte>>)
    ensures octets == LengthOctets(length)
    ensures octets.Some? <==> |Minimal(length)| <= 255
    ensures octets.Some? ==>
              if length < 128 then octets.value == [length]
              else octets.value[1..] == Minimal(length) &&
                   octets.value[0] == |Minimal(length)| + if |Minimal(length)| < 128 then 128 else 0
  {
    if length < 128 {
      return Some([length]);
    }
    var encoded: seq<Byte> := [];
    var temp := length;
    while temp > 0
      invariant Minimal(temp) + encoded == Minimal(length)
    {
      ghost var before := encoded;
      encoded := [temp % 256] + encoded;
      assert Minimal(temp / 256) + ([temp % 256] + before) == Minimal(temp / 256) + [temp % 256] + before;
      temp := temp / 256;
    }
    assert encoded == Minimal(length);
    if |encoded| < 128 {
      octets := Some([128 + |encoded|] + encoded);
    } else if |encoded| < 256 {
      octets := Some([|encoded|] + encoded);
    } else {
      octets := None;
    }
  }

  /** What a definite-form length can express: at most 126 octets of it. */
  predicate Definite(length: nat) { |Minimal(length)| <= 126 }

  /** The width `to_bytes` is asked for: room for the bits and one sign bit. */
  function SignedWidth(n: nat): (w: nat)
    ensures w >= 1
  {
    (BitLength(n) + 8) / 8
  }

  /** The contents octets, with the extra zero octet the code is prepared to add. */
  function IntegerContents(n: nat): (contents: seq<Byte>) {
    var raw := Fixed(n, SignedWidth(n));
    if raw[0] >= 128 then [0] + raw else raw
  }

  function IntegerToDer(n: nat): (der: Option<seq<Byte>>) {
    var contents := IntegerContents(n);
    var length := LengthOctets(|contents|);
    if length.Some? then Some([2] + length.value + contents) else None
  }

  /** Everything the SEQUENCE holds. */
  function Body(r: nat, s: nat): (body: Option<seq<Byte>>) {
    var first, second := IntegerToDer(r), IntegerToDer(s);
    if first.Some? && second.Some? then Some(first.value + second.value) else None
  }

  datatype Error = WrongLength | TooLong

  function FirstHalf(signature: seq<Byte>, width: nat): (r: nat)
    requires |signature| == 2 * width
  {
    FromBytes(signature[..width])
  }

  function SecondHalf(signature: seq<Byte>, width: nat): (s: nat)
    requires |signature| == 2 * width
  {
    FromBytes(signature[width..])
  }

  /** A raw signature is R followed by S, both as wide as a coordinate. */
  function RawToDer(signature: seq<Byte>, width: nat): (der: Result<seq<Byte>, Error>) {
    if |signature| != 2 * width then Err(WrongLength)
    else
      var body := Body(FirstHalf(signature, width), SecondHalf(signature, width));
      if body.None? || LengthOctets(|body.value|).None? then Err(TooLong)
      else Ok([0x30] + LengthOctets(|body.value|).value + body.value)
  }

  // --- A strict DER reader ----------------------------------------------------------------

  datatype Parsed = Parsed(value: nat, rest: seq<Byte>)

  /** Minimal length octets only. */
  function ReadLength(b: seq<Byte>): (length: Option<Parsed>) {
    if b == [] then None
    else if b[0] < 128 then Some(Parsed(b[0], b[1..]))
    else if b[0] == 128 || b[0] == 255 || |b| < b[0] - 127 then None
    else
      var octets := b[1..b[0] - 127];
      if octets[0] == 0 || FromBytes(octets) < 128 then None
      else Some(Parsed(FromBytes(octets), b[b[0] - 127..]))
  }

  /** Shortest two's-complement contents of a non-negative INTEGER. */
  predicate ShortestNonNegative(c: seq<Byte>) {
    c != [] && c[0] < 128 && (|c| > 1 && c[0] == 0 ==> c[1] >= 128)
  }

  function ReadInteger(b: seq<Byte>): (integer: Option<Parsed>) {
    if b == [] || b[0] != 2 then None
    else
      var length := ReadLength(b[1..]);
      if length.None? || length.value.value > |length.value.rest| then None
      else
        var n, rest := length.value.value, length.value.rest;
        if ShortestNonNegative(rest[..n]) then Some(Parsed(FromBytes(rest[..n]), rest[n..])) else None
  }

  /** A SEQUENCE of exactly two INTEGERs and nothing after it. */
  function ReadSignature(b: seq<Byte>): (pair: Option<(nat, nat)>) {
    if b == [] || b[0] != 0x30 then None
    else
      var length := ReadLength(b[1..]);
      if length.None? || length.value.value != |length.value.rest| then None
      else
        var r := ReadInteger(length.value.rest);
        if r.None? then None
        else
          var s := ReadInteger(r.value.rest);
          if s.None? || s.value.rest != [] then None else Some((r.value.value, s.value.value))
  }

  // --- Widths ---------------------------------------------------------------------------------

  lemma {:induction false} Pow2Grows(m: nat, n: nat)
    requires m <= n
    ensures Pow2(m) <= Pow2(n)
  {
    if m < n {
      Pow2Grows(m, n - 1);
    }
  }

  lemma Pow2Nibble(n: nat)
    ensures Pow2(n + 4) == 16 * Pow2(n)
  {
    assert Pow2(n + 1) == 2 * Pow2(n) && Pow2(n + 2) == 2 * Pow2(n + 1) && Pow2(n + 3) == 2 * Pow2(n + 2);
  }

  lemma Pow2Octet(n: nat)
    ensures Pow2(n + 8) == 256 * Pow2(n)
  {
    Pow2Nibble(n + 4);
    Pow2Nibble(n);
  }

  lemma {:induction false} BitLengthBounds(n: nat)
    ensures n < Pow2(BitLength(n))
    ensures n > 0 ==> BitLength(n) > 0 && Pow2(BitLength(n) - 1) <= n
  {
    if n > 0 {
      BitLengthBounds(n / 2);
    }
  }

  lemma {:induction false} Pow256IsPow2(n: nat)
    ensures Pow256(n) == Pow2(8 * n)
  {
    if n > 0 {
      Pow256IsPow2(n - 1);
      Pow2Octet(8 * (n - 1));
    }
  }

  /** The top bit of the first octet is the top bit of the number. */
  lemma {:induction false} HighBit(b: seq<Byte>)
    requires b != []
    ensures b[0] < 128 <==> FromBytes(b) < Pow2(8 * |b| - 1)
  {
    if |b| == 1 {
      assert FromBytes(b[..0]) == 0;
      assert Pow2(7) == 128;
    } else {
      HighBit(b[..|b| - 1]);
      Pow2Octet(8 * (|b| - 1) - 1);
    }
  }

  lemma SignBitIsClear(n: nat)
    ensures FromBytes(Fixed(n, SignedWidth(n))) == n && Fixed(n, SignedWidth(n))[0] < 128
  {
    var w := SignedWidth(n);
    BitLengthBounds(n);
    Pow256IsPow2(w);
    Pow2Grows(BitLength(n), 8 * w);
    FixedReadsBack(n, w);
    HighBit(Fixed(n, w));
    Pow2Grows(BitLength(n), 8 * w - 1);
  }

  /** A leading zero octet is there only to keep the number non-negative. */
  lemma LeadingZeroIsNeeded(n: nat, raw: seq<Byte>)
    requires |raw| == SignedWidth(n) && |raw| > 1 && FromBytes(raw) == n && raw[0] == 0
    ensures raw[1] >= 128
  {
    assert raw == [0] + raw[1..];
    LeadingZeroIsFree(raw[1..]);
    HighBit(raw[1..]);
    BitLengthBounds(n);
    Pow2Grows(8 * (|raw| - 1) - 1, BitLength(n) - 1);
  }

  /**
   The contents octets are the shortest non-negative ones and read back; the
   branch that prepends a zero octet is never taken.
   */
  lemma IntegerIsMinimal(n: nat)
    ensures IntegerContents(n) == Fixed(n, SignedWidth(n))
    ensures ShortestNonNegative(IntegerContents(n)) && FromBytes(IntegerContents(n)) == n
  {
    var raw := Fixed(n, SignedWidth(n));
    SignBitIsClear(n);
    if |raw| > 1 && raw[0] == 0 {
      LeadingZeroIsNeeded(n, raw);
    }
  }

  lemma LengthReadsBack(n: nat, rest: seq<Byte>)
    requires Definite(n)
    ensures LengthOctets(n).Some? && ReadLength(LengthOctets(n).value + rest) == Some(Parsed(n, rest))
  {
    var b := LengthOctets(n).value + rest;
    MinimalReadsBack(n);
    if n >= 128 {
      var k := |Minimal(n)|;
      assert b[1..k + 1] == Minimal(n);
      assert b[k + 1..] == rest;
    } else {
      assert b[1..] == rest;
    }
  }

  lemma {:induction false} PrefixIsNoLarger(b: seq<Byte>, k: nat)
    requires k <= |b|
    ensures FromBytes(b[..k]) <= FromBytes(b)
  {
    if k < |b| {
      PrefixIsNoLarger(b[..|b| - 1], k);
      assert b[..|b| - 1][..k] == b[..k];
    } else {
      assert b[..k] == b;
    }
  }

  /** A length of more octets never reads as the length of what follows it. */
  lemma LongLengthIsMisread(contents: seq<Byte>)
    requires !Definite(|contents|) && LengthOctets(|contents|).Some?
    ensures var length := ReadLength(LengthOctets(|contents|).value + contents);
            length.Some? ==> length.value.value < |length.value.rest|
  {
    var n := |contents|;
    var k := |Minimal(n)|;
    var b := LengthOctets(n).value + contents;
    MinimalReadsBack(n);
    if k > 128 {
      assert b[1..k - 127] == Minimal(n)[..k - 128];
      PrefixIsNoLarger(Minimal(n), k - 128);
    }
  }

  /** The length octets express their length if and only if there are at most 126 behind the first. */
  lemma LengthReadsBackIff(contents: seq<Byte>)
    ensures LengthOctets(|contents|).Some? &&
            ReadLength(LengthOctets(|contents|).value + contents) == Some(Parsed(|contents|, contents)) <==>
            Definite(|contents|)
  {
    if Definite(|contents|) {
      LengthReadsBack(|contents|, contents);
    } else if LengthOctets(|contents|).Some? {
      LongLengthIsMisread(contents);
    }
  }

  lemma Behind(first: seq<Byte>, octets: seq<Byte>, c: seq<Byte>, rest: seq<Byte>)
    requires |first| == 1
    ensures (first + octets + c + rest)[1..] == octets + (c + rest)
  {
  }

  lemma IntegerReadsBack(n: nat, rest: seq<Byte>, der: seq<Byte>)
    requires Definite(|IntegerContents(n)|) && IntegerToDer(n) == Some(der)
    ensures ReadInteger(der + rest) == Some(Parsed(n, rest))
  {
    var c := IntegerContents(n);
    IntegerIsMinimal(n);
    LengthReadsBack(|c|, c + rest);
    Behind([2], LengthOctets(|c|).value, c, rest);
  }

  lemma {:induction false} MinimalGrows(m: nat, n: nat)
    requires m <= n
    ensures |Minimal(m)| <= |Minimal(n)|
  {
    if m > 0 {
      MinimalGrows(m / 256, n / 256);
    }
  }

  lemma ContentsAreDefinite(n: nat, der: seq<Byte>, size: nat)
    requires IntegerToDer(n) == Some(der) && |der| <= size && Definite(size)
    ensures Definite(|IntegerContents(n)|)
  {
    MinimalGrows(|IntegerContents(n)|, size);
  }

  lemma PairReadsBack(r: nat, s: nat, first: seq<Byte>, second: seq<Byte>)
    requires IntegerToDer(r) == Some(first) && IntegerToDer(s) == Some(second) && Definite(|first + second|)
    ensures ReadInteger(first + second) == Some(Parsed(r, second))
    ensures ReadInteger(second) == Some(Parsed(s, []))
  {
    ContentsAreDefinite(r, first, |first + second|);
    ContentsAreDefinite(s, second, |first + second|);
    IntegerReadsBack(r, second, first);
    IntegerReadsBack(s, [], second);
    assert second + [] == second;
  }

  lemma SequenceReadsBack(b: seq<Byte>, body: seq<Byte>, octets: seq<Byte>)
    requires b == [0x30] + octets + body
    ensures ReadLength(octets + body) == Some(Parsed(|body|, body)) ==>
              ReadSignature(b) ==
              var r := ReadInteger(body);
              if r.None? then None
              else
                var s := ReadInteger(r.value.rest);
                if s.None? || s.value.rest != [] then None else Some((r.value.value, s.value.value))
    ensures ReadLength(octets + body).Some? &&
            ReadLength(octets + body).value.value != |ReadLength(octets + body).value.rest| ==>
              ReadSignature(b).None?
    ensures ReadLength(octets + body).None? ==> ReadSignature(b).None?
  {
    assert b[1..] == octets + body;
  }

  /** Both integers fit the width, and one after the other at that width they are the signature. */
  predicate IsPair(pair: (nat, nat), signature: seq<Byte>, width: nat) {
    pair.0 < Pow256(width) && pair.1 < Pow256(width) && Fixed(pair.0, width) + Fixed(pair.1, width) == signature
  }

  lemma HalvesArePair(signature: seq<Byte>, width: nat)
    requires |signature| == 2 * width
    ensures IsPair((FirstHalf(signature, width), SecondHalf(signature, width)), signature, width)
  {
    FixedIsUnique(signature[..width]);
    FixedIsUnique(signature[width..]);
    assert signature[..width] + signature[width..] == signature;
  }

  /** Only one pair is. */
  lemma PairIsUnique(p: (nat, nat), q: (nat, nat), signature: seq<Byte>, width: nat)
    requires IsPair(p, signature, width) && IsPair(q, signature, width)
    ensures p == q
  {
    assert Fixed(p.0, width) == signature[..width] == Fixed(q.0, width);
    assert Fixed(p.1, width) == signature[width..] == Fixed(q.1, width);
    FixedReadsBack(p.0, width);
    FixedReadsBack(p.1, width);
    FixedReadsBack(q.0, width);
    FixedReadsBack(q.1, width);
  }

  /**
   Whatever the coordinate width, a strict reader gets the same pair of integers back
   from the DER form of a raw signature, and reads anything at all, if and only if the
   length of the body has at most 126 octets.
   */
  lemma SignatureReadsBack(signature: seq<Byte>, width: nat)
    requires |signature| == 2 * width && RawToDer(signature, width).Ok?
    ensures var r, s := FirstHalf(signature, width), SecondHalf(signature, width);
            var read := ReadSignature(RawToDer(signature, width).value);
            Body(r, s).Some? && read == if Definite(|Body(r, s).value|) then Some((r, s)) else None
    ensures var read := ReadSignature(RawToDer(signature, width).value);
            read.Some? ==> IsPair(read.value, signature, width)
  {
    var r, s := FirstHalf(signature, width), SecondHalf(signature, width);
    HalvesArePair(signature, width);
    var body := Body(r, s).value;
    SequenceReadsBack(RawToDer(signature, width).value, body, LengthOctets(|body|).value);
    if Definite(|body|) {
      LengthReadsBack(|body|, body);
      PairReadsBack(r, s, IntegerToDer(r).value, IntegerToDer(s).value);
    } else {
      LongLengthIsMisread(body);
    }
  }

  // --- When there is a DER form ----------------------------------------------------------------

  /** The size of one INTEGER whose contents take `width` octets. */
  function IntegerSize(width: nat): (size: nat) {
    1 + (if width < 128 then 1 else 1 + |Minimal(width)|) + width
  }

  function BodySize(r: nat, s: nat): (size: nat) {
    IntegerSize(SignedWidth(r)) + IntegerSize(SignedWidth(s))
  }

  lemma LengthFits(length: nat)
    ensures LengthOctets(length).Some? <==> |Minimal(length)| <= 255
    ensures LengthOctets(length).Some? ==>
              |LengthOctets(length).value| == if length < 128 then 1 else 1 + |Minimal(length)|
  {
    if length < 128 {
      assert length > 0 ==> Minimal(length / 256) == [];
    }
  }

  lemma IntegerHasItsSize(n: nat)
    ensures IntegerToDer(n).Some? <==> |Minimal(SignedWidth(n))| <= 255
    ensures IntegerToDer(n).Some? ==> |IntegerToDer(n).value| == IntegerSize(SignedWidth(n))
  {
    IntegerIsMinimal(n);
    LengthFits(SignedWidth(n));
  }

  lemma BodyHasItsSize(r: nat, s: nat)
    requires |Minimal(BodySize(r, s))| <= 255
    ensures Body(r, s).Some? && |Body(r, s).value| == BodySize(r, s)
  {
    IntegerHasItsSize(r);
    IntegerHasItsSize(s);
    MinimalGrows(SignedWidth(r), BodySize(r, s));
    MinimalGrows(SignedWidth(s), BodySize(r, s));
  }

  lemma LongBodyFails(r: nat, s: nat)
    requires |Minimal(BodySize(r, s))| > 255
    ensures Body(r, s).None? || LengthOctets(|Body(r, s).value|).None?
  {
    IntegerHasItsSize(r);
    IntegerHasItsSize(s);
    LengthFits(BodySize(r, s));
  }

  /** The conversion fails on a wrong length and where the size of the body itself takes more than 255 octets. */
  lemma RawToDerFailsIff(signature: seq<Byte>, width: nat)
    ensures RawToDer(signature, width) == Err(WrongLength) <==> |signature| != 2 * width
    ensures |signature| == 2 * width ==>
              (RawToDer(signature, width).Ok? <==>
               |Minimal(BodySize(FirstHalf(signature, width), SecondHalf(signature, width)))| <= 255)
  {
    if |signature| == 2 * width {
      var r, s := FirstHalf(signature, width), SecondHalf(signature, width);
      if |Minimal(BodySize(r, s))| <= 255 {
        BodyHasItsSize(r, s);
        LengthFits(BodySize(r, s));
      } else {
        LongBodyFails(r, s);
      }
    }
  }

  lemma ManyBits(n: nat, k: nat)
    requires BitLength(n) > k
    ensures Pow2(k) <= n
  {
    BitLengthBounds(n);
    Pow2Grows(k, BitLength(n) - 1);
  }

  lemma ContentsAreShort(b: seq<Byte>)
    ensures |IntegerContents(FromBytes(b))| <= |b| + 1
  {
    IntegerIsMinimal(FromBytes(b));
    FixedIsUnique(b);
    Pow256IsPow2(|b|);
    if BitLength(FromBytes(b)) > 8 * |b| {
      ManyBits(FromBytes(b), 8 * |b|);
    }
  }

  /** At the coordinate widths there are, every signature of the right length converts and reads back. */
  lemma CoordinatesAlwaysConvert(signature: seq<Byte>, width: nat)
    requires |signature| == 2 * width && width <= 100
    ensures RawToDer(signature, width).Ok?
    ensures ReadSignature(RawToDer(signature, width).value) ==
            Some((FirstHalf(signature, width), SecondHalf(signature, width)))
    ensures IsPair(ReadSignature(RawToDer(signature, width).value).value, signature, width)
  {
    var r, s := FirstHalf(signature, width), SecondHalf(signature, width);
    ContentsAreShort(signature[..width]);
    ContentsAreShort(signature[width..]);
    MinimalGrows(BodySize(r, s), 206);
    assert |Minimal(206)| == 1;
    RawToDerFailsIff(signature, width);
    BodyHasItsSize(r, s);
    SignatureReadsBack(signature, width);
  }
}
