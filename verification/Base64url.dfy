/** Base64url without padding: section 5 of RFC 4648, section 2 of RFC 7515. */
module Base64url {
  import opened Prelude
  import opened Octets

  type Pair = x: int | 0 <= x < 4

  /** An octet as four bit pairs, and a base64 digit as three, highest first. */
  datatype Octet = Octet(p: Pair, q: Pair, r: Pair, s: Pair)

  datatype Six = Six(p: Pair, q: Pair, r: Pair)

  /** The number an octet stands for, spelled out. */
  ghost function Rank(o: Octet): (x: nat) { 64 * o.p + 16 * o.q + 4 * o.r + o.s }

  const Zero := Octet(0, 0, 0, 0)

  function Successor(o: Octet): (next: Octet) {
    if o.s < 3 then o.(s := o.s + 1)
    else if o.r < 3 then o.(r := o.r + 1, s := 0)
    else if o.q < 3 then o.(q := o.q + 1, r := 0, s := 0)
    else if o.p < 3 then Octet(o.p + 1, 0, 0, 0)
    else Zero
  }

  function Predecessor(o: Octet): (previous: Octet) {
    if o.s > 0 then o.(s := o.s - 1)
    else if o.r > 0 then o.(r := o.r - 1, s := 3)
    else if o.q > 0 then o.(q := o.q - 1, r := 3, s := 3)
    else if o.p > 0 then Octet(o.p - 1, 3, 3, 3)
    else Zero
  }

  lemma PredecessorRank(o: Octet)
    requires o != Zero
    ensures Rank(Predecessor(o)) + 1 == Rank(o)
  {
    if o.s > 0 {
    } else if o.r > 0 {
    } else if o.q > 0 {
    }
  }

  /** The bit pairs of a number below 256, found by counting up to it. */
  function OctetOf(x: nat): (o: Octet) {
    if x == 0 then Zero else Successor(OctetOf(x - 1))
  }

  /** The number an octet stands for, found by counting down. */
  function CountDown(o: Octet): (x: nat)
    decreases Rank(o)
  {
    if o == Zero then 0
    else
      PredecessorRank(o);
      1 + CountDown(Predecessor(o))
  }

  lemma {:induction false} CountDownIsRank(o: Octet)
    ensures CountDown(o) == Rank(o)
    decreases Rank(o)
  {
    if o != Zero {
      PredecessorRank(o);
      CountDownIsRank(Predecessor(o));
    }
  }

  function Value(o: Octet): (x: Byte) {
    CountDownIsRank(o);
    CountDown(o)
  }

  function SixOf(x: nat): (d: Six) {
    var o := OctetOf(x);
    Six(o.q, o.r, o.s)
  }

  function SixValue(d: Six): (x: nat)
    ensures x < 64
  {
    CountDownIsRank(Octet(0, d.p, d.q, d.r));
    CountDown(Octet(0, d.p, d.q, d.r))
  }

  lemma {:induction false} OctetOfHasRank(x: nat)
    requires x < 256
    ensures Rank(OctetOf(x)) == x
  {
    if x > 0 {
      OctetOfHasRank(x - 1);
    }
  }

  lemma OctetOfHasValue(x: nat)
    requires x < 256
    ensures Value(OctetOf(x)) == x
  {
    OctetOfHasRank(x);
    CountDownIsRank(OctetOf(x));
  }

  lemma SixOfReadsBack(d: Six)
    ensures SixOf(SixValue(d)) == d
  {
    var o := Octet(0, d.p, d.q, d.r);
    CountDownIsRank(o);
    OctetOfHasRank(SixValue(d));
  }

  // --- Letters --------------------------------------------------------------------------

  function Letter(d: Six): (c: char) {
    var x := SixValue(d);
    if x < 26 then (65 + x) as char
    else if x < 52 then (97 + x - 26) as char
    else if x < 62 then (48 + x - 52) as char
    else if x == 62 then '-'
    else '_'
  }

  predicate InAlphabet(c: char) {
    'A' <= c <= 'Z' || 'a' <= c <= 'z' || '0' <= c <= '9' || c == '-' || c == '_'
  }

  function Digit(c: char): (d: Six)
    requires InAlphabet(c)
  {
    SixOf(if 'A' <= c <= 'Z' then c as int - 65
          else if 'a' <= c <= 'z' then c as int - 97 + 26
          else if '0' <= c <= '9' then c as int - 48 + 52
          else if c == '-' then 62
          else 63)
  }

  lemma LetterReadsBack(d: Six)
    ensures InAlphabet(Letter(d)) && Digit(Letter(d)) == d
  {
    SixOfReadsBack(d);
  }

  function Letters(s: seq<Six>): (text: string) {
    if s == [] then "" else [Letter(s[0])] + Letters(s[1..])
  }

  function Digits(text: string): (s: seq<Six>)
    requires forall c :: c in text ==> InAlphabet(c)
  {
    if text == [] then [] else [Digit(text[0])] + Digits(text[1..])
  }

  // --- Groups ----------------------------------------------------------------------------

  function One(x: Octet): (d: Six) { Six(x.p, x.q, x.r) }

  function Two(x: Octet, y: Octet): (d: Six) { Six(x.s, y.p, y.q) }

  function Three(y: Octet, z: Octet): (d: Six) { Six(y.r, y.s, z.p) }

  function Four(z: Octet): (d: Six) { Six(z.q, z.r, z.s) }

  /** A length that groups of four leave no single digit of. */
  predicate WholeGroups(n: nat) {
    if n < 4 then n != 1 else WholeGroups(n - 4)
  }

  lemma {:induction false} WholeGroupsIsModulo(n: nat)
    ensures WholeGroups(n) <==> n % 4 != 1
  {
    if n >= 4 {
      WholeGroupsIsModulo(n - 4);
    }
  }

  /** Three octets make four digits; a short last group is filled with zero bits. */
  function Sextets(b: seq<Byte>): (s: seq<Six>) {
    if |b| == 0 then []
    else
      var x := OctetOf(b[0]);
      if |b| == 1 then [One(x), Two(x, Zero)]
      else
        var y := OctetOf(b[1]);
        if |b| == 2 then [One(x), Two(x, y), Three(y, Zero)]
        else
          var z := OctetOf(b[2]);
          [One(x), Two(x, y), Three(y, z), Four(z)] + Sextets(b[3..])
  }

  function First(a: Six, b: Six): (x: Byte) { Value(Octet(a.p, a.q, a.r, b.p)) }

  function Second(b: Six, c: Six): (y: Byte) { Value(Octet(b.q, b.r, c.p, c.q)) }

  function Third(c: Six, d: Six): (z: Byte) { Value(Octet(c.r, d.p, d.q, d.r)) }

  /** The decoder discards the bits left over in a short last group. */
  function FromSextets(s: seq<Six>): (b: seq<Byte>)
    requires WholeGroups(|s|)
  {
    if |s| == 0 then []
    else if |s| == 2 then [First(s[0], s[1])]
    else if |s| == 3 then [First(s[0], s[1]), Second(s[1], s[2])]
    else [First(s[0], s[1]), Second(s[1], s[2]), Third(s[2], s[3])] + FromSextets(s[4..])
  }

  function Encode(b: seq<Byte>): (text: string) {
    Letters(Sextets(b))
  }

  predicate Readable(text: string) {
    (forall c :: c in text ==> InAlphabet(c)) && WholeGroups(|text|)
  }

  /** The two tests that are made on a text before it is decoded. */
  lemma ReadableIff(text: string)
    ensures Readable(text) <==> (forall c :: c in text ==> InAlphabet(c)) && |text| % 4 != 1
  {
    WholeGroupsIsModulo(|text|);
  }

  function Decode(text: string): (b: seq<Byte>)
    requires Readable(text)
    ensures |text| >= 2 ==> b != []
  {
    DigitsLength(text);
    FromSextets(Digits(text))
  }

  lemma {:induction false} DigitsLength(text: string)
    requires forall c :: c in text ==> InAlphabet(c)
    ensures |Digits(text)| == |text|
  {
    if text != [] {
      DigitsLength(text[1..]);
    }
  }

  lemma {:induction false} LettersReadBack(s: seq<Six>)
    ensures |Letters(s)| == |s| && (forall c :: c in Letters(s) ==> InAlphabet(c))
    ensures Digits(Letters(s)) == s
  {
    if s != [] {
      LetterReadsBack(s[0]);
      LettersReadBack(s[1..]);
      assert Letters(s)[1..] == Letters(s[1..]);
    }
  }

  lemma {:induction false} SextetsLength(b: seq<Byte>)
    ensures WholeGroups(|Sextets(b)|) && (b != [] ==> |Sextets(b)| >= 2)
  {
    if |b| >= 3 {
      SextetsLength(b[3..]);
    }
  }

  /** One whole group in front of what already reads back. */
  lemma GroupReadsBack(a: Byte, b: Byte, c: Byte, code: seq<Six>)
    requires WholeGroups(|code|)
    ensures var x, y, z := OctetOf(a), OctetOf(b), OctetOf(c);
            && WholeGroups(|[One(x), Two(x, y), Three(y, z), Four(z)] + code|)
            && FromSextets([One(x), Two(x, y), Three(y, z), Four(z)] + code) == [a, b, c] + FromSextets(code)
  {
    var x, y, z := OctetOf(a), OctetOf(b), OctetOf(c);
    OctetOfHasValue(a);
    OctetOfHasValue(b);
    OctetOfHasValue(c);
  }

  lemma {:induction false} SextetsReadBack(b: seq<Byte>)
    ensures WholeGroups(|Sextets(b)|) && FromSextets(Sextets(b)) == b
  {
    if |b| >= 3 {
      SextetsReadBack(b[3..]);
      GroupReadsBack(b[0], b[1], b[2], Sextets(b[3..]));
      assert b == [b[0], b[1], b[2]] + b[3..];
    } else if b != [] {
      var x, y := OctetOf(b[0]), if |b| == 2 then OctetOf(b[1]) else Zero;
      OctetOfHasValue(b[0]);
      OctetOfHasValue(if |b| == 2 then b[1] else 0);
      assert b == if |b| == 2 then [b[0], b[1]] else [b[0]];
    }
  }

  /** Encoding is readable and reads back, so it loses nothing. */
  lemma EncodeReadsBack(b: seq<Byte>)
    ensures Readable(Encode(b)) && Decode(Encode(b)) == b
    ensures b != [] ==> Encode(b) != ""
  {
    SextetsLength(b);
    SextetsReadBack(b);
    LettersReadBack(Sextets(b));
  }

  /** An encoding of octet strings as text, as far as key identity depends on it. */
  datatype Codec = Codec(encode: seq<Byte> -> string, readable: string -> bool, decode: string -> seq<Byte>)

  /** Nothing is lost, the empty string alone is empty, and neither padding nor a quotation mark occurs. */
  ghost predicate Faithful(codec: Codec) {
    && codec.encode([]) == ""
    && forall b {:trigger codec.encode(b)} ::
         && codec.readable(codec.encode(b)) && codec.decode(codec.encode(b)) == b
         && (b != [] ==> codec.encode(b) != "")
         && '=' !in codec.encode(b) && '"' !in codec.encode(b)
  }

  function DecodeIfReadable(text: string): (b: seq<Byte>) {
    if Readable(text) then Decode(text) else []
  }

  /** Unpadded base64url is such an encoding. */
  lemma Base64urlIsFaithful()
    ensures Faithful(Codec(Encode, Readable, DecodeIfReadable))
  {
    forall b
      ensures Readable(Encode(b)) && Decode(Encode(b)) == b && (b != [] ==> Encode(b) != "")
      ensures '=' !in Encode(b) && '"' !in Encode(b)
    {
      EncodeReadsBack(b);
    }
  }
}
