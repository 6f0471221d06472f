/** The encoding as section 4 of RFC 4648 describes it: octets as one number, read off in digits of six bits. */
module Base64urlText {
  import opened Prelude
  import opened Octets
  import opened Base64url

  /** Table 2 of RFC 4648. */
  const Alphabet := Capitals + "abcdefghijklmnopqrstuvwxyz0123456789-_"
  const Capitals := "ABCDEFGHIJKLMNOPQRSTUVWXYZ"

  /** The number a list of digits stands for, the first one highest. */
  function Number(digits: seq<nat>): (n: nat) {
    if digits == [] then 0 else 64 * Number(digits[..|digits| - 1]) + digits[|digits| - 1]
  }

  function Pow64(n: nat): (r: nat) { if n == 0 then 1 else 64 * Pow64(n - 1) }

  /** The number of that many octets with the zero bits that fill up the last digit. */
  function Filled(n: nat, octets: nat): (filled: nat) {
    if octets % 3 == 0 then n else if octets % 3 == 1 then 16 * n else 4 * n
  }

  lemma Factor(a: nat, p: nat, c: nat)
    ensures 64 * (a * p + c) == a * (64 * p) + 64 * c
  {
  }

  lemma {:induction false} DigitsArePositional(high: seq<nat>, low: seq<nat>)
    ensures Number(high + low) == Number(high) * Pow64(|low|) + Number(low)
  {
    if low == [] {
      assert high + low == high;
    } else {
      var n := |low| - 1;
      DigitsArePositional(high, low[..n]);
      assert (high + low)[..|high| + n] == high + low[..n];
      Factor(Number(high), Pow64(n), Number(low[..n]));
    }
  }

  lemma CapitalsComeFirst()
    ensures forall i :: 0 <= i < 26 ==> Alphabet[i] == (65 + i) as char
  {
    assert forall i :: 0 <= i < 26 ==> Capitals[i] == (65 + i) as char;
  }

  lemma SmallLettersFollow()
    ensures forall i :: 26 <= i < 52 ==> Alphabet[i] == (71 + i) as char
  {
  }

  lemma FiguresFollow()
    ensures forall i :: 52 <= i < 62 ==> Alphabet[i] == (i - 4) as char
  {
  }

  lemma LetterIsOfTheAlphabet(d: Six)
    ensures Letter(d) == Alphabet[SixValue(d)]
  {
    CapitalsComeFirst();
    SmallLettersFollow();
    FiguresFollow();
  }

  function Values(s: seq<Six>): (digits: seq<nat>) {
    seq(|s|, i requires 0 <= i < |s| => SixValue(s[i]))
  }

  lemma {:induction false} LettersAreInPlace(s: seq<Six>)
    ensures |Letters(s)| == |s| && forall i :: 0 <= i < |s| ==> Letters(s)[i] == Letter(s[i])
  {
    if s != [] {
      LettersAreInPlace(s[1..]);
    }
  }

  lemma LettersAreDigits(s: seq<Six>)
    ensures SpelledBy(Letters(s), Values(s))
  {
    LettersAreInPlace(s);
    forall i | 0 <= i < |s|
      ensures Letters(s)[i] == Alphabet[Values(s)[i]]
    {
      LetterIsOfTheAlphabet(s[i]);
    }
  }

  lemma SixHasItsValue(d: Six)
    ensures SixValue(d) == 16 * d.p + 4 * d.q + d.r
  {
    CountDownIsRank(Octet(0, d.p, d.q, d.r));
  }

  lemma FewNumbers(digits: seq<nat>)
    requires 1 <= |digits| <= 4
    ensures |digits| == 2 ==> Number(digits) == 64 * digits[0] + digits[1]
    ensures |digits| == 3 ==> Number(digits) == 4096 * digits[0] + 64 * digits[1] + digits[2]
    ensures |digits| == 4 ==> Number(digits) == 262144 * digits[0] + 4096 * digits[1] + 64 * digits[2] + digits[3]
  {
    if |digits| > 1 {
      assert digits[..|digits| - 1][..|digits| - 2] == digits[..|digits| - 2];
    }
    if |digits| > 2 {
      assert digits[..|digits| - 2][..|digits| - 3] == digits[..|digits| - 3];
    }
    assert digits[..1][..0] == [];
  }

  lemma FewOctets(b: seq<Byte>)
    requires 1 <= |b| <= 3
    ensures |b| == 1 ==> FromBytes(b) == b[0] as int
    ensures |b| == 2 ==> FromBytes(b) == 256 * b[0] as int + b[1] as int
    ensures |b| == 3 ==> FromBytes(b) == 65536 * b[0] as int + 256 * b[1] as int + b[2] as int
  {
    if |b| == 3 {
      assert b[..2][..1] == b[..1];
    }
    assert b[..1][..0] == [];
  }

  lemma GroupNumber(x: Octet, y: Octet, z: Octet)
    ensures 262144 * SixValue(One(x)) + 4096 * SixValue(Two(x, y)) + 64 * SixValue(Three(y, z)) + SixValue(Four(z)) ==
            65536 * Rank(x) + 256 * Rank(y) + Rank(z)
    ensures 4096 * SixValue(One(x)) + 64 * SixValue(Two(x, y)) + SixValue(Three(y, Zero)) ==
            4 * (256 * Rank(x) + Rank(y))
    ensures 64 * SixValue(One(x)) + SixValue(Two(x, Zero)) == 16 * Rank(x)
  {
    SixHasItsValue(One(x));
    SixHasItsValue(Two(x, y));
    SixHasItsValue(Two(x, Zero));
    SixHasItsValue(Three(y, z));
    SixHasItsValue(Three(y, Zero));
    SixHasItsValue(Four(z));
  }

  lemma NumberOfFour(a: Six, b: Six, c: Six, d: Six)
    ensures Number(Values([a, b, c, d])) ==
            262144 * SixValue(a) + 4096 * SixValue(b) + 64 * SixValue(c) + SixValue(d)
    ensures Number(Values([a, b, c])) == 4096 * SixValue(a) + 64 * SixValue(b) + SixValue(c)
    ensures Number(Values([a, b])) == 64 * SixValue(a) + SixValue(b)
  {
    FewNumbers(Values([a, b, c, d]));
    FewNumbers(Values([a, b, c]));
    FewNumbers(Values([a, b]));
  }

  lemma OneOctet(a: Byte)
    ensures Number(Values(Sextets([a]))) == Filled(FromBytes([a]), 1)
  {
    var x := OctetOf(a);
    OctetOfHasRank(a);
    GroupNumber(x, x, x);
    NumberOfFour(One(x), Two(x, Zero), One(x), One(x));
    FewOctets([a]);
  }

  lemma TwoOctets(a: Byte, b: Byte)
    ensures Number(Values(Sextets([a, b]))) == Filled(FromBytes([a, b]), 2)
  {
    var x, y := OctetOf(a), OctetOf(b);
    OctetOfHasRank(a);
    OctetOfHasRank(b);
    GroupNumber(x, y, x);
    NumberOfFour(One(x), Two(x, y), Three(y, Zero), One(x));
    FewOctets([a, b]);
  }

  lemma ThreeOctets(a: Byte, b: Byte, c: Byte)
    ensures Number(Values(Sextets([a, b, c]))) == Filled(FromBytes([a, b, c]), 3)
  {
    var x, y, z := OctetOf(a), OctetOf(b), OctetOf(c);
    OctetOfHasRank(a);
    OctetOfHasRank(b);
    OctetOfHasRank(c);
    GroupNumber(x, y, z);
    assert Sextets([a, b, c]) == [One(x), Two(x, y), Three(y, z), Four(z)] + Sextets([a, b, c][3..]);
    assert Sextets([a, b, c]) == [One(x), Two(x, y), Three(y, z), Four(z)];
    NumberOfFour(One(x), Two(x, y), Three(y, z), Four(z));
    FewOctets([a, b, c]);
  }

  /** The digits of the octets make up their number. */
  ghost predicate MakesUp(b: seq<Byte>) {
    Number(Values(Sextets(b))) == Filled(FromBytes(b), |b|)
  }

  lemma OneMakesUp(b: seq<Byte>, x: Byte)
    requires b == [x]
    ensures MakesUp(b)
  {
    OneOctet(x);
  }

  lemma TwoMakeUp(b: seq<Byte>, x: Byte, y: Byte)
    requires b == [x, y]
    ensures MakesUp(b)
  {
    TwoOctets(x, y);
  }

  lemma ThreeMakeUp(b: seq<Byte>, x: Byte, y: Byte, z: Byte)
    requires b == [x, y, z]
    ensures MakesUp(b)
  {
    ThreeOctets(x, y, z);
  }

  /** A whole group, a group of two octets and a group of one. */
  lemma ShortMakesUp(b: seq<Byte>)
    requires |b| <= 3
    ensures MakesUp(b)
  {
    if |b| == 1 {
      OneMakesUp(b, b[0]);
    } else if |b| == 2 {
      TwoMakeUp(b, b[0], b[1]);
    } else if |b| == 3 {
      ThreeMakeUp(b, b[0], b[1], b[2]);
    }
  }

  lemma FewFillUp(b: seq<Byte>)
    requires |b| < 3
    ensures |Sextets(b)| == (4 * |b| + 2) / 3 && Pow64(|Sextets(b)|) == Filled(Pow256(|b|), |b|)
  {
    assert Pow64(1) == 64 && Pow64(2) == 4096 && Pow64(3) == 262144;
    assert Pow256(1) == 256 && Pow256(2) == 65536;
  }

  lemma {:induction false} SextetsFillUp(b: seq<Byte>)
    ensures |Sextets(b)| == (4 * |b| + 2) / 3
    ensures Pow64(|Sextets(b)|) == Filled(Pow256(|b|), |b|)
  {
    if |b| >= 3 {
      SextetsFillUp(b[3..]);
      var n := |Sextets(b[3..])|;
      assert |Sextets(b)| == n + 4;
      Pow64Four(n);
      Pow256Three(|b| - 3);
      SameFilling(Pow256(|b|), |b|, |b| - 3);
    } else {
      FewFillUp(b);
    }
  }

  lemma Pow64Four(n: nat)
    ensures Pow64(n + 4) == 16777216 * Pow64(n)
  {
    assert Pow64(n + 1) == 64 * Pow64(n) && Pow64(n + 2) == 64 * Pow64(n + 1) && Pow64(n + 3) == 64 * Pow64(n + 2);
  }

  lemma Pow256Three(n: nat)
    ensures Pow256(n + 3) == 16777216 * Pow256(n)
  {
    assert Pow256(n + 1) == 256 * Pow256(n) && Pow256(n + 2) == 256 * Pow256(n + 1);
  }

  lemma ValuesSplit(s: seq<Six>, t: seq<Six>)
    ensures Values(s + t) == Values(s) + Values(t)
  {
  }

  lemma {:induction false} SextetsSplit(b: seq<Byte>)
    requires |b| >= 3
    ensures Sextets(b) == Sextets(b[..3]) + Sextets(b[3..])
  {
    assert b[..3][3..] == [];
  }

  lemma Combine(g: nat, r: nat, p: nat, octets: nat)
    ensures g * Filled(p, octets) + Filled(r, octets) == Filled(g * p + r, octets)
  {
    assert g * (16 * p) == 16 * (g * p) && g * (4 * p) == 4 * (g * p);
  }

  /** A group in front of the rest. */
  lemma GroupFirst(first: seq<Byte>, rest: seq<Byte>)
    requires |first| == 3 && MakesUp(first) && MakesUp(rest)
    ensures Number(Values(Sextets(first)) + Values(Sextets(rest))) == Filled(FromBytes(first + rest), |rest|)
  {
    DigitsArePositional(Values(Sextets(first)), Values(Sextets(rest)));
    SextetsFillUp(rest);
    OctetsArePositional(first, rest);
    Combine(FromBytes(first), FromBytes(rest), Pow256(|rest|), |rest|);
  }

  lemma {:induction false} AllMakeUp(b: seq<Byte>)
    ensures MakesUp(b)
  {
    if |b| <= 3 {
      ShortMakesUp(b);
    } else {
      ShortMakesUp(b[..3]);
      AllMakeUp(b[3..]);
      GroupsMakeUp(b, b[..3], b[3..]);
    }
  }

  lemma ValuesOfGroups(b: seq<Byte>, first: seq<Byte>, rest: seq<Byte>)
    requires |b| > 3 && first == b[..3] && rest == b[3..]
    ensures Values(Sextets(b)) == Values(Sextets(first)) + Values(Sextets(rest))
  {
    SextetsSplit(b);
    ValuesSplit(Sextets(first), Sextets(rest));
  }

  lemma SameFilling(n: nat, octets: nat, fewer: nat)
    requires octets == fewer + 3
    ensures Filled(n, octets) == Filled(n, fewer)
  {
  }

  lemma GroupsMakeUp(b: seq<Byte>, first: seq<Byte>, rest: seq<Byte>)
    requires |b| > 3 && first == b[..3] && rest == b[3..] && MakesUp(first) && MakesUp(rest)
    ensures MakesUp(b)
  {
    ValuesOfGroups(b, first, rest);
    GroupFirst(first, rest);
    assert b == first + rest;
    SameFilling(FromBytes(b), |b|, |rest|);
  }

  /** These digits spell the text. */
  ghost predicate SpelledBy(text: string, digits: seq<nat>) {
    && |digits| == |text|
    && forall i :: 0 <= i < |text| ==> digits[i] < 64 && text[i] == Alphabet[digits[i]]
  }

  /**
   As many letters as six-bit digits are needed for the octets; the letters are those
   of the alphabet at digits that make up the number of the octets, filled up with
   zero bits.
   */
  lemma EncodingIsRfc4648(b: seq<Byte>)
    ensures |Encode(b)| == (4 * |b| + 2) / 3
    ensures exists digits :: SpelledBy(Encode(b), digits) && Number(digits) == Filled(FromBytes(b), |b|)
  {
    SextetsFillUp(b);
    AllMakeUp(b);
    LettersAreDigits(Sextets(b));
  }
}
