/** Octet strings as integers: big-endian, minimal and fixed-width. */
module Octets {

  type Byte = x: int | 0 <= x < 256

  function Pow256(n: nat): (r: nat)
    ensures r >= 1
  {
    if n == 0 then 1 else 256 * Pow256(n - 1)
  }

  /** `int.from_bytes(b, "big")`. */
  function FromBytes(b: seq<Byte>): (n: nat) {
    if b == [] then 0 else 256 * FromBytes(b[..|b| - 1]) + b[|b| - 1]
  }

  /** The shortest big-endian spelling; zero is the empty string. */
  function Minimal(n: nat): (b: seq<Byte>) {
    if n == 0 then [] else Minimal(n / 256) + [n % 256]
  }

  /** `n.to_bytes(width, "big")`, for an `n` that fits. */
  function Fixed(n: nat, width: nat): (b: seq<Byte>)
    ensures |b| == width
  {
    if width == 0 then [] else Fixed(n / 256, width - 1) + [n % 256]
  }

  /** `b.lstrip(b"\x00")`. */
  function Stripped(b: seq<Byte>): (r: seq<Byte>) {
    if b != [] && b[0] == 0 then Stripped(b[1..]) else b
  }

  /** `b.rjust(width, b"\x00")`. */
  function Padded(b: seq<Byte>, width: nat): (r: seq<Byte>)
    ensures |r| == if |b| < width then width else |b|
    decreases width - |b|
  {
    if |b| >= width then b else Padded([0] + b, width)
  }

  lemma {:induction false} MinimalReadsBack(n: nat)
    ensures FromBytes(Minimal(n)) == n
    ensures n > 0 ==> Minimal(n) != [] && Minimal(n)[0] != 0
  {
    if n > 0 {
      MinimalReadsBack(n / 256);
      assert Minimal(n)[..|Minimal(n)| - 1] == Minimal(n / 256);
    }
  }

  lemma {:induction false} LeadingMakesPositive(b: seq<Byte>)
    requires b != [] && b[0] != 0
    ensures FromBytes(b) > 0
  {
    if |b| > 1 {
      LeadingMakesPositive(b[..|b| - 1]);
    }
  }

  /** Without a leading zero octet there is only one spelling. */
  lemma {:induction false} MinimalIsUnique(b: seq<Byte>)
    requires b != [] ==> b[0] != 0
    ensures Minimal(FromBytes(b)) == b
  {
    if b != [] {
      var high := b[..|b| - 1];
      MinimalIsUnique(high);
      LeadingMakesPositive(b);
      assert FromBytes(b) / 256 == FromBytes(high);
      assert b == high + [b[|b| - 1]];
    }
  }

  lemma {:induction false} FixedReadsBack(n: nat, width: nat)
    requires n < Pow256(width)
    ensures FromBytes(Fixed(n, width)) == n
  {
    if width > 0 {
      FixedReadsBack(n / 256, width - 1);
      assert Fixed(n, width)[..width - 1] == Fixed(n / 256, width - 1);
    }
  }

  /** At a fixed width there is only one spelling, and it fits. */
  lemma {:induction false} FixedIsUnique(b: seq<Byte>)
    ensures FromBytes(b) < Pow256(|b|)
    ensures Fixed(FromBytes(b), |b|) == b
  {
    if b != [] {
      var high := b[..|b| - 1];
      FixedIsUnique(high);
      assert FromBytes(b) / 256 == FromBytes(high);
      assert b == high + [b[|b| - 1]];
    }
  }

  lemma {:induction false} LeadingZeroIsFree(b: seq<Byte>)
    ensures FromBytes([0] + b) == FromBytes(b)
  {
    if b != [] {
      LeadingZeroIsFree(b[..|b| - 1]);
      assert ([0] + b)[..|b|] == [0] + b[..|b| - 1];
    } else {
      assert [0 as Byte] + b == [0];
    }
  }

  lemma {:induction false} StrippedKeepsValue(b: seq<Byte>)
    ensures FromBytes(Stripped(b)) == FromBytes(b)
    ensures Stripped(b) != [] ==> Stripped(b)[0] != 0
    ensures Stripped(b) == Minimal(FromBytes(b))
  {
    if b != [] && b[0] == 0 {
      StrippedKeepsValue(b[1..]);
      LeadingZeroIsFree(b[1..]);
      assert [0] + b[1..] == b;
    } else {
      MinimalIsUnique(b);
    }
  }

  lemma {:induction false} PaddedKeepsValue(b: seq<Byte>, width: nat)
    requires |b| <= width
    ensures FromBytes(Padded(b, width)) == FromBytes(b)
    ensures Padded(b, width) == Fixed(FromBytes(b), width)
    decreases width - |b|
  {
    if |b| < width {
      PaddedKeepsValue([0] + b, width);
      LeadingZeroIsFree(b);
    } else {
      FixedIsUnique(b);
    }
  }

  lemma {:induction false} MinimalFits(n: nat, width: nat)
    ensures |Minimal(n)| <= width <==> n < Pow256(width)
  {
    if n > 0 && width > 0 {
      MinimalFits(n / 256, width - 1);
    }
  }

  lemma Shifted(a: nat, p: nat, c: nat)
    ensures 256 * (a * p + c) == a * (256 * p) + 256 * c
  {
  }

  /** The first octet is the highest. */
  lemma {:induction false} OctetsArePositional(high: seq<Byte>, low: seq<Byte>)
    ensures FromBytes(high + low) == FromBytes(high) * Pow256(|low|) + FromBytes(low)
    ensures |low| == 1 ==> FromBytes(low) == low[0]
  {
    if low == [] {
      assert high + low == high;
    } else {
      var n := |low| - 1;
      OctetsArePositional(high, low[..n]);
      assert (high + low)[..|high| + n] == high + low[..n];
      Shifted(FromBytes(high), Pow256(n), FromBytes(low[..n]));
    }
  }
}
