/** Which spellings of one key are read as that key: any octets, any padding. */
module JwkSpellings {
  import opened Prelude
  import opened Octets
  import opened Base64url
  import opened Jwk
  import opened JwkCanonical

  function Pads(k: nat): (text: string) {
    if k == 0 then "" else Pads(k - 1) + "="
  }

  lemma {:induction false} PaddingIsDropped(text: string, k: nat)
    requires '=' !in text
    ensures Unpadded(text + Pads(k)) == text
  {
    if k == 0 {
      assert text + Pads(0) == text;
    } else {
      var padded := text + Pads(k);
      assert padded[|padded| - 1] == '=' && padded[..|padded| - 1] == text + Pads(k - 1);
      PaddingIsDropped(text, k - 1);
    }
  }

  /** The member spells these octets, with leading zeros if they have any, and with any padding. */
  ghost predicate Spells(codec: Codec, m: Members, name: string, octets: seq<Byte>, pads: nat) {
    octets != [] && name in m && m[name] == Text(codec.encode(octets) + Pads(pads))
  }

  lemma SpelledOctetsAreRead(codec: Codec, m: Members, name: string, octets: seq<Byte>, pads: nat)
    requires Faithful(codec) && Spells(codec, m, name, octets, pads)
    ensures LenientOctets(codec, m[name], name) == Ok(octets)
  {
    PaddingIsDropped(codec.encode(octets), pads);
    assert codec.encode(octets) != "";
  }

  /** However its two integers are spelled, an RSA key is read as their values. */
  lemma EveryRsaSpellingIsRead(codec: Codec, m: Members, n: seq<Byte>, e: seq<Byte>, nPads: nat, ePads: nat)
    requires Faithful(codec) && "kty" in m && m["kty"] == Text("RSA")
    requires Spells(codec, m, "n", n, nPads) && Spells(codec, m, "e", e, ePads)
    requires FromBytes(n) > 0 && FromBytes(e) > 0
    ensures ReadKey(codec, Object(m)) == Ok(Rsa(FromBytes(n), FromBytes(e)))
  {
    SpelledOctetsAreRead(codec, m, "n", n, nPads);
    SpelledOctetsAreRead(codec, m, "e", e, ePads);
  }

  /** The octets a coordinate takes on the curve of that name. */
  function FieldOctets(crv: string): (octets: Option<nat>) {
    if crv == "P-256" then Some(32) else if crv == "P-384" then Some(48) else if crv == "P-521" then Some(66) else None
  }

  lemma CurveHasItsWidth(crv: string)
    ensures CurveOf(Text(crv)).Some? <==> FieldOctets(crv).Some?
    ensures CurveOf(Text(crv)).Some? ==> Width(CurveOf(Text(crv)).value) == FieldOctets(crv).value
  {
  }

  lemma SpelledCoordinateIsRead(codec: Codec, m: Members, name: string, octets: seq<Byte>, pads: nat, width: nat)
    requires Faithful(codec) && Spells(codec, m, name, octets, pads)
    ensures CoordinateAt(codec, m, name, width) ==
            if FromBytes(octets) < Pow256(width) then Ok(FromBytes(octets)) else Err(TooWide(name))
  {
    SpelledOctetsAreRead(codec, m, name, octets, pads);
  }

  /** However its coordinates are spelled, an EC key is read if and only if both fit the field. */
  lemma EveryEcSpellingIsRead(codec: Codec, m: Members, crv: string, x: seq<Byte>, y: seq<Byte>, xPads: nat, yPads: nat)
    requires Faithful(codec) && "kty" in m && m["kty"] == Text("EC") && "crv" in m && m["crv"] == Text(crv)
    requires Spells(codec, m, "x", x, xPads) && Spells(codec, m, "y", y, yPads)
    ensures ReadKey(codec, Object(m)).Ok? <==>
            FieldOctets(crv).Some? && FromBytes(x) < Pow256(FieldOctets(crv).value) &&
            FromBytes(y) < Pow256(FieldOctets(crv).value)
    ensures ReadKey(codec, Object(m)).Ok? ==>
              && ReadKey(codec, Object(m)).value.Ec?
              && ReadKey(codec, Object(m)).value.x == FromBytes(x)
              && ReadKey(codec, Object(m)).value.y == FromBytes(y)
  {
    assert m["kty"].text[0] == 'E';
    CurveHasItsWidth(crv);
    if FieldOctets(crv).Some? {
      SpelledCoordinateIsRead(codec, m, "x", x, xPads, FieldOctets(crv).value);
      SpelledCoordinateIsRead(codec, m, "y", y, yPads, FieldOctets(crv).value);
    }
  }

  /** What validation accepts as an EC key holds coordinates of exactly the octets its curve asks for. */
  lemma StrictCoordinatesFillTheField(codec: Codec, m: Members, k: Key)
    requires Faithful(codec) && StrictKey(codec, Object(m)) == Ok(k) && k.Ec?
    ensures && "crv" in m && m["crv"].Text? && FieldOctets(m["crv"].text).Some?
            && "x" in m && m["x"] == Text(codec.encode(Fixed(k.x, FieldOctets(m["crv"].text).value)))
            && "y" in m && m["y"] == Text(codec.encode(Fixed(k.y, FieldOctets(m["crv"].text).value)))
            && k.x < Pow256(FieldOctets(m["crv"].text).value) && k.y < Pow256(FieldOctets(m["crv"].text).value)
  {
    CurveHasItsWidth(m["crv"].text);
    CoordinateRespelled(codec, m, "x", k.x, Width(k.curve));
    CoordinateRespelled(codec, m, "y", k.y, Width(k.curve));
  }
}
