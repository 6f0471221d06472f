/** Account keys as JSON Web Keys: decoders, canonical spelling and thumbprint. */
module Jwk {
  import opened Prelude
  import opened Octets
  import opened Base64url

  /** As much of a JSON value as the key code looks at. */
  datatype Value = Text(text: string) | Object(members: map<string, Value>) | Other(id: nat)

  type Members = map<string, Value>

  datatype Curve = P256 | P384 | P521

  datatype Key = Rsa(n: nat, e: nat) | Ec(curve: Curve, x: nat, y: nat)

  datatype Error =
    | NotAnObject
    | UnsupportedKty
    | UnsupportedCurve
    | Missing(member: string)
    | NotText(member: string)
    | NotBase64url(member: string)
    | NotCanonical(member: string)
    | LeadingZero(member: string)
    | WrongWidth(member: string)
    | IsZero(member: string)
    | TooWide(member: string)

  function Width(curve: Curve): (w: nat)
    ensures w > 0
  {
    match curve
    case P256 => 32
    case P384 => 48
    case P521 => 66
  }

  function CurveOf(v: Value): (curve: Option<Curve>) {
    if v == Text("P-256") then Some(P256)
    else if v == Text("P-384") then Some(P384)
    else if v == Text("P-521") then Some(P521)
    else None
  }

  // --- The strict decoders ------------------------------------------------------------

  /** Exactly one spelling per octet string: a decoded value must re-encode to itself. */
  function StrictOctets(codec: Codec, v: Value, member: string): (octets: Result<seq<Byte>, Error>) {
    if !v.Text? || v.text == "" then Err(NotText(member))
    else if !codec.readable(v.text) then Err(NotBase64url(member))
    else if codec.encode(codec.decode(v.text)) != v.text then Err(NotCanonical(member))
    else Ok(codec.decode(v.text))
  }

  function StrictUint(codec: Codec, v: Value, member: string): (n: Result<nat, Error>) {
    var octets := StrictOctets(codec, v, member);
    if octets.Err? then Err(octets.error)
    else if octets.value != [] && octets.value[0] == 0 then Err(LeadingZero(member))
    else Ok(FromBytes(octets.value))
  }

  function StrictCoordinate(codec: Codec, v: Value, member: string, width: nat): (n: Result<nat, Error>) {
    var octets := StrictOctets(codec, v, member);
    if octets.Err? then Err(octets.error)
    else if |octets.value| != width then Err(WrongWidth(member))
    else Ok(FromBytes(octets.value))
  }

  /** The one spelling of a positive integer, and of a coordinate of a given width. */
  function UintText(codec: Codec, n: nat): (text: string) { codec.encode(Minimal(n)) }

  function CoordinateText(codec: Codec, n: nat, width: nat): (text: string) { codec.encode(Fixed(n, width)) }

  lemma StrictOctetsAccept(codec: Codec, v: Value, member: string, b: seq<Byte>)
    requires Faithful(codec)
    ensures StrictOctets(codec, v, member) == Ok(b) <==> b != [] && v == Text(codec.encode(b))
  {
    if v.Text? && v.text != "" && codec.readable(v.text) {
      assert codec.decode(v.text) == [] ==> codec.encode(codec.decode(v.text)) == "";
    }
  }

  /** One spelling per integer: the minimal one, and zero has none. */
  lemma UintHasOneSpelling(codec: Codec, v: Value, member: string, n: nat)
    requires Faithful(codec)
    ensures StrictUint(codec, v, member) == Ok(n) <==> n > 0 && v == Text(UintText(codec, n))
  {
    MinimalReadsBack(n);
    StrictOctetsAccept(codec, v, member, Minimal(n));
    var octets := StrictOctets(codec, v, member);
    if octets.Ok? {
      StrictOctetsAccept(codec, v, member, octets.value);
      if octets.value[0] != 0 {
        MinimalIsUnique(octets.value);
        LeadingMakesPositive(octets.value);
      }
    }
  }

  /** One spelling per coordinate: the fixed-width one. */
  lemma CoordinateHasOneSpelling(codec: Codec, v: Value, member: string, width: nat, n: nat)
    requires Faithful(codec)
    requires width > 0
    ensures StrictCoordinate(codec, v, member, width) == Ok(n) <==>
            n < Pow256(width) && v == Text(CoordinateText(codec, n, width))
  {
    if n < Pow256(width) {
      FixedReadsBack(n, width);
    }
    StrictOctetsAccept(codec, v, member, Fixed(n, width));
    var octets := StrictOctets(codec, v, member);
    if octets.Ok? {
      StrictOctetsAccept(codec, v, member, octets.value);
      FixedIsUnique(octets.value);
    }
  }

  // --- The lenient decoder --------------------------------------------------------------

  /** `value.rstrip("=")`. */
  function Unpadded(text: string): (bare: string) {
    if text != "" && text[|text| - 1] == '=' then Unpadded(text[..|text| - 1]) else text
  }

  function LenientOctets(codec: Codec, v: Value, member: string): (octets: Result<seq<Byte>, Error>) {
    if !v.Text? || v.text == "" then Err(NotText(member))
    else if Unpadded(v.text) == "" || !codec.readable(Unpadded(v.text)) then Err(NotBase64url(member))
    else Ok(codec.decode(Unpadded(v.text)))
  }

  function LenientUint(codec: Codec, v: Value, member: string): (n: Result<nat, Error>) {
    var octets := LenientOctets(codec, v, member);
    if octets.Err? then Err(octets.error)
    else if FromBytes(octets.value) == 0 then Err(IsZero(member))
    else Ok(FromBytes(octets.value))
  }

  /** The value has a spelling of that width. */
  predicate Fits(b: seq<Byte>, width: nat) { FromBytes(b) < Pow256(width) }

  function LenientCoordinate(codec: Codec, v: Value, member: string, width: nat): (n: Result<nat, Error>) {
    var octets := LenientOctets(codec, v, member);
    if octets.Err? then Err(octets.error)
    else if !Fits(octets.value, width) then Err(TooWide(member))
    else Ok(FromBytes(octets.value))
  }

  lemma LenientReadsUint(codec: Codec, n: nat, member: string)
    requires Faithful(codec)
    requires n > 0
    ensures LenientUint(codec, Text(UintText(codec, n)), member) == Ok(n)
  {
    MinimalReadsBack(n);
  }

  lemma LenientReadsCoordinate(codec: Codec, n: nat, member: string, width: nat)
    requires Faithful(codec)
    requires width > 0 && n < Pow256(width)
    ensures LenientCoordinate(codec, Text(CoordinateText(codec, n, width)), member, width) == Ok(n)
  {
    FixedReadsBack(n, width);
  }

  // --- Keys -------------------------------------------------------------------------------

  function UintAt(codec: Codec, m: Members, name: string): (n: Result<nat, Error>) {
    if name !in m then Err(Missing(name)) else LenientUint(codec, m[name], name)
  }

  function CoordinateAt(codec: Codec, m: Members, name: string, width: nat): (n: Result<nat, Error>) {
    if name !in m then Err(Missing(name)) else LenientCoordinate(codec, m[name], name, width)
  }

  function StrictUintAt(codec: Codec, m: Members, name: string): (n: Result<nat, Error>) {
    if name !in m then Err(Missing(name)) else StrictUint(codec, m[name], name)
  }

  function StrictCoordinateAt(codec: Codec, m: Members, name: string, width: nat): (n: Result<nat, Error>) {
    if name !in m then Err(Missing(name)) else StrictCoordinate(codec, m[name], name, width)
  }

  predicate HasKty(m: Members, kty: string) { "kty" in m && m["kty"] == Text(kty) }

  function CurveIn(m: Members): (curve: Option<Curve>) {
    if "crv" in m then CurveOf(m["crv"]) else None
  }

  function RsaOf(n: Result<nat, Error>, e: Result<nat, Error>): (key: Result<Key, Error>) {
    if n.Err? then Err(n.error) else if e.Err? then Err(e.error) else Ok(Rsa(n.value, e.value))
  }

  function EcOf(curve: Curve, x: Result<nat, Error>, y: Result<nat, Error>): (key: Result<Key, Error>) {
    if x.Err? then Err(x.error) else if y.Err? then Err(y.error) else Ok(Ec(curve, x.value, y.value))
  }

  /** The key a JWK stands for, however its integers are spelled. */
  function ReadKey(codec: Codec, v: Value): (key: Result<Key, Error>) {
    if !v.Object? then Err(NotAnObject)
    else if HasKty(v.members, "RSA") then RsaOf(UintAt(codec, v.members, "n"), UintAt(codec, v.members, "e"))
    else if !HasKty(v.members, "EC") then Err(UnsupportedKty)
    else
      var curve := CurveIn(v.members);
      if curve.None? then Err(UnsupportedCurve)
      else
        var w := Width(curve.value);
        EcOf(curve.value, CoordinateAt(codec, v.members, "x", w), CoordinateAt(codec, v.members, "y", w))
  }

  /** `validate_canonical_jwk`: the key, if every integer has its one spelling. */
  function StrictKey(codec: Codec, v: Value): (key: Result<Key, Error>) {
    if !v.Object? then Err(NotAnObject)
    else if HasKty(v.members, "RSA") then
      RsaOf(StrictUintAt(codec, v.members, "n"), StrictUintAt(codec, v.members, "e"))
    else if !HasKty(v.members, "EC") then Err(UnsupportedKty)
    else
      var curve := CurveIn(v.members);
      if curve.None? then Err(UnsupportedCurve)
      else
        var w := Width(curve.value);
        EcOf(curve.value, StrictCoordinateAt(codec, v.members, "x", w), StrictCoordinateAt(codec, v.members, "y", w))
  }

  /** The integer members of a key in their one spelling. */
  function Spelling(codec: Codec, k: Key): (members: Members) {
    match k
    case Rsa(n, e) => map["n" := Text(UintText(codec, n)), "e" := Text(UintText(codec, e))]
    case Ec(curve, x, y) =>
      map["x" := Text(CoordinateText(codec, x, Width(curve))), "y" := Text(CoordinateText(codec, y, Width(curve)))]
  }

  function Respelled(codec: Codec, m: Members, k: Key): (respelled: Members) {
    m + Spelling(codec, k)
  }
}
