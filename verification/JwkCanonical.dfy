/** `canonicalize_jwk` and the thumbprint identity built on it. */
module JwkCanonical {
  import opened Prelude
  import opened Octets
  import opened Base64url
  import opened Jwk

  lemma UintRespelled(codec: Codec, m: Members, name: string, n: nat)
    requires Faithful(codec)
    ensures name in m && n > 0 && m[name] == Text(UintText(codec, n)) ==>
              UintAt(codec, m, name) == Ok(n) && StrictUintAt(codec, m, name) == Ok(n)
    ensures StrictUintAt(codec, m, name) == Ok(n) ==> name in m && n > 0 && m[name] == Text(UintText(codec, n))
  {
    if name in m {
      UintHasOneSpelling(codec, m[name], name, n);
      if n > 0 {
        LenientReadsUint(codec, n, name);
      }
    }
  }

  lemma CoordinateRespelled(codec: Codec, m: Members, name: string, x: nat, width: nat)
    requires Faithful(codec)
    requires width > 0
    ensures name in m && x < Pow256(width) && m[name] == Text(CoordinateText(codec, x, width)) ==>
              CoordinateAt(codec, m, name, width) == Ok(x) && StrictCoordinateAt(codec, m, name, width) == Ok(x)
    ensures StrictCoordinateAt(codec, m, name, width) == Ok(x) ==>
              name in m && x < Pow256(width) && m[name] == Text(CoordinateText(codec, x, width))
  {
    if name in m {
      CoordinateHasOneSpelling(codec, m[name], name, width, x);
      if x < Pow256(width) {
        LenientReadsCoordinate(codec, x, name, width);
      }
    }
  }

  lemma RsaSpelled(codec: Codec, r: Members, n: nat, e: nat)
    requires Faithful(codec)
    requires HasKty(r, "RSA") && n > 0 && e > 0 && "n" in r && "e" in r
    requires r["n"] == Text(UintText(codec, n)) && r["e"] == Text(UintText(codec, e))
    ensures ReadKey(codec, Object(r)) == Ok(Rsa(n, e)) && StrictKey(codec, Object(r)) == Ok(Rsa(n, e))
  {
    UintRespelled(codec, r, "n", n);
    UintRespelled(codec, r, "e", e);
  }

  lemma EcSpelled(codec: Codec, r: Members, curve: Curve, x: nat, y: nat, w: nat)
    requires Faithful(codec)
    requires HasKty(r, "EC") && CurveIn(r) == Some(curve) && "x" in r && "y" in r && w == Width(curve)
    requires x < Pow256(w) && y < Pow256(w)
    requires r["x"] == Text(CoordinateText(codec, x, w)) && r["y"] == Text(CoordinateText(codec, y, w))
    ensures ReadKey(codec, Object(r)) == Ok(Ec(curve, x, y)) && StrictKey(codec, Object(r)) == Ok(Ec(curve, x, y))
  {
    CoordinateRespelled(codec, r, "x", x, w);
    CoordinateRespelled(codec, r, "y", y, w);
  }

  /** Respelling keeps the key, and what it yields is strictly readable. */
  lemma RespelledIsStrict(codec: Codec, m: Members, k: Key)
    requires Faithful(codec)
    requires ReadKey(codec, Object(m)) == Ok(k)
    ensures ReadKey(codec, Object(Respelled(codec, m, k))) == Ok(k)
    ensures StrictKey(codec, Object(Respelled(codec, m, k))) == Ok(k)
  {
    match k
    case Rsa(n, e) => RsaSpelled(codec, Respelled(codec, m, k), n, e);
    case Ec(curve, x, y) => EcSpelled(codec, Respelled(codec, m, k), curve, x, y, Width(curve));
  }

  /**
   The canonical JWK reads as the key that was read before, and spelling it again
   changes nothing; members other than the integers are carried along.
   */
  lemma RespellingIsIdempotent(codec: Codec, m: Members, k: Key)
    requires Faithful(codec)
    requires ReadKey(codec, Object(m)) == Ok(k)
    ensures var again := ReadKey(codec, Object(Respelled(codec, m, k)));
            again == Ok(k) && Respelled(codec, Respelled(codec, m, k), again.value) == Respelled(codec, m, k)
    ensures forall name :: name in m && name !in Spelling(codec, k) ==>
              name in Respelled(codec, m, k) && Respelled(codec, m, k)[name] == m[name]
    ensures forall name :: name in Respelled(codec, m, k) ==> name in m || name in Spelling(codec, k)
  {
    RespelledIsStrict(codec, m, k);
    assert m + Spelling(codec, k) + Spelling(codec, k) == m + Spelling(codec, k);
  }

  lemma RsaIsRespelled(codec: Codec, m: Members, n: nat, e: nat)
    requires Faithful(codec)
    requires HasKty(m, "RSA") && StrictUintAt(codec, m, "n") == Ok(n) && StrictUintAt(codec, m, "e") == Ok(e)
    ensures ReadKey(codec, Object(m)) == Ok(Rsa(n, e)) && m == Respelled(codec, m, Rsa(n, e))
  {
    UintRespelled(codec, m, "n", n);
    UintRespelled(codec, m, "e", e);
  }

  lemma EcIsRespelled(codec: Codec, m: Members, curve: Curve, x: nat, y: nat, w: nat)
    requires Faithful(codec)
    requires HasKty(m, "EC") && CurveIn(m) == Some(curve) && w == Width(curve)
    requires StrictCoordinateAt(codec, m, "x", w) == Ok(x) && StrictCoordinateAt(codec, m, "y", w) == Ok(y)
    ensures ReadKey(codec, Object(m)) == Ok(Ec(curve, x, y)) && m == Respelled(codec, m, Ec(curve, x, y))
  {
    CoordinateRespelled(codec, m, "x", x, w);
    CoordinateRespelled(codec, m, "y", y, w);
    EcSpelled(codec, m, curve, x, y, w);
  }

  lemma StrictIsRespelled(codec: Codec, m: Members, k: Key)
    requires Faithful(codec)
    requires StrictKey(codec, Object(m)) == Ok(k)
    ensures ReadKey(codec, Object(m)) == Ok(k) && m == Respelled(codec, m, k)
  {
    match k
    case Rsa(n, e) => RsaIsRespelled(codec, m, n, e);
    case Ec(curve, x, y) => EcIsRespelled(codec, m, curve, x, y, Width(curve));
  }

  /** The strict reader accepts a JWK exactly when it is its own respelling. */
  lemma StrictIffCanonical(codec: Codec, m: Members, k: Key)
    requires Faithful(codec)
    ensures StrictKey(codec, Object(m)) == Ok(k) <==> ReadKey(codec, Object(m)) == Ok(k) && m == Respelled(codec, m, k)
  {
    if ReadKey(codec, Object(m)) == Ok(k) {
      RespelledIsStrict(codec, m, k);
    }
    if StrictKey(codec, Object(m)) == Ok(k) {
      StrictIsRespelled(codec, m, k);
    }
  }

  // --- canonicalize_jwk ---------------------------------------------------------------

  /** One RSA integer, minimally re-encoded. */
  method RespellUint(codec: Codec, m: Members, name: string) returns (r: Result<string, Error>)
    ensures r == if UintAt(codec, m, name).Ok? then Ok(UintText(codec, UintAt(codec, m, name).value))
                 else Err(UintAt(codec, m, name).error)
  {
    if name !in m {
      return Err(Missing(name));
    }
    var octets := LenientOctets(codec, m[name], name);
    if octets.Err? {
      return Err(octets.error);
    }
    var minimal := Stripped(octets.value);
    StrippedKeepsValue(octets.value);
    if minimal == [] {
      return Err(IsZero(name));
    }
    r := Ok(codec.encode(minimal));
  }

  /** One EC coordinate, re-encoded at the width of its curve. */
  method RespellCoordinate(codec: Codec, m: Members, name: string, width: nat) returns (r: Result<string, Error>)
    ensures r == if CoordinateAt(codec, m, name, width).Ok?
                 then Ok(CoordinateText(codec, CoordinateAt(codec, m, name, width).value, width))
                 else Err(CoordinateAt(codec, m, name, width).error)
  {
    if name !in m {
      return Err(Missing(name));
    }
    var octets := LenientOctets(codec, m[name], name);
    if octets.Err? {
      return Err(octets.error);
    }
    var trimmed := Stripped(octets.value);
    StrippedKeepsValue(octets.value);
    MinimalFits(FromBytes(octets.value), width);
    if |trimmed| > width {
      return Err(TooWide(name));
    }
    PaddedKeepsValue(trimmed, width);
    r := Ok(codec.encode(Padded(trimmed, width)));
  }

  /**
   Succeeds exactly on the JWKs a lenient reader understands, and returns the
   same members with the key's integers in their one spelling.  The validation of
   the result at the end never fails.
   */
  method CanonicalizeJwk(codec: Codec, jwk: Value) returns (r: Result<Members, Error>)
    requires Faithful(codec)
    ensures r.Ok? <==> ReadKey(codec, jwk).Ok?
    ensures r.Ok? ==> jwk.Object? && r.value == Respelled(codec, jwk.members, ReadKey(codec, jwk).value)
    ensures r.Err? ==> r.error == ReadKey(codec, jwk).error
    ensures !jwk.Object? ==> r == Err(NotAnObject)
    ensures jwk.Object? && !("kty" in jwk.members && jwk.members["kty"] in {Text("RSA"), Text("EC")}) ==>
              r == Err(UnsupportedKty)
    ensures jwk.Object? && "kty" in jwk.members && jwk.members["kty"] == Text("EC") &&
            !("crv" in jwk.members && jwk.members["crv"] in {Text("P-256"), Text("P-384"), Text("P-521")}) ==>
              r == Err(UnsupportedCurve)
  {
    if !jwk.Object? {
      return Err(NotAnObject);
    }
    var m := jwk.members;
    var result := m;
    if HasKty(m, "RSA") {
      var names := ["n", "e"];
      for i := 0 to |names|
        invariant i >= 1 ==> UintAt(codec, m, "n").Ok?
        invariant i >= 2 ==> UintAt(codec, m, "e").Ok?
        invariant i == 0 ==> result == m
        invariant i == 1 ==> result == m["n" := Text(UintText(codec, UintAt(codec, m, "n").value))]
        invariant i == 2 ==>
                    result == Respelled(codec, m, Rsa(UintAt(codec, m, "n").value, UintAt(codec, m, "e").value))
      {
        var spelled := RespellUint(codec, m, names[i]);
        if spelled.Err? {
          return Err(spelled.error);
        }
        result := result[names[i] := Text(spelled.value)];
      }
    } else if HasKty(m, "EC") {
      var curve := CurveIn(m);
      if curve.None? {
        return Err(UnsupportedCurve);
      }
      var width := Width(curve.value);
      var names := ["x", "y"];
      for i := 0 to |names|
        invariant i >= 1 ==> CoordinateAt(codec, m, "x", width).Ok?
        invariant i >= 2 ==> CoordinateAt(codec, m, "y", width).Ok?
        invariant i == 0 ==> result == m
        invariant i == 1 ==>
                    result == m["x" := Text(CoordinateText(codec, CoordinateAt(codec, m, "x", width).value, width))]
        invariant i == 2 ==>
                    result == Respelled(codec, m, Ec(curve.value, CoordinateAt(codec, m, "x", width).value,
                                                     CoordinateAt(codec, m, "y", width).value))
      {
        var spelled := RespellCoordinate(codec, m, names[i], width);
        if spelled.Err? {
          return Err(spelled.error);
        }
        result := result[names[i] := Text(spelled.value)];
      }
    } else {
      return Err(UnsupportedKty);
    }
    RespelledIsStrict(codec, m, ReadKey(codec, jwk).value);
    var validated := StrictKey(codec, Object(result));
    assert validated == ReadKey(codec, jwk);
    r := Ok(result);
  }

  // --- Thumbprint: RFC 7638 -----------------------------------------------------------

  /** The text of a member that validation has shown to be a string. */
  function TextOf(m: Members, name: string): (text: string) {
    if name in m && m[name].Text? then m[name].text else ""
  }

  /** A string value from after its opening quotation mark, and what follows. */
  function Quoted(text: string, rest: string): (quoted: string) {
    text + ['"'] + rest
  }

  function RsaJson(e: string, n: string): (json: string) {
    "{\"e\":\"" + Quoted(e, ",\"kty\":\"RSA\",\"n\":\"" + Quoted(n, "}"))
  }

  function EcJson(crv: string, x: string, y: string): (json: string) {
    "{\"crv\":\"" + Quoted(crv, ",\"kty\":\"EC\",\"x\":\"" + Quoted(x, ",\"y\":\"" + Quoted(y, "}")))
  }

  /** The required members in lexicographic order, without whitespace. */
  function CanonicalJson(m: Members): (json: string) {
    if HasKty(m, "RSA") then RsaJson(TextOf(m, "e"), TextOf(m, "n"))
    else EcJson(TextOf(m, "crv"), TextOf(m, "x"), TextOf(m, "y"))
  }

  /** `hash` stands for SHA-256 of the ASCII text. */
  function Thumbprint(codec: Codec, hash: string -> seq<Byte>, v: Value): (thumbprint: Result<string, Error>) {
    var key := StrictKey(codec, v);
    if key.Err? then Err(key.error) else Ok(codec.encode(hash(CanonicalJson(v.members))))
  }

  /** Text up to the next quotation mark can be read off. */
  lemma {:induction false} QuoteDelimits(a: string, x: string, b: string, y: string)
    requires '"' !in a && '"' !in b && Quoted(a, x) == Quoted(b, y)
    ensures a == b && x == y
  {
    assert Quoted(a, x)[0] == if a == "" then '"' else a[0];
    assert Quoted(b, y)[0] == if b == "" then '"' else b[0];
    if a == "" {
      assert x == Quoted(a, x)[1..] && y == Quoted(b, y)[1..];
    } else {
      assert Quoted(a[1..], x) == Quoted(a, x)[1..] && Quoted(b[1..], y) == Quoted(b, y)[1..];
      QuoteDelimits(a[1..], x, b[1..], y);
    }
  }

  lemma CancelPrefix(p: string, a: string, b: string)
    requires p + a == p + b
    ensures a == b
  {
    assert a == (p + a)[|p|..] && b == (p + b)[|p|..];
  }

  lemma RsaJsonIsInjective(e: string, n: string, e': string, n': string)
    requires '"' !in e && '"' !in n && '"' !in e' && '"' !in n'
    requires RsaJson(e, n) == RsaJson(e', n')
    ensures e == e' && n == n'
  {
    var mid := ",\"kty\":\"RSA\",\"n\":\"";
    CancelPrefix("{\"e\":\"", Quoted(e, mid + Quoted(n, "}")), Quoted(e', mid + Quoted(n', "}")));
    QuoteDelimits(e, mid + Quoted(n, "}"), e', mid + Quoted(n', "}"));
    CancelPrefix(mid, Quoted(n, "}"), Quoted(n', "}"));
    QuoteDelimits(n, "}", n', "}");
  }

  lemma EcJsonIsInjective(c: string, x: string, y: string, c': string, x': string, y': string)
    requires '"' !in c && '"' !in x && '"' !in y && '"' !in c' && '"' !in x' && '"' !in y'
    requires EcJson(c, x, y) == EcJson(c', x', y')
    ensures c == c' && x == x' && y == y'
  {
    var one, two := ",\"kty\":\"EC\",\"x\":\"", ",\"y\":\"";
    var tail, tail' := two + Quoted(y, "}"), two + Quoted(y', "}");
    CancelPrefix("{\"crv\":\"", Quoted(c, one + Quoted(x, tail)), Quoted(c', one + Quoted(x', tail')));
    QuoteDelimits(c, one + Quoted(x, tail), c', one + Quoted(x', tail'));
    CancelPrefix(one, Quoted(x, tail), Quoted(x', tail'));
    QuoteDelimits(x, tail, x', tail');
    CancelPrefix(two, Quoted(y, "}"), Quoted(y', "}"));
    QuoteDelimits(y, "}", y', "}");
  }

  lemma KtyIsVisible(e: string, n: string, c: string, x: string, y: string)
    ensures RsaJson(e, n) != EcJson(c, x, y)
  {
    assert RsaJson(e, n)[2] == 'e';
    assert EcJson(c, x, y)[2] == 'c';
  }

  /** What the serializer writes for a canonical key. */
  function CurveName(curve: Curve): (name: string) {
    match curve
    case P256 => "P-256"
    case P384 => "P-384"
    case P521 => "P-521"
  }

  function KeyJson(codec: Codec, k: Key): (json: string) {
    match k
    case Rsa(n, e) => RsaJson(UintText(codec, e), UintText(codec, n))
    case Ec(curve, x, y) =>
      EcJson(CurveName(curve), CoordinateText(codec, x, Width(curve)), CoordinateText(codec, y, Width(curve)))
  }

  lemma RsaTexts(codec: Codec, m: Members, n: nat, e: nat)
    requires Faithful(codec)
    requires HasKty(m, "RSA") && StrictUintAt(codec, m, "n") == Ok(n) && StrictUintAt(codec, m, "e") == Ok(e)
    ensures CanonicalJson(m) == RsaJson(UintText(codec, e), UintText(codec, n))
  {
    UintRespelled(codec, m, "n", n);
    UintRespelled(codec, m, "e", e);
  }

  lemma EcTexts(codec: Codec, m: Members, curve: Curve, x: nat, y: nat, w: nat)
    requires Faithful(codec)
    requires HasKty(m, "EC") && CurveIn(m) == Some(curve) && w == Width(curve)
    requires StrictCoordinateAt(codec, m, "x", w) == Ok(x) && StrictCoordinateAt(codec, m, "y", w) == Ok(y)
    ensures CanonicalJson(m) == EcJson(CurveName(curve), CoordinateText(codec, x, w), CoordinateText(codec, y, w))
  {
    CoordinateRespelled(codec, m, "x", x, w);
    CoordinateRespelled(codec, m, "y", y, w);
    assert m["kty"].text[0] == 'E';
  }

  /** The serialized text of a valid JWK is a function of its key alone. */
  lemma JsonIsOfTheKey(codec: Codec, m: Members, k: Key)
    requires Faithful(codec)
    requires StrictKey(codec, Object(m)) == Ok(k)
    ensures CanonicalJson(m) == KeyJson(codec, k)
  {
    match k
    case Rsa(n, e) => RsaTexts(codec, m, n, e);
    case Ec(curve, x, y) => EcTexts(codec, m, curve, x, y, Width(curve));
  }

  lemma UintTextIsInjective(codec: Codec, n: nat, n': nat)
    requires Faithful(codec)
    requires UintText(codec, n) == UintText(codec, n')
    ensures n == n'
  {
    MinimalReadsBack(n);
    MinimalReadsBack(n');
  }

  lemma CoordinateTextIsInjective(codec: Codec, x: nat, x': nat, w: nat)
    requires Faithful(codec)
    requires x < Pow256(w) && x' < Pow256(w) && CoordinateText(codec, x, w) == CoordinateText(codec, x', w)
    ensures x == x'
  {
    FixedReadsBack(x, w);
    FixedReadsBack(x', w);
  }

  /** The coordinates are in range for their curve. */
  predicate InRange(k: Key) {
    k.Ec? ==> k.x < Pow256(Width(k.curve)) && k.y < Pow256(Width(k.curve))
  }

  lemma StrictKeyInRange(codec: Codec, v: Value)
    requires Faithful(codec)
    requires StrictKey(codec, v).Ok?
    ensures InRange(StrictKey(codec, v).value)
  {
    var k := StrictKey(codec, v).value;
    if k.Ec? {
      CoordinateRespelled(codec, v.members, "x", k.x, Width(k.curve));
      CoordinateRespelled(codec, v.members, "y", k.y, Width(k.curve));
    }
  }

  lemma KeyJsonIsInjective(codec: Codec, k: Key, k': Key)
    requires Faithful(codec)
    requires InRange(k) && InRange(k') && KeyJson(codec, k) == KeyJson(codec, k')
    ensures k == k'
  {
    match (k, k')
    case (Rsa(n, e), Rsa(n', e')) =>
      RsaJsonIsInjective(UintText(codec, e), UintText(codec, n), UintText(codec, e'), UintText(codec, n'));
      UintTextIsInjective(codec, n, n');
      UintTextIsInjective(codec, e, e');
    case (Ec(c, x, y), Ec(c', x', y')) =>
      var w, w' := Width(c), Width(c');
      EcJsonIsInjective(CurveName(c), CoordinateText(codec, x, w), CoordinateText(codec, y, w),
                        CurveName(c'), CoordinateText(codec, x', w'), CoordinateText(codec, y', w'));
      CoordinateTextIsInjective(codec, x, x', w);
      CoordinateTextIsInjective(codec, y, y', w);
    case (Rsa(n, e), Ec(c, x, y)) =>
      KtyIsVisible(UintText(codec, e), UintText(codec, n), CurveName(c),
                   CoordinateText(codec, x, Width(c)), CoordinateText(codec, y, Width(c)));
    case (Ec(c, x, y), Rsa(n, e)) =>
      KtyIsVisible(UintText(codec, e), UintText(codec, n), CurveName(c),
                   CoordinateText(codec, x, Width(c)), CoordinateText(codec, y, Width(c)));
  }

  /** The hash does not collide on the two texts at hand. */
  predicate NoCollision(hash: string -> seq<Byte>, a: string, b: string) {
    hash(a) == hash(b) ==> a == b
  }

  lemma ThumbprintIsOfTheKey(codec: Codec, hash: string -> seq<Byte>, v: Value)
    requires Faithful(codec)
    requires StrictKey(codec, v).Ok?
    ensures Thumbprint(codec, hash, v) == Ok(codec.encode(hash(KeyJson(codec, StrictKey(codec, v).value))))
  {
    JsonIsOfTheKey(codec, v.members, StrictKey(codec, v).value);
  }

  /** The hash does not collide on the texts of two keys. */
  ghost predicate Apart(codec: Codec, hash: string -> seq<Byte>, k: Key, k': Key) {
    NoCollision(hash, KeyJson(codec, k), KeyJson(codec, k'))
  }

  lemma SameDigestSameKey(codec: Codec, hash: string -> seq<Byte>, k: Key, k': Key)
    requires Faithful(codec) && InRange(k) && InRange(k') && Apart(codec, hash, k, k')
    requires codec.encode(hash(KeyJson(codec, k))) == codec.encode(hash(KeyJson(codec, k')))
    ensures k == k'
  {
    KeyJsonIsInjective(codec, k, k');
  }

  /** Two valid JWKs share a thumbprint exactly when they are the same key. */
  lemma SameThumbprintIffSameKey(codec: Codec, hash: string -> seq<Byte>, v: Value, v': Value, k: Key, k': Key)
    requires Faithful(codec)
    requires StrictKey(codec, v) == Ok(k) && StrictKey(codec, v') == Ok(k')
    ensures Apart(codec, hash, k, k') ==>
              (Thumbprint(codec, hash, v) == Thumbprint(codec, hash, v') <==> k == k')
  {
    ThumbprintIsOfTheKey(codec, hash, v);
    ThumbprintIsOfTheKey(codec, hash, v');
    StrictKeyInRange(codec, v);
    StrictKeyInRange(codec, v');
    if Apart(codec, hash, k, k') && Thumbprint(codec, hash, v) == Thumbprint(codec, hash, v') {
      SameDigestSameKey(codec, hash, k, k');
    }
  }

  /** One key, however often it is registered under other spellings, is one account identity. */
  lemma RespelledShareThumbprintIffSameKey(codec: Codec, hash: string -> seq<Byte>,
                                           m: Members, m': Members, k: Key, k': Key)
    requires Faithful(codec)
    requires ReadKey(codec, Object(m)) == Ok(k) && ReadKey(codec, Object(m')) == Ok(k')
    ensures Apart(codec, hash, k, k') ==>
              (k == k' <==> Thumbprint(codec, hash, Object(Respelled(codec, m, k))) ==
                            Thumbprint(codec, hash, Object(Respelled(codec, m', k'))))
  {
    RespelledIsStrict(codec, m, k);
    RespelledIsStrict(codec, m', k');
    SameThumbprintIffSameKey(codec, hash, Object(Respelled(codec, m, k)), Object(Respelled(codec, m', k')), k, k');
  }
}
