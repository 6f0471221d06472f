/**
 The text that is hashed into a thumbprint, as section 3 of RFC 7638 describes it: the
 required members alone, in the order of their names, without whitespace.
 */
module ThumbprintText {
  import opened Prelude
  import opened Octets
  import opened Base64url
  import opened Jwk
  import opened JwkCanonical

  /** One member as JSON writes it, and a list of members one after the other. */
  function Rendered(name: string, text: string): (json: string) {
    "\"" + name + "\":\"" + text + "\""
  }

  function RenderedAll(members: seq<(string, string)>): (json: string) {
    if members == [] then ""
    else if |members| == 1 then Rendered(members[0].0, members[0].1)
    else Rendered(members[0].0, members[0].1) + "," + RenderedAll(members[1..])
  }

  function JsonObject(members: seq<(string, string)>): (json: string) {
    "{" + RenderedAll(members) + "}"
  }

  /** The required members and no others, in the order of their names, each with its own text. */
  ghost predicate RequiredMembers(m: Members, names: set<string>, members: seq<(string, string)>) {
    && (forall i, j :: 0 <= i < j < |members| ==> TextLess(members[i].0, members[j].0))
    && (forall name :: name in names <==> exists i :: 0 <= i < |members| && members[i].0 == name)
    && (forall i :: 0 <= i < |members| ==> members[i].0 in m && m[members[i].0] == Text(members[i].1))
  }

  lemma Halves(a: string, b: string, c: string)
    ensures a + b + c == a + (b + c)
  {
  }

  /** A member and what follows it, from the opening quotation mark of its text on. */
  lemma MemberFirst(name: string, text: string, rest: string)
    ensures Rendered(name, text) + rest == ("\"" + name + "\":\"") + Quoted(text, rest)
  {
    Halves("\"" + name + "\":\"" + text, "\"", rest);
    Halves("\"" + name + "\":\"", text, "\"" + rest);
    assert "\"" == ['"'];
    Halves(text, "\"", rest);
  }

  /** A member with others, or nothing, behind it, and the end of the object. */
  lemma MemberThen(before: string, name: string, text: string, others: string)
    ensures before + (Rendered(name, text) + "," + others + "}") ==
            (before + ("\"" + name + "\":\"")) + Quoted(text, "," + (others + "}"))
  {
    var tail := "," + (others + "}");
    assert Rendered(name, text) + "," + others + "}" == Rendered(name, text) + tail;
    MemberFirst(name, text, tail);
    Halves(before, "\"" + name + "\":\"", Quoted(text, tail));
  }

  lemma MemberLast(before: string, name: string, text: string)
    ensures before + (Rendered(name, text) + "}") == (before + ("\"" + name + "\":\"")) + Quoted(text, "}")
  {
    MemberFirst(name, text, "}");
    Halves(before, "\"" + name + "\":\"", Quoted(text, "}"));
  }

  lemma KtyThen(kty: string, next: string, q: string)
    ensures "," + ("\"" + "kty" + "\":\"") + Quoted(kty, next + q) == (",\"kty\":\"" + kty + "\"" + next) + q
  {
    assert "," + ("\"" + "kty" + "\":\"") == ",\"kty\":\"" && ['"'] == "\"";
    Halves(kty + "\"", next, q);
    Halves(",\"kty\":\"", kty + "\"", next + q);
    Halves(",\"kty\":\"" + kty + "\"", next, q);
    Halves(",\"kty\":\"", kty, "\"");
  }

  lemma RsaTail(n: string)
    ensures "," + (RenderedAll([("kty", "RSA"), ("n", n)]) + "}") == ",\"kty\":\"RSA\",\"n\":\"" + Quoted(n, "}")
  {
    assert [("kty", "RSA"), ("n", n)][1..] == [("n", n)];
    MemberThen(",", "kty", "RSA", Rendered("n", n));
    MemberLast(",", "n", n);
    assert "," + ("\"" + "n" + "\":\"") == ",\"n\":\"";
    KtyThen("RSA", ",\"n\":\"", Quoted(n, "}"));
    assert ",\"kty\":\"" + "RSA" + "\"" + ",\"n\":\"" == ",\"kty\":\"RSA\",\"n\":\"";
  }

  lemma RsaJsonIsRendered(e: string, n: string)
    ensures RsaJson(e, n) == JsonObject([("e", e), ("kty", "RSA"), ("n", n)])
  {
    var members := [("e", e), ("kty", "RSA"), ("n", n)];
    assert members[1..] == [("kty", "RSA"), ("n", n)];
    MemberThen("{", "e", e, RenderedAll(members[1..]));
    Halves("{", RenderedAll(members), "}");
    RsaTail(n);
    assert "{" + ("\"" + "e" + "\":\"") == "{\"e\":\"";
  }

  lemma EcTail(x: string, y: string)
    ensures "," + (RenderedAll([("kty", "EC"), ("x", x), ("y", y)]) + "}") ==
            ",\"kty\":\"EC\",\"x\":\"" + Quoted(x, ",\"y\":\"" + Quoted(y, "}"))
  {
    var members := [("kty", "EC"), ("x", x), ("y", y)];
    assert members[1..] == [("x", x), ("y", y)] && members[1..][1..] == [("y", y)];
    assert RenderedAll(members[1..]) == Rendered("x", x) + "," + Rendered("y", y);
    MemberThen(",", "kty", "EC", RenderedAll(members[1..]));
    MemberThen(",", "x", x, Rendered("y", y));
    MemberLast(",", "y", y);
    assert "," + ("\"" + "y" + "\":\"") == ",\"y\":\"" && "," + ("\"" + "x" + "\":\"") == ",\"x\":\"";
    KtyThen("EC", ",\"x\":\"", Quoted(x, ",\"y\":\"" + Quoted(y, "}")));
    assert ",\"kty\":\"" + "EC" + "\"" + ",\"x\":\"" == ",\"kty\":\"EC\",\"x\":\"";
  }

  lemma EcJsonIsRendered(crv: string, x: string, y: string)
    ensures EcJson(crv, x, y) == JsonObject([("crv", crv), ("kty", "EC"), ("x", x), ("y", y)])
  {
    var members := [("crv", crv), ("kty", "EC"), ("x", x), ("y", y)];
    assert members[1..] == [("kty", "EC"), ("x", x), ("y", y)];
    MemberThen("{", "crv", crv, RenderedAll(members[1..]));
    Halves("{", RenderedAll(members), "}");
    EcTail(x, y);
    assert "{" + ("\"" + "crv" + "\":\"") == "{\"crv\":\"";
  }

  lemma RsaNamesAscend()
    ensures TextLess("e", "kty") && TextLess("e", "n") && TextLess("kty", "n")
  {
  }

  lemma EcNamesAscend()
    ensures TextLess("crv", "kty") && TextLess("crv", "x") && TextLess("crv", "y")
    ensures TextLess("kty", "x") && TextLess("kty", "y") && TextLess("x", "y")
  {
  }

  lemma RsaMembers(codec: Codec, m: Members, n: nat, e: nat) returns (members: seq<(string, string)>)
    requires Faithful(codec)
    requires HasKty(m, "RSA") && StrictUintAt(codec, m, "n") == Ok(n) && StrictUintAt(codec, m, "e") == Ok(e)
    ensures RequiredMembers(m, {"e", "kty", "n"}, members) && CanonicalJson(m) == JsonObject(members)
  {
    UintRespelled(codec, m, "n", n);
    UintRespelled(codec, m, "e", e);
    members := [("e", m["e"].text), ("kty", "RSA"), ("n", m["n"].text)];
    RsaNamesAscend();
    RsaJsonIsRendered(m["e"].text, m["n"].text);
    assert members[0].0 == "e" && members[1].0 == "kty" && members[2].0 == "n";
  }

  lemma EcMembers(codec: Codec, m: Members, curve: Curve, x: nat, y: nat, w: nat)
    returns (members: seq<(string, string)>)
    requires Faithful(codec)
    requires HasKty(m, "EC") && CurveIn(m) == Some(curve) && w == Width(curve)
    requires StrictCoordinateAt(codec, m, "x", w) == Ok(x) && StrictCoordinateAt(codec, m, "y", w) == Ok(y)
    ensures RequiredMembers(m, {"crv", "kty", "x", "y"}, members) && CanonicalJson(m) == JsonObject(members)
  {
    CoordinateRespelled(codec, m, "x", x, w);
    CoordinateRespelled(codec, m, "y", y, w);
    members := [("crv", m["crv"].text), ("kty", "EC"), ("x", m["x"].text), ("y", m["y"].text)];
    EcNamesAscend();
    EcJsonIsRendered(m["crv"].text, m["x"].text, m["y"].text);
    assert members[0].0 == "crv" && members[1].0 == "kty" && members[2].0 == "x" && members[3].0 == "y";
    assert m["kty"].text[0] == 'E';
  }

  /**
   The thumbprint of a valid JWK is the hash of the JSON object that holds its required
   members and no others, strictly ordered by name, each with the text it has in the JWK.
   */
  lemma ThumbprintIsOfTheRequiredMembers(codec: Codec, hash: string -> seq<Byte>, m: Members, k: Key)
    requires Faithful(codec) && StrictKey(codec, Object(m)) == Ok(k)
    ensures exists members ::
              && RequiredMembers(m, if k.Rsa? then {"e", "kty", "n"} else {"crv", "kty", "x", "y"}, members)
              && Thumbprint(codec, hash, Object(m)) == Ok(codec.encode(hash(JsonObject(members))))
  {
    match k
    case Rsa(n, e) =>
      var members := RsaMembers(codec, m, n, e);
    case Ec(curve, x, y) =>
      var members := EcMembers(codec, m, curve, x, y, Width(curve));
  }
}
