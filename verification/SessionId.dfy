/**
  Public session ids `r1_<token>_<upstream id>`: the route token is the
  hex form of a 16-byte digest of the backend id.
 */
module SessionId {
  import opened Strings
  import opened Wrappers

  const PREFIX := "r1"

  type Byte = b: int | 0 <= b < 256

  /** The truncated HMAC, kept abstract: any function from backend ids to 16 bytes. */
  type Digest16 = s: seq<Byte> | |s| == 16 witness seq(16, _ => 0)
  type Digest = string -> Digest16

  datatype Parts = Parts(routeToken: string, upstreamSessionId: string)

  const HEX_DIGITS := "0123456789abcdef"

  function HexEncode(bytes: seq<Byte>): string {
    if bytes == [] then ""
    else [HEX_DIGITS[bytes[0] / 16], HEX_DIGITS[bytes[0] % 16]] + HexEncode(bytes[1..])
  }

  function TokenForBackend(digest: Digest, backendId: string): Option<string> {
    if backendId == "" then None else Some(HexEncode(digest(backendId)))
  }

  function Encode(routeToken: string, upstreamSessionId: string): Option<string> {
    if routeToken == "" || upstreamSessionId == "" || '_' in routeToken then None
    else Some(PREFIX + "_" + routeToken + "_" + upstreamSessionId)
  }

  function Decode(publicSessionId: string): Option<Parts> {
    match Cut(publicSessionId, '_')
    case None => None
    case Some((prefix, rest)) =>
      if prefix != PREFIX then None
      else
        match Cut(rest, '_')
        case None => None
        case Some((routeToken, upstreamSessionId)) =>
          if routeToken == "" || upstreamSessionId == "" then None
          else Some(Parts(routeToken, upstreamSessionId))
  }

  /** Everything of a public id but the upstream id. */
  function Lead(routeToken: string): string {
    PREFIX + "_" + routeToken + "_"
  }

  lemma EncodeIsLead(routeToken: string, upstreamSessionId: string)
    ensures Encode(routeToken, upstreamSessionId) ==
            if routeToken == "" || upstreamSessionId == "" || '_' in routeToken then None
            else Some(Lead(routeToken) + upstreamSessionId)
  {}

  lemma LeadShape(routeToken: string)
    ensures |Lead(routeToken)| > 0 && Lead(routeToken)[|Lead(routeToken)| - 1] == '_'
    ensures '/' !in routeToken ==> '/' !in Lead(routeToken)
  {}

  /** A token is a path- and separator-safe word of twice the digest's length. */
  lemma {:induction false} HexShape(bytes: seq<Byte>)
    ensures |HexEncode(bytes)| == 2 * |bytes|
    ensures forall c <- HexEncode(bytes) :: c in HEX_DIGITS
  {
    if bytes != [] {
      HexShape(bytes[1..]);
    }
  }

  lemma HexDigitsDistinct(i: nat, j: nat)
    requires i < 16 && j < 16 && HEX_DIGITS[i] == HEX_DIGITS[j]
    ensures i == j
  {}

  lemma {:induction false} HexInjective(a: seq<Byte>, b: seq<Byte>)
    requires HexEncode(a) == HexEncode(b)
    ensures a == b
  {
    HexShape(a);
    HexShape(b);
    if a != [] {
      var x, y := HexEncode(a), HexEncode(b);
      assert x[0] == y[0] && x[1] == y[1] && x[2..] == HexEncode(a[1..]) && y[2..] == HexEncode(b[1..]);
      HexDigitsDistinct(a[0] / 16, b[0] / 16);
      HexDigitsDistinct(a[0] % 16, b[0] % 16);
      HexInjective(a[1..], b[1..]);
    }
  }

  /** Tokens always encode, and two backends share a token only if their digests collide. */
  lemma TokenShape(digest: Digest, backendId: string)
    requires backendId != ""
    ensures var t := TokenForBackend(digest, backendId);
            t.Some? && |t.value| == 32 && '_' !in t.value && '/' !in t.value
    ensures forall other | TokenForBackend(digest, other) == TokenForBackend(digest, backendId) ::
              other != "" && digest(other) == digest(backendId)
    ensures TokenForBackend(digest, "") == None
  {
    HexShape(digest(backendId));
    forall other | TokenForBackend(digest, other) == TokenForBackend(digest, backendId)
      ensures other != "" && digest(other) == digest(backendId)
    {
      HexInjective(digest(other), digest(backendId));
    }
  }

  /** Decoding undoes encoding. */
  lemma DecodeEncode(routeToken: string, upstreamSessionId: string)
    requires Encode(routeToken, upstreamSessionId).Some?
    ensures Decode(Encode(routeToken, upstreamSessionId).value) == Some(Parts(routeToken, upstreamSessionId))
  {
    var rest := routeToken + ['_'] + upstreamSessionId;
    assert Encode(routeToken, upstreamSessionId).value == PREFIX + ['_'] + rest;
    CutAt(PREFIX, '_', rest);
    CutAt(routeToken, '_', upstreamSessionId);
  }

  /** Encoding undoes decoding: an id has exactly one reading, and no two ids share one. */
  lemma EncodeDecode(publicSessionId: string)
    requires Decode(publicSessionId).Some?
    ensures var parts := Decode(publicSessionId).value;
            Encode(parts.routeToken, parts.upstreamSessionId) == Some(publicSessionId)
  {
    var (prefix, rest) := Cut(publicSessionId, '_').value;
    var parts := Decode(publicSessionId).value;
    assert publicSessionId == PREFIX + "_" + (parts.routeToken + "_" + parts.upstreamSessionId);
    assert publicSessionId == PREFIX + "_" + parts.routeToken + "_" + parts.upstreamSessionId;
  }

  /** The public form, spelled out. */
  lemma IdForm(routeToken: string, upstreamSessionId: string)
    requires routeToken != "" && '_' !in routeToken && upstreamSessionId != ""
    ensures Encode(routeToken, upstreamSessionId) == Some("r1_" + routeToken + "_" + upstreamSessionId)
  {
    assert PREFIX + "_" == "r1_";
  }

  /** Byte by byte, the high digit first. */
  lemma {:induction false} HexDigitsOf(bytes: seq<Byte>, i: nat)
    requires i < |bytes|
    ensures |HexEncode(bytes)| == 2 * |bytes|
    ensures HexEncode(bytes)[2 * i] == "0123456789abcdef"[bytes[i] / 16]
    ensures HexEncode(bytes)[2 * i + 1] == "0123456789abcdef"[bytes[i] % 16]
  {
    HexShape(bytes);
    if i > 0 {
      HexDigitsOf(bytes[1..], i - 1);
      var rest := HexEncode(bytes[1..]);
      assert HexEncode(bytes)[2..] == rest;
      assert HexEncode(bytes)[2 * i] == rest[2 * (i - 1)] && HexEncode(bytes)[2 * i + 1] == rest[2 * (i - 1) + 1];
    }
  }
}
