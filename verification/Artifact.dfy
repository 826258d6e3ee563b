// The opaque credential artifact: a prefixed base64url encoding of a JSON
// envelope, written by the issuer and read back by the verifier.
module Artifact {
  import opened Text
  import opened Bytes
  import Json

  datatype Envelope = Envelope(credentialId: string, issuerId: string, templateId: string, expiresAt: string)

  // What the services take from their standard library and this model keeps
  // abstract: SHA-256 in hexadecimal, RFC 3339 printing to the second and to the
  // nanosecond, the syntax checks of timestamps and dates, and the JSON decoder
  // on texts that are not of the printed shape.
  datatype Library = Library(
    sha256: string -> string,
    rfc3339: int -> string,
    rfc3339Nano: int -> string,
    isRfc3339: string -> bool,
    isIsoDate: string -> bool,
    otherJson: seq<Byte> -> Option<Envelope>)

  // No two texts share a digest, and a digest has no white space at its ends.
  ghost predicate CollisionFree(lib: Library) {
    && (forall x, y :: lib.sha256(x) == lib.sha256(y) ==> x == y)
    && (forall x :: Trim(lib.sha256(x)) == lib.sha256(x))
  }

  // Printed timestamps pass the syntax check.
  ghost predicate PrintsTimes(lib: Library) {
    forall t :: lib.isRfc3339(lib.rfc3339(t))
  }

  const PREFIX := "opaque-artifact:v1:"

  const SHAPE: seq<string> := [
    "{\"credentialId\":\"", ",\"issuerId\":\"", ",\"templateId\":\"", ",\"expiresAt\":\"", "}"
  ]

  function Fields(e: Envelope): (v: seq<string>)
    ensures |v| == 4
  {
    [e.credentialId, e.issuerId, e.templateId, e.expiresAt]
  }

  function Marshal(e: Envelope): seq<Byte> {
    EncodeText(Json.Fill(SHAPE, Fields(e)))
  }

  function ArtifactValue(e: Envelope): string {
    PREFIX + EncodeBase64(Marshal(e))
  }

  function IssuedEnvelope(lib: Library, credentialId: string, issuerId: string, templateId: string, expiresAt: int): Envelope {
    Envelope(credentialId, issuerId, templateId, lib.rfc3339(expiresAt))
  }

  function Materialize(lib: Library, credentialId: string, issuerId: string, templateId: string, expiresAt: int): string {
    ArtifactValue(IssuedEnvelope(lib, credentialId, issuerId, templateId, expiresAt))
  }

  function Unmarshal(lib: Library, raw: seq<Byte>): Option<Envelope> {
    match DecodeText(raw)
    case None => lib.otherJson(raw)
    case Some(text) =>
      match Json.Scan(SHAPE, text)
      case None => lib.otherJson(raw)
      case Some(v) => Some(Envelope(v[0], v[1], v[2], v[3]))
  }

  predicate Acceptable(lib: Library, e: Envelope) {
    && Trim(e.credentialId) != ""
    && Trim(e.issuerId) != ""
    && Trim(e.templateId) != ""
    && lib.isRfc3339(e.expiresAt)
  }

  // The part of parsing that follows the prefix.
  function ParseCode(lib: Library, code: string): Option<Envelope> {
    match DecodeBase64(code)
    case None => None
    case Some(bytes) =>
      match Unmarshal(lib, bytes)
      case None => None
      case Some(e) => if Acceptable(lib, e) then Some(e) else None
  }

  function Parse(lib: Library, value: string): Option<Envelope> {
    var raw := Trim(value);
    if PREFIX <= raw then ParseCode(lib, raw[|PREFIX|..]) else None
  }

  function Digest(lib: Library, value: string): string {
    lib.sha256(value)
  }

  lemma UnmarshalMarshal(lib: Library, e: Envelope)
    ensures Unmarshal(lib, Marshal(e)) == Some(e)
  {
    DecodeEncodedText(Json.Fill(SHAPE, Fields(e)));
    Json.ScanFill(SHAPE, Fields(e));
  }

  lemma MarshalNotEmpty(e: Envelope)
    ensures Marshal(e) != []
  {
    var text := Json.Fill(SHAPE, Fields(e));
    assert SHAPE[0] != "";
    assert text != "";
  }

  // An artifact value has no white space at its ends.
  lemma ArtifactValueIsTight(e: Envelope)
    ensures Trim(ArtifactValue(e)) == ArtifactValue(e)
  {
    var code := EncodeBase64(Marshal(e));
    MarshalNotEmpty(e);
    Base64HasNoSpace(Marshal(e), |code| - 1);
    var value := ArtifactValue(e);
    assert value[0] == 'o' && value[|value| - 1] == code[|code| - 1];
    TightIsFixed(value);
  }

  // The verifier reads back exactly the envelope the issuer wrote, for all
  // strings, and refuses it exactly when it is not acceptable.
  lemma ParseOfArtifactValue(lib: Library, e: Envelope)
    ensures Parse(lib, ArtifactValue(e)) == if Acceptable(lib, e) then Some(e) else None
  {
    var value := ArtifactValue(e);
    ArtifactValueIsTight(e);
    assert value[|PREFIX|..] == EncodeBase64(Marshal(e));
    DecodeEncodedBase64(Marshal(e));
    UnmarshalMarshal(lib, e);
  }

  lemma ArtifactValueInjective(e: Envelope, f: Envelope)
    requires ArtifactValue(e) == ArtifactValue(f)
    ensures e == f
  {
    var lib := Library(x => x, t => "", t => "", x => true, x => true, b => None);
    assert ArtifactValue(e)[|PREFIX|..] == EncodeBase64(Marshal(e));
    assert ArtifactValue(f)[|PREFIX|..] == EncodeBase64(Marshal(f));
    DecodeEncodedBase64(Marshal(e));
    DecodeEncodedBase64(Marshal(f));
    UnmarshalMarshal(lib, e);
    UnmarshalMarshal(lib, f);
  }

  lemma {:induction false} SextetsSkipBreak(a: string, b: string)
    ensures Sextets(a + "\n" + b) == Sextets(a + b)
  {
    if a == "" {
      assert a + "\n" + b == ['\n'] + b && a + b == b;
    } else {
      SextetsSkipBreak(a[1..], b);
      assert (a + "\n" + b)[1..] == a[1..] + "\n" + b;
      assert (a + b)[1..] == a[1..] + b;
    }
  }

  lemma ParseOfPrefixed(lib: Library, code: string)
    requires Trim(PREFIX + code) == PREFIX + code
    ensures Parse(lib, PREFIX + code) == ParseCode(lib, code)
  {
    assert (PREFIX + code)[|PREFIX|..] == code;
  }

  lemma PrefixedIsTight(code: string)
    requires code != "" && !IsSpace(code[|code| - 1])
    ensures Trim(PREFIX + code) == PREFIX + code
  {
    var value := PREFIX + code;
    assert value[0] == 'o' && value[|value| - 1] == code[|code| - 1];
    TightIsFixed(value);
  }

  // The encoding is malleable: a line break inside an artifact does not change
  // the envelope read from it. Only the digest ties a submission to one record.
  lemma LineBreakKeepsEnvelope(lib: Library, e: Envelope, a: string, b: string)
    requires a != "" && b != ""
    requires EncodeBase64(Marshal(e)) == a + b
    ensures Parse(lib, PREFIX + (a + "\n" + b)) == Parse(lib, ArtifactValue(e))
    ensures PREFIX + (a + "\n" + b) != ArtifactValue(e)
  {
    var code, broken := a + b, a + "\n" + b;
    Base64HasNoSpace(Marshal(e), |code| - 1);
    assert broken[|broken| - 1] == code[|code| - 1];
    PrefixedIsTight(code);
    PrefixedIsTight(broken);
    ParseOfPrefixed(lib, code);
    ParseOfPrefixed(lib, broken);
    SextetsSkipBreak(a, b);
    assert |PREFIX + broken| == |ArtifactValue(e)| + 1;
  }
}
