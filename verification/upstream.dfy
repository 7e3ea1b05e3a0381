/**
  The receiving side of the HMAC-SHA256 canonical-request scheme: how a
  server that holds the secret key reads an `Authorization` header of the
  form `HMAC-SHA256 Credential={AK}/{date}/{region}/{service}/request,
  SignedHeaders={names}, Signature={signature}`, rebuilds the canonical
  request and the string-to-sign from the request as received, and compares
  signatures. It is written from the request alone, independently of how the
  handler builds one, so that it can serve as the handler's counterpart.
 */
module Upstream {
  import opened Wrappers
  import opened Text
  import opened Base64
  import opened Runtime
  import opened Http

  datatype Credential = Credential(accessKey: string, date: string, region: string, service: string, terminator: string)

  datatype AuthorizationFields = AuthorizationFields(credential: Credential, signedHeaders: seq<string>, signature: string)

  const CredentialPrefix: string := "HMAC-SHA256 Credential="
  const SignedHeadersPrefix: string := " SignedHeaders="
  const SignaturePrefix: string := " Signature="

  /** `{AK}/{date}/{region}/{service}/{terminator}`, read from the right so
      that an access key holding `/` is kept whole. */
  function ParseCredential(c: string): (r: Option<Credential>)
    ensures r.Some? ==> '/' !in r.value.date && '/' !in r.value.terminator
  {
    var parts := Split(c, '/');
    var n := |parts|;
    if n < 5 then None
    else Some(Credential(Join(parts[..n - 4], '/'), parts[n - 4], parts[n - 3], parts[n - 2], parts[n - 1]))
  }

  /** The three comma-separated parts of the header, read from the right so
      that an access key holding `,` is kept whole. */
  function ParseAuthorization(h: string): (r: Option<AuthorizationFields>)
    ensures r.Some? ==> ',' !in r.value.signature && forall name <- r.value.signedHeaders :: ';' !in name
  {
    var parts := Split(h, ',');
    var n := |parts|;
    if n < 3 then None
    else
      var credential, list, signature := Join(parts[..n - 2], ','), parts[n - 2], parts[n - 1];
      if !IsPrefix(CredentialPrefix, credential) || !IsPrefix(SignedHeadersPrefix, list)
         || !IsPrefix(SignaturePrefix, signature) then None
      else
        match ParseCredential(credential[|CredentialPrefix|..])
        case None => None
        case Some(c) =>
          var sig := signature[|SignaturePrefix|..];
          assert parts[n - 1] in parts && forall i | 0 <= i < |sig| :: sig[i] == signature[|SignaturePrefix| + i];
          Some(AuthorizationFields(c, Split(list[|SignedHeadersPrefix|..], ';'), sig))
  }

  /** `name:value` for each signed header, in the order of the list, or `None`
      when one of them was not sent. */
  function HeaderLines(names: seq<string>, headers: seq<(string, string)>): (r: Option<seq<string>>)
    ensures r.Some? ==> |r.value| == |names|
    decreases |names|
  {
    if |names| == 0 then Some([])
    else
      match Header(headers, names[0])
      case None => None
      case Some(v) =>
        match HeaderLines(names[1..], headers)
        case None => None
        case Some(rest) => Some([names[0] + ":" + v] + rest)
  }

  /** The header lines exist exactly when every signed header was sent, and
      line `i` is name `i`, `:` and the value found under that name. */
  lemma {:induction false} HeaderLinesSpec(names: seq<string>, headers: seq<(string, string)>)
    ensures HeaderLines(names, headers).Some? <==>
      forall i :: 0 <= i < |names| ==> Header(headers, names[i]).Some?
    ensures HeaderLines(names, headers).Some? ==> forall i :: 0 <= i < |names| ==>
      HeaderLines(names, headers).value[i] == names[i] + ":" + Header(headers, names[i]).value
    decreases |names|
  {
    if |names| > 0 {
      var tail := names[1..];
      HeaderLinesSpec(tail, headers);
      assert forall i :: 0 < i < |names| ==> names[i] == tail[i - 1];
      if Header(headers, names[0]).Some? && HeaderLines(tail, headers).Some? {
        var lines := HeaderLines(names, headers).value;
        assert lines == [names[0] + ":" + Header(headers, names[0]).value] + HeaderLines(tail, headers).value;
        assert forall i :: 0 < i < |names| ==> lines[i] == HeaderLines(tail, headers).value[i - 1];
      }
    }
  }

  /** The server's digest of a text: SHA-256 of its UTF-8 bytes, in base 64. */
  function BodyDigest(p: Platform, s: string): string {
    Encode(p.sha256(p.utf8(s)))
  }

  /** The canonical request the server rebuilds: method, path, empty query,
      the signed header lines, a blank line, the signed-header list and the
      digest of the body as received. */
  function RebuiltCanonicalRequest(p: Platform, verb: string, path: string, names: seq<string>,
                                   lines: seq<string>, body: string): string
  {
    Join([verb, path, ""] + lines + ["", Join(names, ';'), BodyDigest(p, body)], '\n')
  }

  /** The signature the server expects for `req` under `secretKey`, or `None`
      when the request lacks what is needed to rebuild it: HMAC-SHA256 of the
      rebuilt string-to-sign, keyed by HMAC-SHA256 of the credential's date
      keyed by the secret key, in base 64. */
  function ExpectedSignature(p: Platform, req: Request, secretKey: string): Option<string> {
    var auth, host, xDate := Header(req.headers, "authorization"), Header(req.headers, "host"), Header(req.headers, "x-date");
    if auth.None? || host.None? || xDate.None? then None
    else
      match ParseAuthorization(auth.value)
      case None => None
      case Some(a) =>
        var origin := "https://" + host.value;
        if !IsPrefix(origin, req.url) then None
        else
          match HeaderLines(a.signedHeaders, req.headers)
          case None => None
          case Some(lines) =>
            var canonical := RebuiltCanonicalRequest(p, req.httpMethod, req.url[|origin|..], a.signedHeaders, lines, req.body);
            var c := a.credential;
            var scope := Join([c.date, c.region, c.service, c.terminator], '/');
            var stringToSign := Join(["HMAC-SHA256", xDate.value, scope, BodyDigest(p, canonical)], '\n');
            var signingKey := p.hmacSha256(p.utf8(secretKey), p.utf8(c.date));
            Some(Encode(p.hmacSha256(signingKey, p.utf8(stringToSign))))
  }

  /** The server for `region` and `service` accepts `req`: the header parses,
      the scope is its own and ends in `request`, the declared body hash is
      the hash of the body received, and the signature is the expected one. */
  predicate Accepts(p: Platform, req: Request, secretKey: string, region: string, service: string) {
    match Header(req.headers, "authorization")
    case None => false
    case Some(auth) =>
      match ParseAuthorization(auth)
      case None => false
      case Some(a) =>
        && a.credential.region == region
        && a.credential.service == service
        && a.credential.terminator == "request"
        && Header(req.headers, "x-content-sha256") == Some(BodyDigest(p, req.body))
        && ExpectedSignature(p, req, secretKey) == Some(a.signature)
  }
}
