/**
  The handler and the receiving side agree: every request the handler sends
  is one the server for its region and service accepts under the same secret
  key. The server rebuilds the canonical request, the scope and the
  string-to-sign from the request as received, so this ties together the
  body that is hashed and the body that is sent, the body hash in the
  canonical request and in its header, the signed-header list and the header
  lines, the scope in the string-to-sign and in the credential, and the two
  HMAC levels.
 */
module Agreement {
  import opened Wrappers
  import opened Text
  import opened Json
  import opened Runtime
  import opened Http
  import opened Chat
  import opened Upstream
  import Base64

  /** The credential `{AK}/{scope}` reads back as the access key, the date
      stamp, the region, the service and the terminator `request`. */
  lemma CredentialRoundTrip(accessKey: string, date: string)
    requires '/' !in date
    ensures ParseCredential(accessKey + "/" + CredentialScope(date)) ==
      Some(Credential(accessKey, date, Region, Service, "request"))
  {
    var scope := CredentialScope(date);
    var c := accessKey + "/" + scope;
    assert c == accessKey + ['/'] + scope;
    SplitAppend(accessKey, scope, '/');
    var parts := Split(c, '/');
    var head := Split(accessKey, '/');
    assert parts == head + [date, Region, Service, "request"];
    assert parts[..|parts| - 4] == head;
    JoinSplit(accessKey, '/');
  }

  /** The `Authorization` header as three comma-separated parts, with the
      prefixes the server looks for. */
  lemma AuthorizationText(accessKey: string, scope: string, signature: string)
    ensures Chat.Authorization(accessKey, scope, signature) ==
      CredentialPrefix + (accessKey + "/" + scope) + [','] + (SignedHeadersPrefix + SignedHeaders)
      + [','] + (SignaturePrefix + signature)
  {
    assert "," == [','];
  }

  /** Three comma-separated parts, the last two free of commas, split back
      into the first part (rejoined) and the other two. */
  lemma ThreeParts(first: string, second: string, third: string)
    requires ',' !in second && ',' !in third
    ensures var parts := Split(first + [','] + second + [','] + third, ',');
      |parts| >= 3 && Join(parts[..|parts| - 2], ',') == first
      && parts[|parts| - 2] == second && parts[|parts| - 1] == third
  {
    SplitLastTwo(first, second, third, ',');
    JoinSplit(first, ',');
  }

  /** A prefix followed by the rest: the prefix test passes and the rest is what follows it. */
  lemma AfterPrefix(prefix: string, rest: string)
    ensures IsPrefix(prefix, prefix + rest) && (prefix + rest)[|prefix|..] == rest
  {
    PrefixOfConcat(prefix, rest);
  }

  /** A header with the three expected prefixes parses into its credential,
      its signed-header names and its signature. */
  lemma ParseThreeParts(rest: string, list: string, signature: string)
    requires ',' !in list && ',' !in signature
    ensures ParseAuthorization(CredentialPrefix + rest + [','] + (SignedHeadersPrefix + list) + [','] + (SignaturePrefix + signature)) ==
      match ParseCredential(rest)
      case None => None
      case Some(c) => Some(AuthorizationFields(c, Split(list, ';'), signature))
  {
    var credential := CredentialPrefix + rest;
    var listPart, signaturePart := SignedHeadersPrefix + list, SignaturePrefix + signature;
    assert ',' !in listPart && ',' !in signaturePart;
    ThreeParts(credential, listPart, signaturePart);
    var parts := Split(credential + [','] + listPart + [','] + signaturePart, ',');
    var n := |parts|;
    assert Join(parts[..n - 2], ',') == credential && parts[n - 2] == listPart && parts[n - 1] == signaturePart;
    AfterPrefix(CredentialPrefix, rest);
    AfterPrefix(SignedHeadersPrefix, list);
    AfterPrefix(SignaturePrefix, signature);
  }

  /** The signed-header list holds no comma, so it stays one part of the header. */
  lemma SignedHeadersHaveNoComma()
    ensures ',' !in SignedHeaders
  {
  }

  /** The `Authorization` header reads back as the credential, the
      signed-header names and the signature it was built from, whatever
      separators the access key holds. */
  lemma AuthorizationRoundTrip(accessKey: string, date: string, signature: string)
    requires '/' !in date && ',' !in signature
    ensures ParseAuthorization(Chat.Authorization(accessKey, CredentialScope(date), signature)) ==
      Some(AuthorizationFields(Credential(accessKey, date, Region, Service, "request"), SignedHeaderNames, signature))
  {
    var scope := CredentialScope(date);
    AuthorizationText(accessKey, scope, signature);
    SignedHeadersHaveNoComma();
    ParseThreeParts(accessKey + "/" + scope, SignedHeaders, signature);
    SignedHeaderList();
    CredentialRoundTrip(accessKey, date);
  }

  /** Four signed headers that were all sent give four lines, `name:value`. */
  lemma FourHeaderLines(names: seq<string>, headers: seq<(string, string)>, v0: string, v1: string, v2: string, v3: string)
    requires |names| == 4
    requires Header(headers, names[0]) == Some(v0) && Header(headers, names[1]) == Some(v1)
    requires Header(headers, names[2]) == Some(v2) && Header(headers, names[3]) == Some(v3)
    ensures HeaderLines(names, headers) ==
      Some([names[0] + ":" + v0, names[1] + ":" + v1, names[2] + ":" + v2, names[3] + ":" + v3])
  {
    var values := [v0, v1, v2, v3];
    assert forall i :: 0 <= i < 4 ==> Header(headers, names[i]) == Some(values[i]);
    HeaderLinesSpec(names, headers);
    var lines := HeaderLines(names, headers).value;
    assert forall i :: 0 <= i < 4 ==> lines[i] == names[i] + ":" + values[i];
    assert lines == [names[0] + ":" + v0, names[1] + ":" + v1, names[2] + ":" + v2, names[3] + ":" + v3];
  }

  /** The header lines the server rebuilds from a request carrying the
      signed headers are the handler's canonical header lines, in the same
      order. */
  lemma RebuiltHeaderLines(req: Request, bodyHash: string, xDate: string)
    requires Header(req.headers, "content-type") == Some(ContentType)
    requires Header(req.headers, "host") == Some(Host)
    requires Header(req.headers, "x-content-sha256") == Some(bodyHash)
    requires Header(req.headers, "x-date") == Some(xDate)
    ensures HeaderLines(SignedHeaderNames, req.headers) ==
      Some(["content-type:application/json", "host:" + Host, "x-content-sha256:" + bodyHash, "x-date:" + xDate])
  {
    FourHeaderLines(SignedHeaderNames, req.headers, ContentType, Host, bodyHash, xDate);
    CanonicalLineText(bodyHash, xDate);
  }

  /** Ten canonical fields, in the arrangement the server joins them. */
  lemma CanonicalFields(a: string, b: string, c: string, lines: seq<string>, d: string, e: string, f: string)
    requires |lines| == 4
    ensures [a, b, c] + lines + [d, e, f] == [a, b, c, lines[0], lines[1], lines[2], lines[3], d, e, f]
  {
  }

  /** The canonical request the server rebuilds is the one the handler signed. */
  lemma RebuiltCanonical(p: Platform, body: string, bodyHash: string, xDate: string)
    requires bodyHash == HashBase64(p, body)
    ensures RebuiltCanonicalRequest(p, Method, Path, SignedHeaderNames,
      ["content-type:application/json", "host:" + Host, "x-content-sha256:" + bodyHash, "x-date:" + xDate],
      body) == CanonicalRequest(bodyHash, xDate)
  {
    SignedHeaderList();
    DigestIsHashBase64(p, body);
    var lines := ["content-type:application/json", "host:" + Host, "x-content-sha256:" + bodyHash, "x-date:" + xDate];
    CanonicalFields(Method, Path, "", lines, "", SignedHeaders, bodyHash);
  }

  /** The server's recomputation, step by step: when the request carries the
      headers, the path and the body the signer used, the expected signature
      is the HMAC chain over the same canonical request, scope and
      string-to-sign. */
  lemma ExpectedSignatureSteps(p: Platform, req: Request, secretKey: string, auth: string, fields: AuthorizationFields,
                               xDate: string, lines: seq<string>, canonical: string, scope: string, stringToSign: string)
    requires Header(req.headers, "authorization") == Some(auth)
    requires Header(req.headers, "host") == Some(Host)
    requires Header(req.headers, "x-date") == Some(xDate)
    requires req.url == "https://" + Host + Path
    requires ParseAuthorization(auth) == Some(fields)
    requires HeaderLines(fields.signedHeaders, req.headers) == Some(lines)
    requires RebuiltCanonicalRequest(p, req.httpMethod, Path, fields.signedHeaders, lines, req.body) == canonical
    requires Join([fields.credential.date, fields.credential.region, fields.credential.service,
                   fields.credential.terminator], '/') == scope
    requires Join(["HMAC-SHA256", xDate, scope, HashBase64(p, canonical)], '\n') == stringToSign
    ensures ExpectedSignature(p, req, secretKey) == Some(Signature(p, secretKey, fields.credential.date, stringToSign))
  {
    AfterPrefix("https://" + Host, Path);
    DigestIsHashBase64(p, canonical);
    TwoLevelHmac(p, secretKey, fields.credential.date, stringToSign);
  }

  /** The server's digest of a text is the handler's body hash of it. */
  lemma DigestIsHashBase64(p: Platform, s: string)
    ensures BodyDigest(p, s) == HashBase64(p, s)
  {
  }

  /** The server's two HMAC levels are the handler's signature: the date
      keyed by the secret key, then the string-to-sign keyed by that. */
  lemma TwoLevelHmac(p: Platform, secretKey: string, date: string, stringToSign: string)
    ensures Base64.Encode(p.hmacSha256(p.hmacSha256(p.utf8(secretKey), p.utf8(date)), p.utf8(stringToSign)))
         == Signature(p, secretKey, date, stringToSign)
  {
  }

  /** The credential scope is its four fields joined by `/`. */
  lemma ScopeFields(date: string)
    ensures CredentialScope(date) == Join([date, Region, Service, "request"], '/')
  {
    Join4(date, Region, Service, "request", '/');
    assert "/request" == ['/'] + "request";
  }

  /** A signing record whose parts are chained as the handler chains them
      verifies once sent: the expected signature is the signature sent. */
  lemma ChainVerifies(p: Platform, s: Signing, accessKey: string, secretKey: string, clock: Clock)
    requires '/' !in s.date
    requires s.bodyHash == HashBase64(p, s.body)
    requires s.canonicalRequest == CanonicalRequest(s.bodyHash, clock.utc)
    requires s.credentialScope == CredentialScope(s.date)
    requires s.stringToSign == StringToSign(clock.utc, s.credentialScope, HashBase64(p, s.canonicalRequest))
    requires s.signature == Signature(p, secretKey, s.date, s.stringToSign)
    requires s.authorization == Chat.Authorization(accessKey, s.credentialScope, s.signature)
    ensures ExpectedSignature(p, Outbound(s, clock), secretKey) == Some(s.signature)
  {
    var req := Outbound(s, clock);
    AuthorizationRoundTrip(accessKey, s.date, s.signature);
    var fields := AuthorizationFields(Credential(accessKey, s.date, Region, Service, "request"), SignedHeaderNames, s.signature);
    var lines := ["content-type:application/json", "host:" + Host, "x-content-sha256:" + s.bodyHash, "x-date:" + clock.utc];
    RebuiltHeaderLines(req, s.bodyHash, clock.utc);
    RebuiltCanonical(p, s.body, s.bodyHash, clock.utc);
    ScopeFields(s.date);
    ExpectedSignatureSteps(p, req, secretKey, s.authorization, fields, clock.utc, lines,
                           s.canonicalRequest, s.credentialScope, s.stringToSign);
  }

  /** The handler's signing chain, as the server recomputes it from the
      request sent: the expected signature is the signature sent. */
  lemma SignedRequestVerifies(p: Platform, question: JsValue, accessKey: string, secretKey: string, clock: Clock)
    requires '/' !in clock.iso
    ensures var s := Sign(p, question, accessKey, secretKey, clock);
      ExpectedSignature(p, Outbound(s, clock), secretKey) == Some(s.signature)
  {
    var s := Sign(p, question, accessKey, secretKey, clock);
    assert '/' !in s.date;
    ChainVerifies(p, s, accessKey, secretKey, clock);
  }

  /** What acceptance asks of a request, fact by fact. */
  lemma AcceptsFrom(p: Platform, req: Request, secretKey: string, auth: string, fields: AuthorizationFields)
    requires Header(req.headers, "authorization") == Some(auth)
    requires ParseAuthorization(auth) == Some(fields)
    requires fields.credential.region == Region && fields.credential.service == Service
    requires fields.credential.terminator == "request"
    requires Header(req.headers, "x-content-sha256") == Some(HashBase64(p, req.body))
    requires ExpectedSignature(p, req, secretKey) == Some(fields.signature)
    ensures Accepts(p, req, secretKey, Region, Service)
  {
    DigestIsHashBase64(p, req.body);
  }

  /** A request signed by the handler's chain is accepted under the secret
      key it was signed with. */
  lemma SignedRequestAccepted(p: Platform, question: JsValue, accessKey: string, secretKey: string, clock: Clock)
    requires '/' !in clock.iso
    ensures Accepts(p, Outbound(Sign(p, question, accessKey, secretKey, clock), clock), secretKey, Region, Service)
  {
    var s := Sign(p, question, accessKey, secretKey, clock);
    var req := Outbound(s, clock);
    assert s.date == DateStamp(clock.iso) && s.bodyHash == HashBase64(p, s.body);
    assert s.authorization == Chat.Authorization(accessKey, CredentialScope(s.date), s.signature);
    AuthorizationRoundTrip(accessKey, s.date, s.signature);
    SignedRequestVerifies(p, question, accessKey, secretKey, clock);
    var fields := AuthorizationFields(Credential(accessKey, s.date, Region, Service, "request"), SignedHeaderNames, s.signature);
    AcceptsFrom(p, req, secretKey, s.authorization, fields);
  }

  /** The request the signing chain yields carries the clock's `X-Date`, and
      its header names the access key given and the date stamp of the same
      clock, for region `cn-north-1` and service `doubao`. */
  lemma SignedRequestCredential(p: Platform, question: JsValue, accessKey: string, secretKey: string, clock: Clock)
    requires '/' !in clock.iso
    ensures var req := Outbound(Sign(p, question, accessKey, secretKey, clock), clock);
      && Header(req.headers, "x-date") == Some(clock.utc)
      && Header(req.headers, "authorization").Some?
      && ParseAuthorization(Header(req.headers, "authorization").value).Some?
      && ParseAuthorization(Header(req.headers, "authorization").value).value.credential ==
         Credential(accessKey, DateStamp(clock.iso), Region, Service, "request")
  {
    var s := Sign(p, question, accessKey, secretKey, clock);
    assert s.date == DateStamp(clock.iso);
    assert s.authorization == Chat.Authorization(accessKey, CredentialScope(s.date), s.signature);
    AuthorizationRoundTrip(accessKey, s.date, s.signature);
  }

  /** Every request the handler sends is accepted, under the secret key it
      was signed with, by the server for the handler's region and service.
      It carries the handler's clock as `X-Date`, and its credential names
      `VOLC_AK` and the date stamp of that clock. */
  lemma SentRequestAccepted(p: Platform, body: JsValue, env: Env, clock: Clock)
    requires '/' !in clock.iso
    ensures var r := Handle(p, body, env, clock);
      r.Send? ==>
        && env.secretKey.Some?
        && Accepts(p, r.request, env.secretKey.value, Region, Service)
        && Header(r.request.headers, "x-date") == Some(clock.utc)
        && Header(r.request.headers, "authorization").Some?
        && ParseAuthorization(Header(r.request.headers, "authorization").value).Some?
        && ParseAuthorization(Header(r.request.headers, "authorization").value).value.credential ==
           Credential(EnvText(env.accessKey), DateStamp(clock.iso), Region, Service, "request")
  {
    if Handle(p, body, env, clock).Send? {
      var question := Property(body, "question");
      var accessKey := EnvText(env.accessKey);
      assert Handle(p, body, env, clock).request == Outbound(Sign(p, question, accessKey, env.secretKey.value, clock), clock);
      SignedRequestAccepted(p, question, accessKey, env.secretKey.value, clock);
      SignedRequestCredential(p, question, accessKey, env.secretKey.value, clock);
    }
  }
}
