/**
  The serverless handler of `api/chat.js`: it validates the question, builds
  the chat payload for the Volcengine Doubao API, signs the request with the
  HMAC-SHA256 canonical-request scheme and hands the signed POST to `fetch`.

  The clock reaches the model as the two strings the handler derives from one
  `new Date()` (`toUTCString()` and `toISOString()`), the credentials as the
  two environment values (absent or present), and the runtime's hashing,
  HMAC and UTF-8 encoding as a `Platform`.
 */
module Chat {
  import opened Wrappers
  import opened Text
  import opened Json
  import opened Runtime
  import opened Http

  const Service: string := "doubao"
  const Region: string := "cn-north-1"
  const Host: string := "open.volcengineapi.com"
  const Path: string := "/api/v1/chat/completions"
  const Method: string := "POST"

  const ModelName: string := "doubao-pro"
  const Temperature: real := 0.7
  const MaxTokens: nat := 2000

  const Algorithm: string := "HMAC-SHA256"
  const ContentType: string := "application/json"
  /** The signed-header list exactly as the canonical request and the
      `Authorization` header write it. */
  const SignedHeaders: string := "content-type" + ";" + "host" + ";" + "x-content-sha256" + ";" + "x-date"
  /** The names the list is made of, in the order their header lines appear. */
  const SignedHeaderNames: seq<string> := ["content-type", "host", "x-content-sha256", "x-date"]

  /** The error text of the 400 response ("please enter a valid question"). */
  const InvalidQuestion: string := "请输入有效的问题"
  /** The error text of the 500 response ("cloud function call failed"). */
  const InvocationFailed: string := "云函数调用失败"

  datatype Message = Message(role: string, content: JsValue)

  /** The object given to `JSON.stringify` as the request body. */
  datatype ChatPayload = ChatPayload(model: string, messages: seq<Message>, temperature: real, maxTokens: nat)

  /** The two renderings of the single instant the handler reads. */
  datatype Clock = Clock(utc: string, iso: string)

  /** `process.env.VOLC_AK` and `process.env.VOLC_SK`. */
  datatype Env = Env(accessKey: Option<string>, secretKey: Option<string>)

  /** How the handler ends: a response of its own with a status code and an
      error text, or the signed request it sends upstream (whose reply it
      relays). */
  datatype Outcome = Respond(status: nat, error: string) | Send(request: Request)

  /** Every value the signing chain binds, in source order. */
  datatype Signing = Signing(
    body: string,
    date: string,
    bodyHash: string,
    canonicalRequest: string,
    credentialScope: string,
    stringToSign: string,
    signature: string,
    authorization: string)

  // ---------------------------------------------------------------- payload

  /** The chat request for a question: one user message carrying the question
      unchanged, and the fixed model, temperature and token limit. */
  function BuildPayload(question: JsValue): (p: ChatPayload)
    ensures |p.messages| == 1
    ensures p.messages[0].role == "user" && p.messages[0].content == question
    ensures p.model == ModelName && p.temperature == Temperature && p.maxTokens == MaxTokens
  {
    ChatPayload(ModelName, [Message("user", question)], Temperature, MaxTokens)
  }

  /** `JSON.stringify` of a defined value; strings, `null` and booleans are
      written here, other values by the runtime. */
  function StringifyValue(p: Platform, v: JsValue): (text: string)
    requires !v.Undefined?
    ensures v.Str? ==> ReadString(text) == Some((v.s, ""))
  {
    match v
    case Str(s) => ReadQuote(s, ""); assert Quote(s) + "" == Quote(s); Quote(s)
    case Null => "null"
    case Bool(b) => if b then "true" else "false"
    case _ => p.stringifyOther(v)
  }

  /** One message object, keys in insertion order; a property whose value is
      `undefined` is omitted, as `JSON.stringify` does. */
  function SerializeMessage(p: Platform, m: Message): string {
    "{\"role\":" + Quote(m.role)
    + (if m.content.Undefined? then "" else ",\"content\":" + StringifyValue(p, m.content))
    + "}"
  }

  /** The message objects separated by commas, as an array's `join`. */
  function SerializeMessages(p: Platform, ms: seq<Message>): string
    decreases |ms|
  {
    if |ms| == 0 then ""
    else if |ms| == 1 then SerializeMessage(p, ms[0])
    else SerializeMessage(p, ms[0]) + "," + SerializeMessages(p, ms[1..])
  }

  /** `JSON.stringify(payload)`: compact, keys in insertion order. */
  function SerializePayload(p: Platform, payload: ChatPayload): string {
    "{\"model\":" + Quote(payload.model)
    + ",\"messages\":[" + SerializeMessages(p, payload.messages) + "]"
    + ",\"temperature\":" + p.stringifyOther(Number(payload.temperature))
    + ",\"max_tokens\":" + p.stringifyOther(Number(payload.maxTokens as real))
    + "}"
  }

  /** The serialised body up to the question's literal, that is
      `{"model":"doubao-pro","messages":[{"role":"user","content":`. */
  const BodyPrefix: string :=
    "{\"model\":" + Quote(ModelName) + ",\"messages\":[" + "{\"role\":" + Quote("user") + ",\"content\":"

  /** The serialised body after the question's literal. */
  function BodySuffix(p: Platform): string {
    "}" + "]" + ",\"temperature\":" + p.stringifyOther(Number(Temperature))
    + ",\"max_tokens\":" + p.stringifyOther(Number(MaxTokens as real)) + "}"
  }

  /** For a string question the body is the fixed prefix, the question's
      JSON literal and the fixed suffix, and reading the literal that follows
      the prefix yields the question unchanged. */
  lemma PayloadCarriesQuestion(p: Platform, q: string)
    ensures var body := SerializePayload(p, BuildPayload(Str(q)));
      && body == BodyPrefix + Quote(q) + BodySuffix(p)
      && ReadString(body[|BodyPrefix|..]) == Some((q, BodySuffix(p)))
  {
    PayloadShape(p, q);
    LiteralAfter(BodyPrefix, q, BodySuffix(p));
  }

  lemma PayloadShape(p: Platform, q: string)
    ensures SerializePayload(p, BuildPayload(Str(q))) == BodyPrefix + Quote(q) + BodySuffix(p)
  {
    var payload := BuildPayload(Str(q));
    assert payload == ChatPayload(ModelName, [Message("user", Str(q))], Temperature, MaxTokens);
    assert StringifyValue(p, Str(q)) == Quote(q);
    var message := SerializeMessage(p, Message("user", Str(q)));
    assert message == "{\"role\":" + Quote("user") + (",\"content\":" + Quote(q)) + "}";
    assert SerializeMessages(p, payload.messages) == message;
    Regroup("{\"model\":", Quote(ModelName), ",\"messages\":[", "{\"role\":", Quote("user"),
            ",\"content\":", Quote(q), "}", "]", ",\"temperature\":", p.stringifyOther(Number(Temperature)),
            ",\"max_tokens\":", p.stringifyOther(Number(MaxTokens as real)), "}");
  }

  /** Whatever precedes a string's literal, reading from the literal on gives the string back. */
  lemma LiteralAfter(prefix: string, q: string, suffix: string)
    ensures ReadString((prefix + Quote(q) + suffix)[|prefix|..]) == Some((q, suffix))
  {
    DropPrefix(prefix, Quote(q), suffix);
    ReadQuote(q, suffix);
  }

  /** The payload's pieces, regrouped around the question's literal `qq`. */
  lemma Regroup(a: string, qm: string, b: string, r: string, qu: string, k: string, qq: string,
                g: string, c: string, d: string, t: string, e: string, n: string, f: string)
    ensures a + qm + b + (r + qu + (k + qq) + g) + c + d + t + e + n + f
         == (a + qm + b + r + qu + k) + qq + (g + c + d + t + e + n + f)
  {
  }

  // ------------------------------------------------------------- date stamp

  /** `toISOString().split('T')[0].replace(/-/g, '')`: the text before the
      first `T`, with every `-` removed. */
  function DateStamp(iso: string): (date: string)
    ensures '-' !in date && 'T' !in date
    ensures forall c <- date :: c in iso
  {
    RemoveAll(Split(iso, 'T')[0], '-')
  }

  predicate IsDigit(c: char) {
    '0' <= c <= '9'
  }

  /** The shape `YYYY-MM-DDTHH:mm:ss.sssZ` that `toISOString` gives for years 0 to 9999. */
  predicate IsIsoTimestamp(s: string) {
    && |s| == 24
    && s[4] == '-' && s[7] == '-' && s[10] == 'T' && s[13] == ':' && s[16] == ':' && s[19] == '.' && s[23] == 'Z'
    && forall i :: 0 <= i < 24 && i !in {4, 7, 10, 13, 16, 19, 23} ==> IsDigit(s[i])
  }

  /** For a well-formed timestamp the date stamp is the eight digits `YYYYMMDD`. */
  lemma DateStampOfIso(iso: string)
    requires IsIsoTimestamp(iso)
    ensures DateStamp(iso) == iso[0..4] + iso[5..7] + iso[8..10]
    ensures |DateStamp(iso)| == 8 && forall c <- DateStamp(iso) :: IsDigit(c)
  {
    var day, time := iso[..10], iso[11..];
    var y, m, d := iso[0..4], iso[5..7], iso[8..10];
    assert iso == day + ['T'] + time;
    assert day == y + ['-'] + m + ['-'] + d;
    forall i | 0 <= i < 10
      ensures day[i] != 'T'
      ensures i != 4 && i != 7 ==> IsDigit(day[i])
    {
      assert day[i] == iso[i];
    }
    assert 'T' !in day;
    SplitAppend(day, time, 'T');
    assert Split(iso, 'T')[0] == day;
    assert forall c <- y :: IsDigit(c);
    assert forall c <- m :: IsDigit(c);
    assert forall c <- d :: IsDigit(c);
    RemoveTwoSeparators(y, m, d, '-');
  }

  // ------------------------------------------------------ canonical request

  /** The ten lines of the canonical request, joined by line feeds. Whenever
      the body hash and `X-Date` hold no line feed, splitting the text at line
      feeds gives back exactly these ten fields in this order. */
  function CanonicalRequest(bodyHash: string, xDate: string): (cr: string)
    ensures '\n' !in bodyHash && '\n' !in xDate ==>
      Split(cr, '\n') == [Method, Path, "", "content-type:application/json", "host:" + Host,
                          "x-content-sha256:" + bodyHash, "x-date:" + xDate, "", SignedHeaders, bodyHash]
  {
    var fields := [Method, Path, "", "content-type:application/json", "host:" + Host,
                   "x-content-sha256:" + bodyHash, "x-date:" + xDate, "", SignedHeaders, bodyHash];
    if '\n' !in bodyHash && '\n' !in xDate then
      CanonicalConstantsHaveNoLineFeed();
      assert forall i :: 0 <= i < |fields| ==> '\n' !in fields[i];
      SplitJoin(fields, '\n');
      Join(fields, '\n')
    else
      Join(fields, '\n')
  }

  lemma CanonicalConstantsHaveNoLineFeed()
    ensures '\n' !in Method && '\n' !in Path && '\n' !in "content-type:application/json"
    ensures '\n' !in "host:" + Host && '\n' !in "x-content-sha256:" && '\n' !in "x-date:" && '\n' !in SignedHeaders
  {
    RequestLineHasNoLineFeed();
    SignedHeadersHaveNoLineFeed();
  }

  lemma RequestLineHasNoLineFeed()
    ensures '\n' !in Method && '\n' !in Path && '\n' !in "content-type:application/json"
  {
  }

  lemma SignedHeadersHaveNoLineFeed()
    ensures '\n' !in SignedHeaders
  {
  }

  /** The signed-header list is the four names joined by `;`, and splitting
      it at `;` gives those names back. */
  lemma SignedHeaderList()
    ensures SignedHeaders == Join(SignedHeaderNames, ';')
    ensures Split(SignedHeaders, ';') == SignedHeaderNames
  {
    var n0, n1, n2, n3 := "content-type", "host", "x-content-sha256", "x-date";
    assert ";" == [';'];
    Join4(n0, n1, n2, n3, ';');
    SplitFour(n0, n1, n2, n3, ';');
  }

  /** The signed header names are in strictly ascending order. */
  lemma SignedHeaderNamesAscending()
    ensures StrictlyAscending(SignedHeaderNames)
  {
    var n := SignedHeaderNames;
    assert LexLess(n[0], n[1]) && LexLess(n[1], n[2]);
    assert LexLess(n[0], n[2]) && LexLess(n[0], n[3]) && LexLess(n[1], n[3]);
    assert LexLess(n[2][2..], n[3][2..]);
    assert LexLess(n[2][1..], n[3][1..]);
    assert LexLess(n[2], n[3]);
  }

  /** The header lines of the canonical request start with the signed header
      names in the order of the list, each followed by `:`, and the list
      itself is the ninth line. */
  lemma CanonicalHeaderOrder(bodyHash: string, xDate: string)
    requires '\n' !in bodyHash && '\n' !in xDate
    ensures forall i :: 0 <= i < 4 ==>
      IsPrefix(SignedHeaderNames[i] + ":", Split(CanonicalRequest(bodyHash, xDate), '\n')[3 + i])
    ensures Split(CanonicalRequest(bodyHash, xDate), '\n')[8] == SignedHeaders
  {
    var fields := Split(CanonicalRequest(bodyHash, xDate), '\n');
    assert fields == [Method, Path, "", "content-type:application/json", "host:" + Host,
                      "x-content-sha256:" + bodyHash, "x-date:" + xDate, "", SignedHeaders, bodyHash];
    HeaderLinesFollowNames(fields, bodyHash, xDate);
  }

  lemma HeaderLinesFollowNames(fields: seq<string>, bodyHash: string, xDate: string)
    requires fields == [Method, Path, "", "content-type:application/json", "host:" + Host,
                        "x-content-sha256:" + bodyHash, "x-date:" + xDate, "", SignedHeaders, bodyHash]
    ensures forall i :: 0 <= i < 4 ==> IsPrefix(SignedHeaderNames[i] + ":", fields[3 + i])
  {
    var values := [ContentType, Host, bodyHash, xDate];
    CanonicalLineText(bodyHash, xDate);
    assert fields[3..7] == ["content-type:application/json", "host:" + Host, "x-content-sha256:" + bodyHash, "x-date:" + xDate];
    forall i | 0 <= i < 4
      ensures IsPrefix(SignedHeaderNames[i] + ":", fields[3 + i])
    {
      assert fields[3 + i] == fields[3..7][i] == SignedHeaderNames[i] + ":" + values[i];
      PrefixOfConcat(SignedHeaderNames[i] + ":", values[i]);
    }
  }

  /** Each header line of the canonical request is a signed name, `:` and the header's value. */
  lemma CanonicalLineText(bodyHash: string, xDate: string)
    ensures [SignedHeaderNames[0] + ":" + ContentType, SignedHeaderNames[1] + ":" + Host,
             SignedHeaderNames[2] + ":" + bodyHash, SignedHeaderNames[3] + ":" + xDate] ==
            ["content-type:application/json", "host:" + Host, "x-content-sha256:" + bodyHash, "x-date:" + xDate]
  {
    assert "content-type" + ":" + ContentType == "content-type:application/json";
    assert "host" + ":" == "host:";
    assert "x-content-sha256" + ":" == "x-content-sha256:";
    assert "x-date" + ":" == "x-date:";
  }

  // --------------------------------------------------------------- signing

  /** `{date}/{region}/{service}/request`; when the date holds no `/` the
      scope splits into exactly those four parts. */
  function CredentialScope(date: string): (scope: string)
    ensures '/' !in date ==> Split(scope, '/') == [date, Region, Service, "request"]
    ensures '\n' !in date ==> '\n' !in scope
  {
    var scope := date + "/" + Region + "/" + Service + "/" + "request";
    if '/' !in date then
      ScopeConstantsHaveNoSlash();
      SplitAtSlashes(date, Region, Service, "request");
      scope
    else
      scope
  }

  /** The algorithm, the `X-Date` text, the scope and the canonical request's
      hash, joined by line feeds; splitting gives back exactly these four. */
  function StringToSign(xDate: string, scope: string, canonicalHash: string): (sts: string)
    ensures '\n' !in xDate && '\n' !in scope && '\n' !in canonicalHash ==>
      Split(sts, '\n') == [Algorithm, xDate, scope, canonicalHash]
  {
    var fields := [Algorithm, xDate, scope, canonicalHash];
    if '\n' !in xDate && '\n' !in scope && '\n' !in canonicalHash then
      SplitJoin(fields, '\n');
      Join(fields, '\n')
    else
      Join(fields, '\n')
  }

  /** The `Authorization` header. Split at commas, its last two pieces are the
      signed-header list and the signature, whatever the access key holds. */
  function Authorization(accessKey: string, scope: string, signature: string): (auth: string)
    ensures ',' !in signature ==>
      var parts := Split(auth, ',');
      |parts| >= 3 && parts[|parts| - 2..] == [" SignedHeaders=" + SignedHeaders, " Signature=" + signature]
  {
    var credential := "HMAC-SHA256 Credential=" + accessKey + "/" + scope;
    var listPart, signaturePart := " SignedHeaders=" + SignedHeaders, " Signature=" + signature;
    var auth := credential + "," + listPart + "," + signaturePart;
    if ',' !in signature then
      ListPartHasNoComma();
      SignaturePartHasNoComma(signature);
      SplitAtCommas(credential, listPart, signaturePart);
      auth
    else
      auth
  }

  /** Four slash-free pieces joined by `/` split back into those pieces. */
  lemma SplitAtSlashes(a: string, b: string, c: string, d: string)
    requires '/' !in a && '/' !in b && '/' !in c && '/' !in d
    ensures Split(a + "/" + b + "/" + c + "/" + d, '/') == [a, b, c, d]
  {
    assert "/" == ['/'];
    SplitFour(a, b, c, d, '/');
  }

  lemma ScopeConstantsHaveNoSlash()
    ensures '/' !in Region && '/' !in Service && '/' !in "request"
  {
  }

  /** Split at commas, a text ending in two comma-free parts ends in those parts. */
  lemma SplitAtCommas(credential: string, listPart: string, signaturePart: string)
    requires ',' !in listPart && ',' !in signaturePart
    ensures var parts := Split(credential + "," + listPart + "," + signaturePart, ',');
      |parts| >= 3 && parts[|parts| - 2..] == [listPart, signaturePart]
  {
    assert "," == [','];
    SplitLastTwo(credential, listPart, signaturePart, ',');
  }

  lemma ListPartHasNoComma()
    ensures ',' !in " SignedHeaders=" + SignedHeaders
  {
  }

  lemma SignaturePartHasNoComma(signature: string)
    requires ',' !in signature
    ensures ',' !in " Signature=" + signature
  {
  }

  /** How a template literal prints an environment value: an absent one as `undefined`. */
  function EnvText(v: Option<string>): (text: string)
    ensures v.Some? ==> text == v.value
    ensures v.None? ==> text == "undefined"
  {
    if v.Some? then v.value else "undefined"
  }

  /** The chain of bindings from the request body to the `Authorization` header. */
  function Sign(p: Platform, question: JsValue, accessKey: string, secretKey: string, clock: Clock): Signing {
    var body := SerializePayload(p, BuildPayload(question));
    var date := DateStamp(clock.iso);
    var bodyHash := HashBase64(p, body);
    var canonical := CanonicalRequest(bodyHash, clock.utc);
    var scope := CredentialScope(date);
    var stringToSign := StringToSign(clock.utc, scope, HashBase64(p, canonical));
    var signature := Signature(p, secretKey, date, stringToSign);
    Signing(body, date, bodyHash, canonical, scope, stringToSign, signature,
            Authorization(accessKey, scope, signature))
  }

  /** Every value is computed once and reused: the body that is hashed is the
      serialised payload; its hash is the canonical request's sixth and tenth
      lines; `X-Date` is its seventh line and the string-to-sign's second; the
      string-to-sign has the four fields algorithm, `X-Date`, scope and
      canonical-request hash; the scope has the four parts date, region,
      service and `request`; the signature is the two-level HMAC of the secret
      key, the date stamp and that string-to-sign. */
  lemma SigningConsistency(p: Platform, question: JsValue, accessKey: string, secretKey: string, clock: Clock)
    requires '\n' !in clock.utc && '\n' !in clock.iso
    ensures var s := Sign(p, question, accessKey, secretKey, clock);
      var fields := Split(s.canonicalRequest, '\n');
      && s.body == SerializePayload(p, BuildPayload(question))
      && s.bodyHash == HashBase64(p, s.body)
      && |fields| == 10 && fields[5] == "x-content-sha256:" + s.bodyHash && fields[9] == s.bodyHash
      && fields[6] == "x-date:" + clock.utc
      && Split(s.stringToSign, '\n') == [Algorithm, clock.utc, s.credentialScope, HashBase64(p, s.canonicalRequest)]
      && ('/' !in clock.iso ==> Split(s.credentialScope, '/') == [s.date, Region, Service, "request"])
      && s.date == DateStamp(clock.iso)
      && s.signature == Signature(p, secretKey, s.date, s.stringToSign)
  {
    var s := Sign(p, question, accessKey, secretKey, clock);
    assert s.canonicalRequest == CanonicalRequest(s.bodyHash, clock.utc);
    CanonicalHashLines(s.bodyHash, clock.utc);
    assert s.credentialScope == CredentialScope(s.date);
    assert '\n' !in s.credentialScope;
    assert s.stringToSign == StringToSign(clock.utc, s.credentialScope, HashBase64(p, s.canonicalRequest));
  }

  /** Where the body hash and `X-Date` stand among the canonical request's lines. */
  lemma CanonicalHashLines(bodyHash: string, xDate: string)
    requires '\n' !in bodyHash && '\n' !in xDate
    ensures var fields := Split(CanonicalRequest(bodyHash, xDate), '\n');
      |fields| == 10 && fields[5] == "x-content-sha256:" + bodyHash && fields[9] == bodyHash
      && fields[6] == "x-date:" + xDate
  {
    var lines := [Method, Path, "", "content-type:application/json", "host:" + Host,
                  "x-content-sha256:" + bodyHash, "x-date:" + xDate, "", SignedHeaders, bodyHash];
    assert Split(CanonicalRequest(bodyHash, xDate), '\n') == lines;
    assert |lines| == 10 && lines[5] == "x-content-sha256:" + bodyHash && lines[6] == "x-date:" + xDate;
  }

  /** The POST handed to `fetch`. A server looking its headers up by name,
      without case, finds the values the signing used. */
  function Outbound(s: Signing, clock: Clock): (r: Request)
    ensures r.body == s.body && r.httpMethod == Method && r.url == "https://" + Host + Path
    ensures Header(r.headers, "content-type") == Some(ContentType)
    ensures Header(r.headers, "host") == Some(Host)
    ensures Header(r.headers, "x-content-sha256") == Some(s.bodyHash)
    ensures Header(r.headers, "x-date") == Some(clock.utc)
    ensures Header(r.headers, "authorization") == Some(s.authorization)
  {
    var headers := [
      ("Content-Type", ContentType),
      ("X-Date", clock.utc),
      ("X-Content-Sha256", s.bodyHash),
      ("Authorization", s.authorization),
      ("Host", Host)];
    HeaderLookup(ContentType, clock.utc, s.bodyHash, s.authorization, Host);
    Request("https://" + Host + Path, Method, headers, s.body)
  }

  /** The outbound header names, lower-cased, are the names a server looks up. */
  lemma LowerHeaderNames()
    ensures Lower("Content-Type") == "content-type"
    ensures Lower("X-Date") == "x-date"
    ensures Lower("X-Content-Sha256") == "x-content-sha256"
    ensures Lower("Authorization") == "authorization"
    ensures Lower("Host") == "host"
  {
    LowerContentType();
    LowerContentSha256();
    LowerAuthorization();
  }

  lemma LowerContentType()
    ensures Lower("Content-Type") == "content-type"
  {
  }

  lemma LowerContentSha256()
    ensures Lower("X-Content-Sha256") == "x-content-sha256"
  {
  }

  lemma LowerAuthorization()
    ensures Lower("Authorization") == "authorization"
  {
  }

  /** Looking up the five outbound headers by their lower-cased names. */
  lemma HeaderLookup(contentType: string, xDate: string, bodyHash: string, auth: string, host: string)
    ensures var headers := [
        ("Content-Type", contentType), ("X-Date", xDate), ("X-Content-Sha256", bodyHash),
        ("Authorization", auth), ("Host", host)];
      && Header(headers, "content-type") == Some(contentType)
      && Header(headers, "x-date") == Some(xDate)
      && Header(headers, "x-content-sha256") == Some(bodyHash)
      && Header(headers, "authorization") == Some(auth)
      && Header(headers, "host") == Some(host)
  {
    var headers := [
      ("Content-Type", contentType), ("X-Date", xDate), ("X-Content-Sha256", bodyHash),
      ("Authorization", auth), ("Host", host)];
    var names := ["content-type", "x-date", "x-content-sha256", "authorization", "host"];
    LowerHeaderNames();
    assert |names[0]| == 12 && |names[1]| == 6 && |names[2]| == 16 && |names[3]| == 13 && |names[4]| == 4;
    HeadersByDistinctNames(headers, names);
    assert Header(headers, names[0]) == Some(contentType) && Header(headers, names[1]) == Some(xDate);
    assert Header(headers, names[2]) == Some(bodyHash) && Header(headers, names[3]) == Some(auth);
    assert Header(headers, names[4]) == Some(host);
  }

  // --------------------------------------------------------------- handler

  /** The handler for a parsed request body. A `null` or absent body makes
      the destructuring throw, and an absent secret key makes `createHmac`
      throw: both end in the 500 response. A falsy question ends in the 400
      response before anything is hashed or sent. An absent access key is not
      an error: the header then says `Credential=undefined/...`. */
  function Handle(p: Platform, body: JsValue, env: Env, clock: Clock): (r: Outcome)
    ensures r.Respond? && r.status == 400 <==>
      !body.Undefined? && !body.Null? && !Truthy(Property(body, "question"))
    ensures r.Respond? && r.status == 500 <==>
      body.Undefined? || body.Null? || (Truthy(Property(body, "question")) && env.secretKey.None?)
    ensures r.Respond? ==> (r.status == 400 && r.error == InvalidQuestion) || (r.status == 500 && r.error == InvocationFailed)
    ensures r.Send? ==>
      && !body.Undefined? && !body.Null? && Truthy(Property(body, "question")) && env.secretKey.Some?
      && r.request.body == SerializePayload(p, BuildPayload(Property(body, "question")))
  {
    if body.Undefined? || body.Null? then Respond(500, InvocationFailed)
    else
      var question := Property(body, "question");
      if !Truthy(question) then Respond(400, InvalidQuestion)
      else if env.secretKey.None? then Respond(500, InvocationFailed)
      else
        var s := Sign(p, question, EnvText(env.accessKey), env.secretKey.value, clock);
        Send(Outbound(s, clock))
  }
}
