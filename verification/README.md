# Signed chat request of `api/chat.js`, modelled in Dafny

`api/chat.js` is a serverless handler. It takes a question from the
request body and builds a chat-completion payload for the Volcengine Doubao
API. It signs the payload with an HMAC-SHA256 canonical-request scheme and
sends it upstream. This project models that pipeline as pure functions and
proves what each step promises and how the steps fit together:

- **Validation:** the question is read by destructuring `req.body` and
  judged by JavaScript truthiness.
- **Payload:** `JSON.stringify` of one user message plus a fixed model,
  temperature and token limit.
- **Date stamp:** the date part of `toISOString()`, without its dashes.
- **Canonical request:** ten lines joined by line feeds. It carries the body
  hash twice and the four signed header lines in the order of the
  signed-header list.
- **Credential scope:** `{date}/{region}/{service}/request`.
- **String-to-sign:** four lines.
- **Signature:** the HMAC-SHA256 of the string-to-sign under a key that is
  itself the HMAC-SHA256 of the date stamp under the secret key.
- **Authorization header and outbound request:** the header text and the
  POST handed to `fetch`.

Modules, one per file:

- **`Text`** (`text.dfy`): JavaScript's `split`, `join` and
  `replace(/c/g, '')` for one-character separators, with their round trips.
  Also ASCII lower-casing and the string order `<` on text of the Basic
  Multilingual Plane.
- **`Base64`** (`base64.dfy`): the padded encoding of section 4 of RFC 4648
  that `digest('base64')` produces, and a decoder proved to invert it.
- **`Json`** (`json.dfy`):
  - the JavaScript values a parsed body can hold, with truthiness and
    property lookup;
  - `JSON.stringify` of a string (QuoteJSONString, section 25.5.2.3 of the
    ECMAScript language specification);
  - a string-literal reader as in section 7 of RFC 8259, proved to undo it.
- **`Runtime`** (`runtime.dfy`): the `Platform` record.
  - UTF-8 encoding, SHA-256, HMAC-SHA256 and `JSON.stringify` of numbers are
    its function-valued fields. Every operation receives it, so no proof
    depends on how these primitives work inside.
  - Also the base-64 body hash and the two-level signature.
- **`Http`** (`http.dfy`): the outbound request, and header lookup by name
  without regard to case.
- **`Chat`** (`chat.dfy`): the handler itself. It has the constants of the
  source, every step of the signing chain, and `Handle`, which is either the
  handler's own error response or the signed request it sends.
- **`Upstream`** (`upstream.dfy`): a server that checks such requests.
  - It parses the `Authorization` header from the right, so an access key
    may hold `,` or `/`.
  - It rebuilds the canonical request from the headers named in the
    signed-header list, and the string-to-sign from the credential.
  - It recomputes the signature.
  - It is a model of the receiving server, built from the request alone,
    that `Agreement` checks the handler against. Its HMAC chain is written
    from the platform's UTF-8, SHA-256 and HMAC-SHA256 primitives and the
    base-64 encoder, not from the handler's signing functions.
- **`Agreement`** (`agreement.dfy`): the theorem `SentRequestAccepted`.
  Every request the handler sends is accepted by that server for region
  `cn-north-1` and service `doubao` under the same secret key. This covers
  the following:
  - The body that is hashed is the body that is sent.
  - The body hash in the canonical request equals the `X-Content-Sha256`
    header.
  - The signed-header list matches the header lines.
  - The scope in the credential is the one in the string-to-sign.
  - The two HMAC levels use the same date stamp.

The clock is the two strings the handler derives from one `new Date()`:
`toUTCString()` as `Clock.utc` and `toISOString()` as `Clock.iso`. The
environment is `Env`, the two values `VOLC_AK` and `VOLC_SK`, each absent or
present.

Behaviour of the code that the model keeps:

- The error texts are the code's Chinese strings: "请输入有效的问题" for the
  400 response and "云函数调用失败" for the 500 response.
- Only an absent secret key is fatal, because `createHmac` throws.
  An absent `VOLC_AK` is not an error: the template literal writes
  `Credential=undefined/...` and the request is still sent.
- The 400 check is `!question`. It also rejects `0`, `false` and `null`, and
  it lets through any truthy non-string value, such as a number or an object.
  That value is then serialised into the message.
- A `null` or absent `req.body` makes the destructuring throw inside the
  `try`, so it ends in the 500 response, not the 400.

## Model

| member | source | states |
|---|---|---|
| Chat.Handle | api/chat.js:16-96 | A 400 response exactly when the body is an object-like value whose `question` is falsy, with the text "请输入有效的问题". A 500 response exactly when the body is absent or `null`, or the question is truthy and the secret key is absent, with the text "云函数调用失败". Otherwise the request is sent, its body is the serialised payload of that question, and a secret key is present. |
| Chat.BuildPayload | api/chat.js:33-38 | Exactly one message, with role `user` and content equal to the question. The model is `doubao-pro`, the temperature 0.7 and `max_tokens` 2000. |
| Chat.StringifyValue | api/chat.js:35 | A string content is written as a JSON literal that reads back as the same string. |
| Chat.PayloadCarriesQuestion | api/chat.js:33-38 | For a string question the body is a fixed prefix, the question's literal and a fixed suffix. Reading the literal after the prefix gives the question unchanged and leaves the suffix. |
| Chat.DateStamp | api/chat.js:43 | The stamp holds no `-` and no `T`, and only characters of the ISO text. |
| Chat.DateStampOfIso | api/chat.js:41-43 | For a `YYYY-MM-DDTHH:mm:ss.sssZ` timestamp the stamp is `YYYY`+`MM`+`DD`: eight digits. |
| Chat.CanonicalRequest | api/chat.js:47-58 | Split at line feeds, the canonical request is exactly the ten fields in source order: method, path, empty query, the four header lines, a blank line, the signed-header list and the body hash. This holds whenever the hash and `X-Date` hold no line feed. |
| Chat.CanonicalHashLines | api/chat.js:53-57 | The canonical request has ten lines. The body hash is line 10 and appears in line 6 as `x-content-sha256:`. `X-Date` is line 7. |
| Chat.SignedHeaderList | api/chat.js:56 | The signed-header list is the four names joined by `;`, and splitting it at `;` gives them back. |
| Chat.SignedHeaderNamesAscending | api/chat.js:56 | The signed header names are strictly ascending. |
| Chat.CanonicalHeaderOrder | api/chat.js:51-56 | Header line *i* of the canonical request starts with signed name *i* followed by `:`. The ninth line is the signed-header list. |
| Chat.CredentialScope | api/chat.js:61 | For a date without `/`, the scope splits at `/` into exactly date, `cn-north-1`, `doubao`, `request`. |
| Chat.StringToSign | api/chat.js:62-67 | Split at line feeds, the string-to-sign is exactly the four fields: `HMAC-SHA256`, `X-Date`, the scope and the canonical-request hash. |
| Chat.Authorization | api/chat.js:70 | Split at commas, the header's last two parts are ` SignedHeaders=` with the same list as the canonical request, and ` Signature=` with the signature. This holds whatever the access key holds. |
| Chat.SigningConsistency | api/chat.js:33-69 | Each value is computed once and reused. The hashed body is the serialised payload. Its hash is canonical lines 6 and 10. `X-Date` is canonical line 7 and string-to-sign field 2. The string-to-sign is the algorithm, `X-Date`, scope and canonical hash. The scope is date, region, service and `request`. The date is the stamp of the ISO time. The signature is the two-level HMAC over that string-to-sign. |
| Chat.Outbound | api/chat.js:73-83 | The request goes as a POST to `https://open.volcengineapi.com/api/v1/chat/completions` with the signed body. Looking up `content-type`, `host`, `x-content-sha256`, `x-date` and `authorization` without case gives the values the signing used. |
| Runtime.HashBase64 | api/chat.js:44 | The body hash is base-64 text, so it holds no line feed, comma, semicolon or colon. |
| Runtime.Signature | api/chat.js:68-69 | The signature is base-64 text, so it holds no line feed or comma. |
| Base64.EncodeLength | api/chat.js:44 | The encoding of *n* bytes has 4·⌈n/3⌉ characters. |
| Base64.EncodeAlphabet | api/chat.js:44 | Every character of an encoding is from the base-64 alphabet or the pad `=`. |
| Base64.DigitValue | api/chat.js:44 | A character has a 6-bit value exactly when it is in the alphabet, and that value's digit is the character. |
| Base64.DecodeQuad | api/chat.js:44 | A group of four characters decodes to one to three bytes, and to fewer than three only when it is the final group. |
| Base64.DecodeEncode | api/chat.js:44 | Decoding an encoding gives the digest bytes back. |
| Json.Property | api/chat.js:18 | For a key that no prototype defines, such as `question`, destructuring it from a non-object value gives `undefined`. |
| Json.Lookup | api/chat.js:18 | A key that is not present gives `undefined`. When the key is present, the value is that of its last entry, as `JSON.parse` keeps the later of duplicate keys. |
| Json.Quote | api/chat.js:33-38 | A serialised string is delimited by quotes and holds no raw line feed. |
| Json.EscapePlain | api/chat.js:33-38 | Text of plain printable characters other than `"` and `\` is serialised unchanged. |
| Json.ReadQuote | api/chat.js:33-38 | Reading the literal that `JSON.stringify` writes for a string gives the string back and leaves what follows. |
| Text.Split | api/chat.js:43 | The result is never empty, and no piece holds the separator. Text without the separator is a single piece. |
| Text.SplitJoin | api/chat.js:58 | Joining separator-free fields and splitting again gives the fields back. |
| Text.JoinSplit | api/chat.js:58 | Splitting and joining again gives the text back. |
| Text.SplitAppend | api/chat.js:43 | Splitting at one separator splits each side independently. |
| Text.RemoveAll | api/chat.js:43 | The result holds no occurrence of the character and only characters of the input. Text without the character is unchanged. |
| Text.RemoveTwoSeparators | api/chat.js:43 | Removing `-` from `Y-M-D`, when the pieces hold none, gives `YMD`. |
| Http.HeaderSpec | api/chat.js:75-81 | A header found has a name equal to the requested one without case. Nothing is found exactly when no name matches. |
| Http.HeadersByDistinctNames | api/chat.js:75-81 | When the header names are distinct without case, looking each one up finds its own header's value. |
| Http.HeaderAt | api/chat.js:75-81 | The first header whose name matches is the one found. |
| Upstream.ParseCredential | api/chat.js:61 | A parsed credential's date and terminator hold no `/`. |
| Upstream.ParseAuthorization | api/chat.js:70 | A parsed signature holds no comma, and no parsed signed-header name holds `;`. |
| Upstream.HeaderLines | api/chat.js:51-54 | When the lines exist there is one per signed name. |
| Upstream.HeaderLinesSpec | api/chat.js:51-54 | The lines exist exactly when every signed name is found among the headers. Line *i* is signed name *i*, `:`, and the value of the header of that name. |
| Agreement.CredentialRoundTrip | api/chat.js:61 | `{AK}/{scope}` reads back as the access key, the date, region `cn-north-1`, service `doubao` and `request`, for any access key. |
| Agreement.AuthorizationRoundTrip | api/chat.js:70 | The `Authorization` header parses back into the credential it names, the four signed header names and the signature. |
| Agreement.RebuiltHeaderLines | api/chat.js:51-54 | The header lines a server rebuilds from the sent headers are the canonical request's header lines, in the same order. |
| Agreement.RebuiltCanonical | api/chat.js:47-58 | The canonical request rebuilt from the sent method, path, headers and body is the one that was signed. |
| Agreement.DigestIsHashBase64 | api/chat.js:44 | The server's digest, base 64 of SHA-256 of the UTF-8 bytes, is the handler's body hash. |
| Agreement.TwoLevelHmac | api/chat.js:68-69 | The server's two HMAC levels, first the date stamp keyed by the secret key and then the string-to-sign keyed by that result, give the handler's signature. |
| Agreement.ExpectedSignatureSteps | api/chat.js:61-69 | Given the parsed header, the header lines and the rebuilt canonical request and scope, the server's expected signature is the two-level HMAC over the rebuilt string-to-sign. |
| Agreement.ChainVerifies | api/chat.js:44-83 | A signing record chained as the handler chains it yields a request whose expected signature is the signature sent. |
| Agreement.SignedRequestVerifies | api/chat.js:40-83 | For the handler's signing chain, the server's expected signature for the sent request is the signature in its header. |
| Agreement.SignedRequestAccepted | api/chat.js:40-83 | A request built by the handler's signing chain is accepted for region `cn-north-1` and service `doubao` under the secret key it was signed with. |
| Agreement.SignedRequestCredential | api/chat.js:40-83 | The request built by the signing chain carries the clock's `toUTCString()` as `X-Date`, and its `Authorization` header parses to a credential naming the given access key, the date stamp of the same clock's `toISOString()`, `cn-north-1`, `doubao` and `request`. |
| Agreement.SentRequestAccepted | api/chat.js:16-83 | Whenever the handler sends a request, the secret key is present and the request is accepted for region `cn-north-1` and service `doubao` under that key: the scope ends in `request`, `X-Content-Sha256` is the hash of the body sent, and the signature matches. The request carries the handler's clock as `X-Date`, and its credential names `VOLC_AK` and the date stamp of that same clock. |

## Left out

- The CORS headers and the `OPTIONS` preflight (lines 6-14) are HTTP plumbing that reaches no part of the signing.
- The network call and the relay are not modelled: awaiting `fetch`, parsing the reply with `json()` and returning it with status 200 (lines 73, 86-87). `Handle` ends in the request it sends. A network or parse failure would also end in the 500 response. The code relays any parsed reply with 200, whatever the upstream status.
- The `detail` field of the 500 response, `error.message`, is not modelled. It depends on the runtime's exception text.
- UTF-8 encoding, SHA-256 and HMAC-SHA256 are uninterpreted fields of `Platform`. Proofs hold for every choice of them, and nothing is claimed about their cryptographic strength.
- `JSON.stringify` of numbers, arrays and objects is the uninterpreted `Platform.stringifyOther`, and numbers are exact reals. Float formatting is not modelled. This covers the temperature 0.7, `max_tokens` 2000 and a non-string question.
- Json.ReadChar: strings are sequences of Unicode scalar values. A lone surrogate, which a JavaScript string can hold, is not representable. The reader refuses `\u` escapes of surrogates and does not read surrogate pairs.
- The clock is the two strings `toUTCString()` and `toISOString()`. That they come from one instant is not modelled beyond their being passed together. `DateStampOfIso` covers only the 24-character form of years 0 to 9999.
- Chat.SigningConsistency: assumes `X-Date` and the ISO text hold no line feed. `toUTCString` and `toISOString` never produce one, but the model takes them as arbitrary strings.
- Agreement.SentRequestAccepted: assumes the ISO text holds no `/`, which `toISOString` never produces.
- Base64.Decode accepts non-zero pad bits. Only `DecodeEncode` is claimed of it.
- `process.env` is the `Env` parameter.
- Json.Property: only own properties are modelled. Keys a prototype defines, such as `length` or `toString`, are not. The handler reads only `question`.
- Text.LexLess: compares code points, which agrees with JavaScript's UTF-16 order only on text of the Basic Multilingual Plane. The signed header names are ASCII.
