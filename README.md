# SAML 2.0 Service Provider core, modelled in Dafny

This project models the protocol logic of a small SAML 2.0 Service Provider (SP) written for Node.js and Express. It covers three parts:

- **Outbound messages** (`src/utils/saml.js`). The SP builds an AuthnRequest, a LogoutRequest and a LogoutResponse. Each is rendered from an XML template, encoded as UTF-8 and base64, and sent with the HTTP-Redirect binding's query layout. The string-to-sign is kept apart from that layout: the message parameter, then `RelayState` when there is one, then `SigAlg`, each `encodeURIComponent`-encoded. The query is filled one `URLSearchParams.append` at a time, and the `Signature` over the string-to-sign is appended last. Messages are not DEFLATE-compressed: the code sends them uncompressed, and so does the model.
- **Inbound messages** (`src/utils/saml-response.js`). The three processors base64-decode the message and parse it into an `xml2js` object tree. They verify the signature over a separate DOM view of the same text, using the first `saml:Assertion` in document order and the first `ds:Signature` below it. Only then do they read fields from the object tree. A missing piece throws a format error, though not one per piece: missing Subject and missing NameID share a message, and so do the three pieces a LogoutResponse needs.
- **Routes** (`src/app.js`). There are three:
  - `/acs` stores the user in the session and picks an error view when login fails.
  - `/logout` starts SP-initiated logout.
  - The single-logout handler answers either an IdP-initiated LogoutRequest or the IdP's LogoutResponse, and destroys the session on every path.

The model is organised into these modules:

- **`Saml`** builds the outbound messages, with the class `SearchParams` for the parameter list the builders append to. **`SamlProperties`** holds the lemmas about those messages.
- **`UriEncoding`, `Base64` and `BindingNames`** are concrete models of UTF-8 encoding, `encodeURIComponent`, the `application/x-www-form-urlencoded` serializer and base64. They also hold the facts about the fixed parameter names and the fixed SigAlg URI.
- **`JsValues`** models the JavaScript values `xml2js` produces: property reads that throw on `undefined` and `null`, truthiness, `||` and string conversion.
- **`XmlDom`** models the namespaced element tree that the XPath selections run over.
- **`SamlResponse`** holds the processors and `verifySignature`. **`InboundProperties`** holds their lemmas.
- **`App`** holds the class `Server`, which carries the session, with one method per route. **`AppProperties`** holds its lemmas.

The library collaborators are fields of the datatype `SamlResponse.Env`: base64 decoding of inbound text, the `xml2js` parser, the `xmldom` parser and xml-crypto's `checkSignature`. The signer is a parameter `sign: string -> string`. The uuid and the timestamp are parameters. The environment variables form one immutable record, `Saml.Config`.

The model follows the code where it differs from what the SAML bindings, the code's own comments and checks, and the routes' purpose lead one to expect:

- **Logout messages must contain an Assertion.** `verifySignature` looks for a `saml:Assertion` even when it checks a logout message. In SAML, though, a LogoutRequest or LogoutResponse is signed as a whole and carries no Assertion. When both parsers accept a logout message without an Assertion, it is therefore rejected with `Invalid logout signature: Invalid signature: No assertion found` (`InboundProperties.LogoutWithoutAssertionFails`). A parser failure comes first and is passed on without that prefix.
- **A single Attribute is dropped.** With `explicitArray: false`, a lone `Attribute` element is an object, not an array. The attribute map then stays empty, so a response with the single attribute `role=admin` yields `attributes = {}`, not `{role: "admin"}` (`InboundProperties.UserInfoFields`).
- **Errors are not collapsed into one uniform signature error.**
  - Parser errors come before verification and are passed on unwrapped.
  - Verifier errors reach the caller with their detail, prefixed twice: `Invalid signature: Invalid signature: …`.
  - As a result, the `/acs` handler's test for the exact message `Invalid signature` is never met by a verification failure (`AppProperties.SignatureViewOnlyFromParser`).
- **Fields are read from the `xml2js` tree, not from the verified DOM node.** Once verification passes, which node was verified makes no difference to the result (`InboundProperties.FieldsIgnoreVerifiedNode`).
- **The two encoders differ.** The string-to-sign uses `encodeURIComponent`, while the query uses the form serializer. They disagree on space and `!'()~`. For a RelayState such as `~`, the signed string and the sent query therefore differ (`SamlProperties.TildeRelayStateIsSignedUnescaped`). The base64 payload and the SigAlg URI never contain those characters. So when the RelayState, a configured URL, contains none of them either, the query repeats the signed string exactly (`SamlProperties.RedirectRepeatsSignedString`). Nothing in the code limits the configured URLs: an `SP_ACS_URL` such as `https://sp.example/~app/acs` is signed with `~` but sent with `%7E`.

## Model

| member | source | states |
|---|---|---|
| Saml.GenerateSamlRequest | src/utils/saml.js:6-41 | The URL built append by append is the IdP SSO URL, `?`, and the signed query of the AuthnRequest with RelayState `SP_ACS_URL` |
| Saml.GenerateLogoutRequest | src/utils/saml.js:43-76 | The URL is the IdP logout URL, `?`, and the signed query of the LogoutRequest for the given NameID and SessionIndex, with RelayState `SP_SLO_URL` |
| Saml.GenerateLogoutResponse | src/utils/saml.js:78-112 | The URL is the IdP logout URL, `?`, and the signed query of the LogoutResponse, without RelayState |
| Saml.SearchParams.Append | src/utils/saml.js:28-38 | `append` adds exactly one name/value pair at the end of the list and changes nothing else |
| SamlProperties.AuthnRequestBuilt | src/utils/saml.js:7-40 | ID is `_` followed by the uuid, so it starts with `_`; the URL starts with the SSO URL and `?`; the XML carries that URL as Destination and the ACS URL as AssertionConsumerServiceURL |
| SamlProperties.LogoutRequestBuilt | src/utils/saml.js:44-75 | ID is `_` followed by the uuid; the URL and the XML Destination are the IdP logout URL; the signed and sent RelayState is the SLO URL |
| SamlProperties.LogoutResponseBuilt | src/utils/saml.js:79-111 | ID is `_` followed by the uuid; the URL and Destination are the logout URL; `InResponseTo` is the argument verbatim; StatusCode `Value` is the status prefix followed by the unchecked status word |
| SamlProperties.AuthnRequestXml | src/utils/saml.js:9-22 | The rendered AuthnRequest holds the ID, IssueInstant, Destination, ACS URL and Issuer exactly as given, unescaped |
| SamlProperties.LogoutRequestXml | src/utils/saml.js:46-57 | The rendered LogoutRequest holds ID, IssueInstant, Destination, Issuer, NameID and SessionIndex exactly as given |
| SamlProperties.LogoutResponseXml | src/utils/saml.js:81-94 | The rendered LogoutResponse holds ID, IssueInstant, Destination, InResponseTo, Issuer and the status URN exactly as given |
| SamlProperties.RequestStringToSign | src/utils/saml.js:36 | A request's string-to-sign is `SAMLRequest=`enc(payload)`&RelayState=`enc(relay)`&SigAlg=`enc(sigAlg), in that order |
| SamlProperties.ResponseStringToSign | src/utils/saml.js:107 | The response's string-to-sign is `SAMLResponse=`enc(payload)`&SigAlg=`enc(sigAlg), with no RelayState |
| SamlProperties.EnvelopeShape | src/utils/saml.js:29-34 | The signed parameters are the message, then RelayState when given, then SigAlg; none is named Signature or contains `&` |
| SamlProperties.SignedQueryLayout | src/utils/saml.js:28-40 | No signed parameter is a Signature; the string-to-sign splits into the encodeURIComponent fields in order; the query splits into the same parameters' form fields, then the Signature over the string-to-sign as the last field |
| SamlProperties.SignedQuerySplits | src/utils/saml.js:37-40 | Splitting the sent query at `&` gives the parameters' fields and then the Signature field |
| SamlProperties.SerializeSplits | src/utils/saml.js:40 | Splitting a serialized query at `&` gives back its fields |
| SamlProperties.StringToSignSplits | src/utils/saml.js:36 | Splitting a string-to-sign at `&` gives back its fields when no name contains `&` |
| SamlProperties.SignatureAppended | src/utils/saml.js:38-40 | Appending the Signature adds `&Signature=` and its form-encoded value at the very end of the query |
| SamlProperties.QueryRepeatsSignedString | src/utils/saml.js:28-40 | When payload, RelayState and SigAlg have no character on which the encoders differ, the query is the string-to-sign followed by `&Signature=` and the encoded signature |
| SamlProperties.RedirectRepeatsSignedString | src/utils/saml.js:33-40 | For every message, and a RelayState free of space and `!'()~`, the redirect URL is the destination, `?`, the signed string, then the Signature |
| SamlProperties.TildeRelayStateIsSignedUnescaped | src/utils/saml.js:30-36 | A RelayState `~` is signed as `RelayState=~` but sent as `RelayState=%7E`, so query and signed string differ |
| SamlProperties.PayloadDecodes | src/utils/saml.js:25 | The base64 payload decodes back to the UTF-8 bytes of the rendered XML |
| SamlProperties.SerializeMatchesStringToSign | src/utils/saml.js:36-40 | With form-safe names and values on which the encoders agree, the query fields equal the signed fields |
| BindingNames.SigAlgAgrees | src/utils/saml.js:33 | The SigAlg URI `http://www.w3.org/2001/04/xmldsig-more#rsa-sha256` holds no character on which the two encoders differ |
| BindingNames.MessageNameUnchanged | src/utils/saml.js:29 | The names `SAMLRequest` and `SAMLResponse` pass the form serializer unchanged |
| BindingNames.SignatureNameUnchanged | src/utils/saml.js:38 | The name `Signature` passes the form serializer unchanged |
| UriEncoding.EncodersAgree | src/utils/saml.js:36-40 | `encodeURIComponent` and the form serializer agree on every string without space or `!'()~` |
| UriEncoding.EncodersDisagreeOnTilde | src/utils/saml.js:36-40 | The encoders differ on `~`: `encodeURIComponent` keeps it, the form serializer writes `%7E` |
| UriEncoding.EncodersDisagreeOnSpace | src/utils/saml.js:36-40 | The encoders differ on space: `%20` against `+` |
| UriEncoding.EncodeUriComponentAlphabet | src/utils/saml.js:36 | `encodeURIComponent` output holds only RFC 2396 unreserved characters and the `%` of its escapes |
| UriEncoding.FormEncodeAlphabet | src/utils/saml.js:40 | The form serializer's output holds only alphanumerics, `*-._`, the `+` for space and the `%` of its escapes |
| UriEncoding.NoDelimitersAfterEncoding | src/utils/saml.js:36-40 | Neither encoder's output contains `&` or `=`, so the fields split back uniquely |
| UriEncoding.Utf8RoundTrip | src/utils/saml.js:25 | The UTF-8 bytes of a code point decode back to it, and its continuation bytes lie in 0x80-0xBF |
| Base64.DecodeEncode | src/utils/saml.js:25 | Base64 decoding inverts base64 encoding |
| Base64.Encode | src/utils/saml.js:25 | Base64 output is four characters for every started group of three bytes |
| Base64.EncodeAlphabet | src/utils/saml.js:25 | Every character of base64 output is from the base64 alphabet or the `=` padding |
| Base64.EncodedAgreesForBothEncoders | src/utils/saml.js:25-36 | A base64 payload holds no character on which the two encoders differ |
| SamlResponse.Verifier | src/utils/saml-response.js:154-198 | The verifier uses `wssecurity` IDs, the fixed enveloped-signature and exc-c14n transforms, and a PEM certificate containing the configured one |
| SamlResponse.VerifySignature | src/utils/saml-response.js:149-215 | Every failure of `verifySignature` carries the `Invalid signature: ` prefix |
| SamlResponse.Rethrow | src/utils/saml-response.js:211-214 | A caught error is rethrown with the prefix before its message; success passes through |
| SamlResponse.ReadUserInfo | src/utils/saml-response.js:33-71 | The fields are read only after the Response, Assertion, Subject and NameID checks have all passed: a user is returned only when each of these is present and truthy |
| SamlResponse.ProcessSamlResponse | src/utils/saml-response.js:9-72 | The imperative processor, with its early returns and the attribute map filled in place, returns exactly `SamlResponseResult` |
| SamlResponse.CollectAttributes | src/utils/saml-response.js:63-68 | The in-place `forEach` over the Attribute array yields exactly the attribute map `AttributeMap`, or the first read error |
| XmlDom.FirstMatch | src/utils/saml-response.js:167-178 | The first XPath match is the earliest named node in document order; there is none exactly when no node has the name |
| XmlDom.Matching | src/utils/saml-response.js:167 | Selection keeps exactly the nodes with the namespace and local name |
| InboundProperties.VerifySignatureSelectsFirst | src/utils/saml-response.js:167-208 | Verification succeeds if and only if the DOM parses and `checkSignature` is true for the first Assertion in document order and the first Signature below it |
| InboundProperties.NoAssertionNeverVerifies | src/utils/saml-response.js:167-170 | A document with no `saml:Assertion` always fails with `Invalid signature: No assertion found` |
| InboundProperties.UnsignedAssertionNeverVerifies | src/utils/saml-response.js:174-177 | A first Assertion with no `ds:Signature` below it fails with `No signature found in assertion`, prefixed |
| InboundProperties.RejectedSignature | src/utils/saml-response.js:204-208 | `checkSignature` returning false gives `Invalid signature: Invalid signature` |
| InboundProperties.SamlResponseVerifiesFirst | src/utils/saml-response.js:22-31 | Parser errors pass through unwrapped; a verification failure is rethrown with a second `Invalid signature: ` prefix whatever the tree holds; success implies verification passed |
| InboundProperties.VerificationFailureIgnoresTree | src/utils/saml-response.js:26-31 | When verification fails, the parsed tree's contents make no difference to the result |
| InboundProperties.FieldsIgnoreVerifiedNode | src/utils/saml-response.js:26-50 | Once verification passes, the result depends only on the object tree, not on which DOM node was verified |
| InboundProperties.StructuralChecksInOrder | src/utils/saml-response.js:34-48 | For any parsed root other than `undefined` and `null`: missing Response, then missing Assertion, then missing Subject or NameID, each with its error, in that order |
| InboundProperties.StructuralMessagesMentionAssertion | src/utils/saml-response.js:39-47 | The missing-Assertion and missing-Subject messages contain `Assertion` |
| InboundProperties.UserInfoFields | src/utils/saml-response.js:50-71 | nameID is `NameID._`; sessionIndex is AuthnStatement's `SessionIndex` when it exists, else null; the attribute map is the loop's result for an Attribute array and empty otherwise |
| InboundProperties.ReadUserInfoErrors | src/utils/saml-response.js:34-68 | After verification the only errors are the three format errors and property-read TypeErrors |
| InboundProperties.PathThrowsReadErrors | src/utils/saml-response.js:54 | A chain of property reads throws only the read TypeError |
| InboundProperties.FillThrowsReadErrors | src/utils/saml-response.js:64-68 | The attribute loop throws only read TypeErrors |
| InboundProperties.AttributeEntryMeaning | src/utils/saml-response.js:65-67 | An attribute's key is `$.Name` as a string; its value is `AttributeValue._` when truthy, else the `AttributeValue` node; reads fail exactly when a path is unreadable |
| InboundProperties.FillCompletes | src/utils/saml-response.js:63-68 | The loop completes if and only if every attribute's reads succeed |
| InboundProperties.FillLastWins | src/utils/saml-response.js:63-68 | With repeated names, the last attribute with a name gives its value |
| InboundProperties.FillKeepsUnwritten | src/utils/saml-response.js:63-68 | A name that no remaining attribute carries keeps its earlier value, or stays absent |
| InboundProperties.FillKeys | src/utils/saml-response.js:63-68 | Every key of the finished map is the name of some attribute |
| SamlResponse.LogoutResponseResult | src/utils/saml-response.js:74-110 | processLogoutResponse succeeds only when the message parses, its signature verifies and `LogoutResponse.Status.StatusCode.$.Value` is exactly the Success URN |
| SamlResponse.LogoutRequestResult | src/utils/saml-response.js:112-147 | processLogoutRequest succeeds only when the message parses and its signature verifies; it then returns the root's `$.ID`, which is truthy |
| InboundProperties.LogoutResponseSucceeds | src/utils/saml-response.js:90-109 | processLogoutResponse succeeds if and only if verification passes, LogoutResponse, Status and StatusCode exist, and `Value` equals the Success URN exactly |
| InboundProperties.LogoutResponsePaths | src/utils/saml-response.js:98-104 | The reads of processLogoutResponse, written as paths from the root |
| InboundProperties.LogoutResponseFailures | src/utils/saml-response.js:90-107 | Its failures: the logout-signature prefix on verification errors, the format error on missing structure, and `Logout failed: ` followed by the status otherwise |
| InboundProperties.LogoutRequestOutcome | src/utils/saml-response.js:128-146 | Success returns a truthy root `$.ID` after verification; a missing LogoutRequest gives the format error; an absent or empty ID gives `Missing request ID in logout request` |
| InboundProperties.LogoutWithoutAssertionFails | src/utils/saml-response.js:167-170 | When both parsers accept a message with no `saml:Assertion`, the usual shape of a logout message, all three processors reject it with the doubly prefixed `No assertion found` |
| JsValues.Get | src/utils/saml-response.js:34-54 | A property read throws the TypeError exactly on `undefined` and `null`, returns the own property when present, else `undefined` |
| JsValues.Or | src/app.js:88-89 | `a \|\| b` is truthy when either operand is; it is `a` when `a` is truthy and `b` otherwise |
| JsValues.ToJsString | src/utils/saml-response.js:106 | String conversion gives a string value itself |
| App.Server.constructor | src/app.js:18-22 | A new session has no user |
| App.SessionUser | src/app.js:71 | A destroyed session shows no user to the next request |
| App.Pick | src/app.js:88-89 | A message parameter is read from the query when it is a non-empty string there, else from the body; there is none when both are absent or empty |
| App.ClassifyLoginError | src/app.js:51-60 | Every caught error gives the error view; details are null exactly for the generic message |
| App.Server.Acs | src/app.js:43-66 | On success the session user becomes the returned userInfo and the profile is shown; on failure the session is unchanged and the classified error view is shown |
| App.Server.Logout | src/app.js:70-76 | With no session user, a redirect to `/`; otherwise a redirect to the LogoutRequest built from the user's nameID and sessionIndex |
| App.LogoutFlow | src/app.js:85-123 | The handler's choice completes only when it accepts a message: the picked LogoutRequest is verified, or, with no request, the picked LogoutResponse is accepted and the redirect goes to `/login` |
| App.Server.HandleLogout | src/app.js:85-123 | The session ends destroyed on every path; the redirect is the flow's URL on success, else `/login`; the caught error is the flow's error |
| AppProperties.RequestBranchWins | src/app.js:91-100 | When a SAMLRequest is present, the SAMLResponse parameters make no difference |
| AppProperties.IdpInitiatedLogout | src/app.js:91-99 | A verified LogoutRequest gives the LogoutResponse redirect to the IdP, with the request's ID as InResponseTo and status Success |
| AppProperties.SpInitiatedLogout | src/app.js:100-109 | With only a SAMLResponse, the flow completes at `/login` if and only if the LogoutResponse is accepted, else fails with its error |
| AppProperties.NeitherMessageFails | src/app.js:110-111 | With neither parameter present and non-empty, the handler fails with `Invalid SAML message` |
| AppProperties.LogoutDestinations | src/app.js:96-120 | Every completed logout goes either to `/login` or to the IdP logout URL |
| AppProperties.SignatureViewOnlyFromParser | src/app.js:54-56 | The signature error view appears only when the parser itself throws `Invalid signature`; a verification failure, prefixed by `Invalid signature: `, never does |
| AppProperties.VerificationFailureView | src/app.js:54-60 | A verification failure shows the assertion view with the message when it mentions `Assertion`, else the generic view with null details |
| AppProperties.MissingAssertionView | src/app.js:57-59 | The missing-Assertion and missing-Subject errors show the assertion view with the message as details |

## Left out

- RSA-SHA256 signing and the private-key file read (`signString`) are the uninterpreted parameter `sign`. `signXML` is unused by the core and is not modelled.
- xml-crypto's `SignedXml` internals are not modelled: reference resolution, the transforms, digests and RSA verification. `checkSignature` is an uninterpreted field of `Env` over the verifier configuration, the signature node and the assertion. `loadSignature` throwing is folded into it.
- The XML parsers are left abstract. `xml2js` and `xmldom` are functions returning a tree or an error. xml2js's `xmlns: true` representation of attributes as objects is not modelled: attribute values are whatever the parser function returns, and an object value prints as `[object Object]`.
- Buffer's lenient base64 decoding of inbound messages is the abstract `decodeBase64`. Outbound base64 and UTF-8 are modelled concretely. Lone UTF-16 surrogates, which Buffer replaces with U+FFFD, are not modelled: characters are code points.
- The uuid and `new Date().toISOString()` are parameters.
- `process.env` is the immutable record `Saml.Config`. `PORT` and the key path are not part of it.
- Express wiring is not modelled: routing, body-parser, EJS rendering, `app.listen` and `console` logging. Replies are the datatype `App.Reply`. A body or query value that is not a string is not modelled: `App.Pick` takes an absent or string parameter. An example is the array that `SAMLResponse[]=` produces under extended parsing.
- The express-session store is not modelled: it serializes sessions, so `undefined` fields disappear between requests. The session user is stored as returned. The callback error of `destroy` is only logged and is not modelled.
- App.Server.Acs: the `TypeError` that `Buffer.from` throws when the form has no `SAMLResponse` uses Node's wording as the constant `MissingArgument`. Whether the views treat it as generic is not proved.
- App.ClassifyLoginError: its own contract states only the shape of the view. The three branches are stated by `AppProperties.SignatureViewOnlyFromParser`, `AppProperties.VerificationFailureView` and `AppProperties.MissingAssertionView`.
- JsValues.Get: reads of `length`, array indices and `Object.prototype` members are not modelled. The processors use none of them. An attribute named `__proto__` is an ordinary key in the model.
- src/utils/metadata.js and the `/metadata`, `/login` and `/auth/saml` routes are not part of this model. They are a certificate read and a fixed template, a static view and a plain redirect to `generateSAMLRequest`.
- Asynchrony (`await`, promise rejection) is modelled as a `Result` returned in program order.
