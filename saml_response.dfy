/**
 * The SP's inbound processors (src/utils/saml-response.js): each base64-decodes the message, parses
 * it into a JavaScript object tree, verifies the signature over a separate DOM view of the same text,
 * and only then reads fields from the object tree. A missing piece throws a format error, though not
 * one per piece: missing Subject and missing NameID share a message, as do the three pieces a
 * LogoutResponse needs.
 */
module SamlResponse {
  import opened Wrappers
  import opened Strings
  import opened JsValues
  import opened XmlDom
  import Saml

  // Namespaces the verifier's XPath expressions bind `saml` and `ds` to.
  const AssertionNs: string := "urn:oasis:names:tc:SAML:2.0:assertion"
  const XmlDsigNs: string := "http://www.w3.org/2000/09/xmldsig#"

  // The transform chain the verifier forces onto every reference.
  const EnvelopedSignature: string := "http://www.w3.org/2000/09/xmldsig#enveloped-signature"
  const ExcC14n: string := "http://www.w3.org/2001/10/xml-exc-c14n#"

  // The messages of the errors the verifier and the processors throw. The two that mention the
  // Assertion are written around the word, so that `Includes` follows from the concatenation: a
  // search of the whole literal is beyond the solver's budget.
  const NoAssertionFound: string := "No assertion found"
  const NoSignatureFound: string := "No signature found in assertion"
  const InvalidSignature: string := "Invalid signature"
  const InvalidSignaturePrefix: string := "Invalid signature: "
  const InvalidLogoutSignaturePrefix: string := "Invalid logout signature: "
  const MissingResponse: string := "Invalid SAML Response format: Missing Response element"
  const MissingAssertion: string := "Invalid SAML Response format: Missing " + "Assertion" + " element"
  const MissingSubject: string := "Invalid " + "Assertion" + " format: Missing Subject or NameID"
  const InvalidLogoutResponseFormat: string := "Invalid logout response format"
  const LogoutFailedPrefix: string := "Logout failed: "
  const InvalidLogoutRequestFormat: string := "Invalid logout request format"
  const MissingRequestId: string := "Missing request ID in logout request"

  /** The status a successful LogoutResponse must carry. */
  const SuccessStatus: string := Saml.StatusPrefix + "Success"

  /** What the verifier is configured with: ID resolution mode, trusted certificate, transforms. */
  datatype VerifierConfig = VerifierConfig(idMode: string, publicCert: string, transforms: seq<string>)

  /** The IdP certificate from the configuration, wrapped as PEM. */
  function CertificatePem(body: string): string {
    "-----BEGIN CERTIFICATE-----\n" + body + "\n-----END CERTIFICATE-----"
  }

  /** The verifier every message is checked with: `wssecurity` IDs, the IdP's certificate, fixed transforms. */
  function Verifier(cfg: Saml.Config): (v: VerifierConfig)
    ensures v.idMode == "wssecurity"
    ensures v.transforms == [EnvelopedSignature, ExcC14n]
    ensures Includes(v.publicCert, cfg.idpCertificate)
  {
    IncludesInfix("-----BEGIN CERTIFICATE-----\n", cfg.idpCertificate, "\n-----END CERTIFICATE-----");
    VerifierConfig("wssecurity", CertificatePem(cfg.idpCertificate), [EnvelopedSignature, ExcC14n])
  }

  /**
   * The library collaborators, left uninterpreted: `Buffer.from(s, 'base64').toString()`, the
   * `xml2js` parser, the `xmldom` parser, and `checkSignature` of the configured verifier over a
   * signature node and the assertion it signs (an `Err` is an exception it throws).
   */
  datatype Env = Env(
    decodeBase64: string -> string,
    parseObject: string -> Result<JsValue, string>,
    parseDom: string -> Result<Document, string>,
    checkSignature: (VerifierConfig, Node, Node) -> Result<bool, string>)

  /** A thrown error rethrown with `prefix` put before its message. */
  function Rethrow<T>(prefix: string, r: Result<T, string>): (w: Result<T, string>)
    ensures w.Ok? <==> r.Ok?
    ensures r.Ok? ==> w == r
    ensures r.Err? ==> w.error == prefix + r.error
  {
    if r.Err? then Err(prefix + r.error) else r
  }

  /** The body of `verifySignature`'s `try` block on a parsed document. */
  function CheckDocument(env: Env, v: VerifierConfig, doc: Document): Result<(), string> {
    var assertions := SelectDescendants(doc, AssertionNs, "Assertion");
    if |assertions| == 0 then Err(NoAssertionFound)
    else
      var assertion := assertions[0];
      var signatures := SelectBelow(assertion, XmlDsigNs, "Signature");
      if |signatures| == 0 then Err(NoSignatureFound)
      else
        match env.checkSignature(v, signatures[0], assertion)
        case Err(e) => Err(e)
        case Ok(valid) => if valid then Ok(()) else Err(InvalidSignature)
  }

  /** `verifySignature(xml)`: every failure inside is rethrown with the `Invalid signature: ` prefix. */
  function VerifySignature(env: Env, cfg: Saml.Config, xml: string): (r: Result<(), string>)
    ensures r.Err? ==> InvalidSignaturePrefix <= r.error
  {
    var inner := match env.parseDom(xml)
      case Err(e) => Err(e)
      case Ok(doc) => CheckDocument(env, Verifier(cfg), doc);
    Rethrow(InvalidSignaturePrefix, inner)
  }

  /** Successive property reads `v[keys[0]][keys[1]]...`; the first read on `undefined` or `null` throws. */
  function Path(v: JsValue, keys: seq<string>): Result<JsValue, string>
    decreases |keys|
  {
    if keys == [] then Ok(v)
    else
      var w :- Get(v, keys[0]);
      Path(w, keys[1..])
  }

  /** The value at the end of `keys` can be read and is truthy. */
  predicate TruthyAt(v: JsValue, keys: seq<string>) {
    Path(v, keys).Ok? && Truthy(Path(v, keys).value)
  }

  /** The `userInfo` object `processSAMLResponse` returns. */
  datatype UserInfo = UserInfo(nameId: JsValue, sessionIndex: JsValue, attributes: map<string, JsValue>)

  /** One `forEach` step: the attribute's `$.Name` (as a property key) and its value. */
  function AttributeEntry(attr: JsValue): Result<(string, JsValue), string> {
    var attrs :- Get(attr, "$");
    var name :- Get(attrs, "Name");
    var node := Get(attr, "AttributeValue").value;
    var text :- Get(node, "_");
    Ok((ToJsString(name), if Truthy(text) then text else node))
  }

  /** The rest of the `forEach` from map `m` on: each entry written in turn, stopping at a throw. */
  function Fill(m: map<string, JsValue>, attrs: seq<JsValue>): Result<map<string, JsValue>, string>
    decreases |attrs|
  {
    if attrs == [] then Ok(m)
    else
      var entry :- AttributeEntry(attrs[0]);
      Fill(m[entry.0 := entry.1], attrs[1..])
  }

  /** The attribute map the loop at lines 63-68 builds from an `Attribute` array. */
  function AttributeMap(attrs: seq<JsValue>): Result<map<string, JsValue>, string> {
    Fill(map[], attrs)
  }

  /** What `processSAMLResponse` does after verification, on the parsed object tree. */
  function ReadUserInfo(parsed: JsValue): (r: Result<UserInfo, string>)
    ensures r.Ok? ==> && TruthyAt(parsed, ["Response"]) && TruthyAt(parsed, ["Response", "Assertion"])
                      && TruthyAt(parsed, ["Response", "Assertion", "Subject"])
                      && TruthyAt(parsed, ["Response", "Assertion", "Subject", "NameID"])
  {
    var response :- Get(parsed, "Response");
    if !Truthy(response) then Err(MissingResponse)
    else
      var assertion := Get(response, "Assertion").value;
      if !Truthy(assertion) then Err(MissingAssertion)
      else
        var subject := Get(assertion, "Subject").value;
        if !Truthy(subject) || !Truthy(Get(subject, "NameID").value) then Err(MissingSubject)
        else
          var nameId := Get(Get(subject, "NameID").value, "_").value;
          var statement := Get(assertion, "AttributeStatement").value;
          var attributes := if Truthy(statement) then Get(statement, "Attribute").value else Arr([]);
          var authn := Get(assertion, "AuthnStatement").value;
          var sessionIndex :- if Truthy(authn) then Path(authn, ["$", "SessionIndex"]) else Ok(Null);
          var map_ :- if attributes.Arr? then AttributeMap(attributes.items) else Ok(map[]);
          Ok(UserInfo(nameId, sessionIndex, map_))
  }

  /** `processSAMLResponse(samlResponse)`: parse, verify, then read. */
  function SamlResponseResult(env: Env, cfg: Saml.Config, samlResponse: string): Result<UserInfo, string> {
    var decoded := env.decodeBase64(samlResponse);
    var parsed :- env.parseObject(decoded);
    var verified := VerifySignature(env, cfg, decoded);
    if verified.Err? then Err(InvalidSignaturePrefix + verified.error)
    else ReadUserInfo(parsed)
  }

  /** processSAMLResponse, with the attribute map filled in place one `Attribute` at a time. */
  method ProcessSamlResponse(env: Env, cfg: Saml.Config, samlResponse: string) returns (r: Result<UserInfo, string>)
    ensures r == SamlResponseResult(env, cfg, samlResponse)
  {
    var decoded := env.decodeBase64(samlResponse);
    var parsed :- env.parseObject(decoded);
    var verified := VerifySignature(env, cfg, decoded);
    if verified.Err? {
      return Err(InvalidSignaturePrefix + verified.error);
    }
    var response :- Get(parsed, "Response");
    if !Truthy(response) {
      return Err(MissingResponse);
    }
    var assertion := Get(response, "Assertion").value;
    if !Truthy(assertion) {
      return Err(MissingAssertion);
    }
    var subject := Get(assertion, "Subject").value;
    if !Truthy(subject) || !Truthy(Get(subject, "NameID").value) {
      return Err(MissingSubject);
    }
    var nameId := Get(Get(subject, "NameID").value, "_").value;
    var statement := Get(assertion, "AttributeStatement").value;
    var attributes := Arr([]);
    if Truthy(statement) {
      attributes := Get(statement, "Attribute").value;
    }
    var authn := Get(assertion, "AuthnStatement").value;
    var sessionIndex := Null;
    if Truthy(authn) {
      sessionIndex :- Path(authn, ["$", "SessionIndex"]);
    }
    var userAttributes: map<string, JsValue> := map[];
    if attributes.Arr? {
      userAttributes :- CollectAttributes(attributes.items);
    }
    return Ok(UserInfo(nameId, sessionIndex, userAttributes));
  }

  /** The `forEach` of lines 63-68: each attribute written into the map in turn, a later name overwriting. */
  method CollectAttributes(items: seq<JsValue>) returns (r: Result<map<string, JsValue>, string>)
    ensures r == AttributeMap(items)
  {
    var userAttributes: map<string, JsValue> := map[];
    var i := 0;
    while i < |items|
      invariant 0 <= i <= |items|
      invariant Fill(userAttributes, items[i..]) == AttributeMap(items)
    {
      var entry :- AttributeEntry(items[i]);
      assert items[i..][1..] == items[i + 1..];
      userAttributes := userAttributes[entry.0 := entry.1];
      i := i + 1;
    }
    return Ok(userAttributes);
  }

  /** `processLogoutResponse(logoutResponse)`: succeeds only on the Success status. */
  function LogoutResponseResult(env: Env, cfg: Saml.Config, logoutResponse: string): (r: Result<(), string>)
    ensures var decoded := env.decodeBase64(logoutResponse);
      r.Ok? ==> && env.parseObject(decoded).Ok? && VerifySignature(env, cfg, decoded).Ok?
                && Path(env.parseObject(decoded).value, ["LogoutResponse", "Status", "StatusCode", "$", "Value"])
                   == Ok(Str(SuccessStatus))
  {
    var decoded := env.decodeBase64(logoutResponse);
    var parsed :- env.parseObject(decoded);
    var verified := VerifySignature(env, cfg, decoded);
    if verified.Err? then Err(InvalidLogoutSignaturePrefix + verified.error)
    else
      var response :- Get(parsed, "LogoutResponse");
      if !Truthy(response) || !Truthy(Get(response, "Status").value)
         || !Truthy(Get(Get(response, "Status").value, "StatusCode").value)
      then Err(InvalidLogoutResponseFormat)
      else
        var code := Get(Get(response, "Status").value, "StatusCode").value;
        var status :- Path(code, ["$", "Value"]);
        if status != Str(SuccessStatus) then Err(LogoutFailedPrefix + ToJsString(status))
        else Ok(())
  }

  /** `processLogoutRequest(logoutRequest)`: the root's `ID`, which must be present and non-empty. */
  function LogoutRequestResult(env: Env, cfg: Saml.Config, logoutRequest: string): (r: Result<JsValue, string>)
    ensures var decoded := env.decodeBase64(logoutRequest);
      r.Ok? ==> && env.parseObject(decoded).Ok? && VerifySignature(env, cfg, decoded).Ok?
                && Truthy(r.value) && Path(env.parseObject(decoded).value, ["LogoutRequest", "$", "ID"]) == Ok(r.value)
  {
    var decoded := env.decodeBase64(logoutRequest);
    var parsed :- env.parseObject(decoded);
    var verified := VerifySignature(env, cfg, decoded);
    if verified.Err? then Err(InvalidLogoutSignaturePrefix + verified.error)
    else
      var request :- Get(parsed, "LogoutRequest");
      if !Truthy(request) then Err(InvalidLogoutRequestFormat)
      else
        var requestId :- Path(request, ["$", "ID"]);
        if !Truthy(requestId) then Err(MissingRequestId)
        else Ok(requestId)
  }
}
