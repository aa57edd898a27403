/**
 * The SP's outbound messages for the HTTP-Redirect binding (src/utils/saml.js):
 * AuthnRequest, LogoutRequest and LogoutResponse are rendered from a fixed XML
 * template, base64-encoded, and sent as query parameters whose string-to-sign
 * follows section 3.4.4.1 of the OASIS SAML 2.0 Bindings specification.
 */
module Saml {
  import opened Wrappers
  import opened Strings
  import opened UriEncoding
  import Base64
  import opened BindingNames

  /** The deployment settings the builder reads from the environment. */
  datatype Config = Config(
    idpSsoUrl: string,      // IDP_SSO_URL
    idpLogoutUrl: string,   // IDP_LOGOUT_URL
    spAcsUrl: string,       // SP_ACS_URL
    spSloUrl: string,       // SP_SLO_URL
    spEntityId: string,     // SP_ENTITY_ID
    idpCertificate: string) // IDP_CERTIFICATE (base64 body of the IdP's certificate)

  /** The three messages the SP sends; `ID` is `'_'` followed by a fresh uuid. */
  datatype OutboundMessage =
    | AuthnRequest(id: string, issueInstant: string, destination: string, acsUrl: string, issuer: string)
    | LogoutRequest(id: string, issueInstant: string, destination: string, issuer: string,
                    nameId: string, sessionIndex: string)
    | LogoutResponse(id: string, issueInstant: string, destination: string, issuer: string,
                     inResponseTo: string, status: string)

  /** All SAML status codes share this URN prefix; the builder appends the status word to it. */
  const StatusPrefix: string := "urn:oasis:names:tc:SAML:2.0:status:"

  /** `name="value"` exactly as the template writes it: nothing is XML-escaped. */
  function Attribute(name: string, value: string): string {
    name + "=\"" + value + "\""
  }

  // The fixed parts of the three templates.
  const ProtocolNs: string := "xmlns:samlp=\"urn:oasis:names:tc:SAML:2.0:protocol\""
  const AssertionNs: string := "xmlns:saml=\"urn:oasis:names:tc:SAML:2.0:assertion\""
  const VersionAttribute: string := "Version=\"2.0\""
  const IssuerPad: string := "            "
  const AuthnPad: string := "                           "
  const LogoutRequestPad: string := "                            "
  const LogoutResponsePad: string := "                             "
  const ProtocolBindingLine: string :=
    "                           ProtocolBinding=\"urn:oasis:names:tc:SAML:2.0:bindings:HTTP-POST\">"
  const NameIdPolicyLine: string :=
    "            <samlp:NameIDPolicy Format=\"urn:oasis:names:tc:SAML:1.1:nameid-format:unspecified\""
  const AllowCreateLine: string := "                              AllowCreate=\"true\"/>"
  const NameIdOpen: string :=
    "            <saml:NameID Format=\"urn:oasis:names:tc:SAML:1.1:nameid-format:emailAddress\">"
  const StatusOpenLine: string := "            <samlp:Status>"
  const StatusCodeOpen: string := "                <samlp:StatusCode "
  const StatusCloseLine: string := "            </samlp:Status>"

  /** `<saml:Issuer>issuer</saml:Issuer>`, indented. */
  function IssuerLine(issuer: string): string {
    IssuerPad + "<saml:Issuer>" + issuer + "</saml:Issuer>"
  }

  /** The lines of each template after `.trim()`: the first line loses its indentation. */
  function Lines(m: OutboundMessage): seq<string> {
    match m
    case AuthnRequest(_, _, _, _, _) => [
      "<samlp:AuthnRequest " + ProtocolNs,
      AuthnPad + AssertionNs,
      AuthnPad + Attribute("ID", m.id),
      AuthnPad + VersionAttribute,
      AuthnPad + Attribute("IssueInstant", m.issueInstant),
      AuthnPad + Attribute("Destination", m.destination),
      AuthnPad + Attribute("AssertionConsumerServiceURL", m.acsUrl),
      ProtocolBindingLine,
      IssuerLine(m.issuer),
      NameIdPolicyLine,
      AllowCreateLine,
      "        </samlp:AuthnRequest>"]
    case LogoutRequest(_, _, _, _, _, _) => [
      "<samlp:LogoutRequest " + ProtocolNs,
      LogoutRequestPad + AssertionNs,
      LogoutRequestPad + Attribute("ID", m.id),
      LogoutRequestPad + VersionAttribute,
      LogoutRequestPad + Attribute("IssueInstant", m.issueInstant),
      LogoutRequestPad + Attribute("Destination", m.destination) + ">",
      IssuerLine(m.issuer),
      NameIdOpen + m.nameId + "</saml:NameID>",
      IssuerPad + "<samlp:SessionIndex>" + m.sessionIndex + "</samlp:SessionIndex>",
      "        </samlp:LogoutRequest>"]
    case LogoutResponse(_, _, _, _, _, _) => [
      "<samlp:LogoutResponse " + ProtocolNs,
      LogoutResponsePad + AssertionNs,
      LogoutResponsePad + Attribute("ID", m.id),
      LogoutResponsePad + VersionAttribute,
      LogoutResponsePad + Attribute("IssueInstant", m.issueInstant),
      LogoutResponsePad + Attribute("Destination", m.destination),
      LogoutResponsePad + Attribute("InResponseTo", m.inResponseTo) + ">",
      IssuerLine(m.issuer),
      StatusOpenLine,
      StatusCodeOpen + Attribute("Value", StatusPrefix + m.status) + "/>",
      StatusCloseLine,
      "        </samlp:LogoutResponse>"]
  }

  /** The XML text of a message. */
  function Render(m: OutboundMessage): string {
    Join(Lines(m), '\n')
  }

  /** `Buffer.from(xml).toString('base64')`. */
  function Payload(m: OutboundMessage): string {
    Base64.Encode(Utf8Encode(Render(m)))
  }

  /** Requests travel in `SAMLRequest`, the response in `SAMLResponse`. */
  function MessageParam(m: OutboundMessage): string {
    if m.LogoutResponse? then "SAMLResponse" else "SAMLRequest"
  }

  /** The parameters that are signed, in the binding's order: message, RelayState if any, SigAlg. */
  function Envelope(param: string, payload: string, relayState: Option<string>, sigAlg: string)
    : seq<(string, string)>
  {
    [(param, payload)]
      + (if relayState.Some? then [("RelayState", relayState.value)] else [])
      + [("SigAlg", sigAlg)]
  }

  /** `name=encodeURIComponent(value)` for each parameter. */
  function SignedFields(ps: seq<(string, string)>): (r: seq<string>)
    ensures |r| == |ps|
    ensures forall i :: 0 <= i < |ps| ==> r[i] == ps[i].0 + "=" + EncodeUriComponent(ps[i].1)
  {
    if ps == [] then [] else [ps[0].0 + "=" + EncodeUriComponent(ps[0].1)] + SignedFields(ps[1..])
  }

  /** The string-to-sign of section 3.4.4.1 of the SAML 2.0 Bindings: the signed fields joined with `&`. */
  function StringToSign(ps: seq<(string, string)>): string {
    Join(SignedFields(ps), '&')
  }

  /** The form-urlencoded fields `URLSearchParams` writes, one per appended pair. */
  function QueryFields(ps: seq<(string, string)>): (r: seq<string>)
    ensures |r| == |ps|
    ensures forall i :: 0 <= i < |ps| ==> r[i] == FormEncode(ps[i].0) + "=" + FormEncode(ps[i].1)
  {
    if ps == [] then [] else [FormEncode(ps[0].0) + "=" + FormEncode(ps[0].1)] + QueryFields(ps[1..])
  }

  /** `URLSearchParams.toString()`. */
  function Serialize(ps: seq<(string, string)>): string {
    Join(QueryFields(ps), '&')
  }

  /** The signed parameters followed by the Signature over their string-to-sign, serialized. */
  function SignedQuery(ps: seq<(string, string)>, sign: string -> string): string {
    Serialize(ps + [("Signature", sign(StringToSign(ps)))])
  }

  /** The redirect URL: destination, `?`, and the signed query for the message. */
  function RedirectUrl(m: OutboundMessage, relayState: Option<string>, sign: string -> string): string {
    m.destination + "?" + SignedQuery(Envelope(MessageParam(m), Payload(m), relayState, SigAlgRsaSha256), sign)
  }

  function AuthnRequestMessage(cfg: Config, uuid: string, instant: string): OutboundMessage {
    AuthnRequest("_" + uuid, instant, cfg.idpSsoUrl, cfg.spAcsUrl, cfg.spEntityId)
  }

  function LogoutRequestMessage(cfg: Config, uuid: string, instant: string, nameId: string,
                                sessionIndex: string): OutboundMessage {
    LogoutRequest("_" + uuid, instant, cfg.idpLogoutUrl, cfg.spEntityId, nameId, sessionIndex)
  }

  function LogoutResponseMessage(cfg: Config, uuid: string, instant: string, inResponseTo: string,
                                 status: string): OutboundMessage {
    LogoutResponse("_" + uuid, instant, cfg.idpLogoutUrl, cfg.spEntityId, inResponseTo, status)
  }

  /** The `URLSearchParams` object the builder fills one `append` at a time. */
  class SearchParams {
    var list: seq<(string, string)>

    constructor ()
      ensures list == []
    {
      list := [];
    }

    method Append(name: string, value: string)
      modifies this
      ensures list == old(list) + [(name, value)]
    {
      list := list + [(name, value)];
    }

    function ToString(): string
      reads this
    {
      Serialize(list)
    }
  }

  /** Three signed fields joined with `&`, written out. */
  lemma JoinThree(n0: string, e0: string, e1: string, e2: string)
    ensures Join([n0 + "=" + e0, "RelayState" + "=" + e1, "SigAlg" + "=" + e2], '&')
      == n0 + "=" + e0 + "&RelayState=" + e1 + "&SigAlg=" + e2
  {
    var parts := [n0 + "=" + e0, "RelayState" + "=" + e1, "SigAlg" + "=" + e2];
    assert parts[1..] == ["RelayState" + "=" + e1, "SigAlg" + "=" + e2];
    assert parts[1..][1..] == ["SigAlg" + "=" + e2];
    assert "&" + "RelayState" + "=" == "&RelayState=";
    assert "&" + "SigAlg" + "=" == "&SigAlg=";
  }

  /** Two signed fields joined with `&`, written out. */
  lemma JoinTwo(n0: string, e0: string, e1: string)
    ensures Join([n0 + "=" + e0, "SigAlg" + "=" + e1], '&') == n0 + "=" + e0 + "&SigAlg=" + e1
  {
    var parts := [n0 + "=" + e0, "SigAlg" + "=" + e1];
    assert parts[1..] == ["SigAlg" + "=" + e1];
    assert "&" + "SigAlg" + "=" == "&SigAlg=";
  }

  lemma SignedFieldsOfThree(p0: (string, string), p1: (string, string), p2: (string, string))
    ensures SignedFields([p0, p1, p2]) == [p0.0 + "=" + EncodeUriComponent(p0.1),
      p1.0 + "=" + EncodeUriComponent(p1.1), p2.0 + "=" + EncodeUriComponent(p2.1)]
  {
    var ps := [p0, p1, p2];
    assert ps[1..] == [p1, p2];
    SignedFieldsOfTwo(p1, p2);
  }

  lemma SignedFieldsOfTwo(p0: (string, string), p1: (string, string))
    ensures SignedFields([p0, p1]) == [p0.0 + "=" + EncodeUriComponent(p0.1),
      p1.0 + "=" + EncodeUriComponent(p1.1)]
  {
    var ps := [p0, p1];
    assert ps[1..] == [p1];
  }

  /** The three-field string-to-sign written as the source's template literal. */
  lemma ThreeFieldStringToSign(n0: string, v0: string, v1: string, v2: string)
    ensures StringToSign([(n0, v0), ("RelayState", v1), ("SigAlg", v2)])
      == n0 + "=" + EncodeUriComponent(v0) + "&RelayState=" + EncodeUriComponent(v1)
         + "&SigAlg=" + EncodeUriComponent(v2)
  {
    SignedFieldsOfThree((n0, v0), ("RelayState", v1), ("SigAlg", v2));
    JoinThree(n0, EncodeUriComponent(v0), EncodeUriComponent(v1), EncodeUriComponent(v2));
  }

  /** The two-field string-to-sign written as the source's template literal. */
  lemma TwoFieldStringToSign(n0: string, v0: string, v1: string)
    ensures StringToSign([(n0, v0), ("SigAlg", v1)])
      == n0 + "=" + EncodeUriComponent(v0) + "&SigAlg=" + EncodeUriComponent(v1)
  {
    SignedFieldsOfTwo((n0, v0), ("SigAlg", v1));
    JoinTwo(n0, EncodeUriComponent(v0), EncodeUriComponent(v1));
  }

  /** The query the builder assembles for a request (message, RelayState, SigAlg, Signature). */
  lemma RequestQuery(payload: string, relayState: string, sigAlg: string, sign: string -> string,
                     stringToSign: string)
    requires stringToSign == "SAMLRequest=" + EncodeUriComponent(payload)
      + "&RelayState=" + EncodeUriComponent(relayState) + "&SigAlg=" + EncodeUriComponent(sigAlg)
    ensures Serialize([] + [("SAMLRequest", payload)] + [("RelayState", relayState)] + [("SigAlg", sigAlg)]
                      + [("Signature", sign(stringToSign))])
      == SignedQuery(Envelope("SAMLRequest", payload, Some(relayState), sigAlg), sign)
  {
    var ps := Envelope("SAMLRequest", payload, Some(relayState), sigAlg);
    assert ps == [("SAMLRequest", payload), ("RelayState", relayState), ("SigAlg", sigAlg)];
    ThreeFieldStringToSign("SAMLRequest", payload, relayState, sigAlg);
    assert "SAMLRequest" + "=" == "SAMLRequest=";
    assert StringToSign(ps) == stringToSign;
    assert ps + [("Signature", sign(stringToSign))] == [] + [ps[0]] + [ps[1]] + [ps[2]]
                                                      + [("Signature", sign(stringToSign))];
  }

  /** The query the builder assembles for the response (message, SigAlg, Signature). */
  lemma ResponseQuery(payload: string, sigAlg: string, sign: string -> string, stringToSign: string)
    requires stringToSign == "SAMLResponse=" + EncodeUriComponent(payload)
      + "&SigAlg=" + EncodeUriComponent(sigAlg)
    ensures Serialize([] + [("SAMLResponse", payload)] + [("SigAlg", sigAlg)] + [("Signature", sign(stringToSign))])
      == SignedQuery(Envelope("SAMLResponse", payload, None, sigAlg), sign)
  {
    var ps := Envelope("SAMLResponse", payload, None, sigAlg);
    assert ps == [("SAMLResponse", payload), ("SigAlg", sigAlg)];
    TwoFieldStringToSign("SAMLResponse", payload, sigAlg);
    assert "SAMLResponse" + "=" == "SAMLResponse=";
    assert StringToSign(ps) == stringToSign;
    assert ps + [("Signature", sign(stringToSign))] == [] + [ps[0]] + [ps[1]] + [("Signature", sign(stringToSign))];
  }

  /** The URL the builder assembles for a request is RedirectUrl with the request's RelayState. */
  lemma RequestUrl(m: OutboundMessage, relayState: string, sigAlg: string, sign: string -> string,
                   payload: string, stringToSign: string)
    requires !m.LogoutResponse? && payload == Payload(m) && sigAlg == SigAlgRsaSha256
    requires stringToSign == "SAMLRequest=" + EncodeUriComponent(payload)
      + "&RelayState=" + EncodeUriComponent(relayState) + "&SigAlg=" + EncodeUriComponent(sigAlg)
    ensures m.destination + "?" + Serialize([] + [("SAMLRequest", payload)] + [("RelayState", relayState)]
                                            + [("SigAlg", sigAlg)] + [("Signature", sign(stringToSign))])
      == RedirectUrl(m, Some(relayState), sign)
  {
    RequestQuery(payload, relayState, sigAlg, sign, stringToSign);
  }

  /** The URL the builder assembles for the response is RedirectUrl without RelayState. */
  lemma ResponseUrl(m: OutboundMessage, sigAlg: string, sign: string -> string, payload: string,
                    stringToSign: string)
    requires m.LogoutResponse? && payload == Payload(m) && sigAlg == SigAlgRsaSha256
    requires stringToSign == "SAMLResponse=" + EncodeUriComponent(payload)
      + "&SigAlg=" + EncodeUriComponent(sigAlg)
    ensures m.destination + "?" + Serialize([] + [("SAMLResponse", payload)] + [("SigAlg", sigAlg)]
                                            + [("Signature", sign(stringToSign))])
      == RedirectUrl(m, None, sign)
  {
    ResponseQuery(payload, sigAlg, sign, stringToSign);
  }

  /** generateSAMLRequest: an AuthnRequest to the IdP's SSO URL, RelayState the ACS URL. */
  method GenerateSamlRequest(cfg: Config, sign: string -> string, uuid: string, instant: string)
    returns (url: string)
    ensures url == RedirectUrl(AuthnRequestMessage(cfg, uuid, instant), Some(cfg.spAcsUrl), sign)
  {
    var id := "_" + uuid;
    var request := Render(AuthnRequest(id, instant, cfg.idpSsoUrl, cfg.spAcsUrl, cfg.spEntityId));
    var base64Request := Base64.Encode(Utf8Encode(request));
    var params := new SearchParams();
    params.Append("SAMLRequest", base64Request);
    params.Append("RelayState", cfg.spAcsUrl);
    var sigAlg := SigAlgRsaSha256;
    params.Append("SigAlg", sigAlg);
    var stringToSign := "SAMLRequest=" + EncodeUriComponent(base64Request)
      + "&RelayState=" + EncodeUriComponent(cfg.spAcsUrl) + "&SigAlg=" + EncodeUriComponent(sigAlg);
    var signature := sign(stringToSign);
    params.Append("Signature", signature);
    url := cfg.idpSsoUrl + "?" + params.ToString();
    RequestUrl(AuthnRequestMessage(cfg, uuid, instant), cfg.spAcsUrl, sigAlg, sign, base64Request, stringToSign);
  }

  /** generateLogoutRequest: a LogoutRequest to the IdP's logout URL, RelayState the SLO URL. */
  method GenerateLogoutRequest(cfg: Config, sign: string -> string, uuid: string, instant: string,
                               nameId: string, sessionIndex: string)
    returns (url: string)
    ensures url == RedirectUrl(LogoutRequestMessage(cfg, uuid, instant, nameId, sessionIndex),
                               Some(cfg.spSloUrl), sign)
  {
    var id := "_" + uuid;
    var request := Render(LogoutRequest(id, instant, cfg.idpLogoutUrl, cfg.spEntityId, nameId, sessionIndex));
    var base64Request := Base64.Encode(Utf8Encode(request));
    var params := new SearchParams();
    params.Append("SAMLRequest", base64Request);
    params.Append("RelayState", cfg.spSloUrl);
    var sigAlg := SigAlgRsaSha256;
    params.Append("SigAlg", sigAlg);
    var stringToSign := "SAMLRequest=" + EncodeUriComponent(base64Request)
      + "&RelayState=" + EncodeUriComponent(cfg.spSloUrl) + "&SigAlg=" + EncodeUriComponent(sigAlg);
    var signature := sign(stringToSign);
    params.Append("Signature", signature);
    url := cfg.idpLogoutUrl + "?" + params.ToString();
    RequestUrl(LogoutRequestMessage(cfg, uuid, instant, nameId, sessionIndex), cfg.spSloUrl, sigAlg, sign,
               base64Request, stringToSign);
  }

  /** generateLogoutResponse: a LogoutResponse to the IdP's logout URL, without RelayState. */
  method GenerateLogoutResponse(cfg: Config, sign: string -> string, uuid: string, instant: string,
                                inResponseTo: string, status: string)
    returns (url: string)
    ensures url == RedirectUrl(LogoutResponseMessage(cfg, uuid, instant, inResponseTo, status), None, sign)
  {
    var id := "_" + uuid;
    var response := Render(LogoutResponse(id, instant, cfg.idpLogoutUrl, cfg.spEntityId, inResponseTo, status));
    var base64Response := Base64.Encode(Utf8Encode(response));
    var params := new SearchParams();
    params.Append("SAMLResponse", base64Response);
    var sigAlg := SigAlgRsaSha256;
    params.Append("SigAlg", sigAlg);
    var stringToSign := "SAMLResponse=" + EncodeUriComponent(base64Response)
      + "&SigAlg=" + EncodeUriComponent(sigAlg);
    var signature := sign(stringToSign);
    params.Append("Signature", signature);
    url := cfg.idpLogoutUrl + "?" + params.ToString();
    ResponseUrl(LogoutResponseMessage(cfg, uuid, instant, inResponseTo, status), sigAlg, sign, base64Response,
                stringToSign);
  }
}

/** Properties of the outbound messages: what the XML carries, the layout of the query and of the signed string. */
module SamlProperties {
  import opened Wrappers
  import opened Strings
  import opened UriEncoding
  import Base64
  import opened BindingNames
  import opened Saml

  /** A template line `pad + t + post` puts `t` into the rendered XML. */
  lemma LineIncludes(m: OutboundMessage, k: int, pad: string, t: string, post: string)
    requires 0 <= k < |Lines(m)| && Lines(m)[k] == pad + t + post
    ensures Includes(Render(m), t)
  {
    JoinIncludes(Lines(m), '\n', k);
    IncludesInfix(pad, t, post);
    IncludesTransitive(Render(m), Lines(m)[k], t);
  }

  /** The AuthnRequest XML carries its ID, instant, destination, ACS URL and issuer verbatim. */
  lemma AuthnRequestXml(m: OutboundMessage)
    requires m.AuthnRequest?
    ensures Includes(Render(m), Attribute("ID", m.id))
    ensures Includes(Render(m), Attribute("IssueInstant", m.issueInstant))
    ensures Includes(Render(m), Attribute("Destination", m.destination))
    ensures Includes(Render(m), Attribute("AssertionConsumerServiceURL", m.acsUrl))
    ensures Includes(Render(m), "<saml:Issuer>" + m.issuer + "</saml:Issuer>")
  {
    var pad := AuthnPad;
    LineIncludes(m, 2, pad, Attribute("ID", m.id), "");
    LineIncludes(m, 4, pad, Attribute("IssueInstant", m.issueInstant), "");
    LineIncludes(m, 5, pad, Attribute("Destination", m.destination), "");
    LineIncludes(m, 6, pad, Attribute("AssertionConsumerServiceURL", m.acsUrl), "");
    LineIncludes(m, 8, IssuerPad, "<saml:Issuer>" + m.issuer + "</saml:Issuer>", "");
  }

  /** The LogoutRequest XML carries its ID, instant, destination, issuer, NameID and SessionIndex verbatim. */
  lemma LogoutRequestXml(m: OutboundMessage)
    requires m.LogoutRequest?
    ensures Includes(Render(m), Attribute("ID", m.id))
    ensures Includes(Render(m), Attribute("IssueInstant", m.issueInstant))
    ensures Includes(Render(m), Attribute("Destination", m.destination))
    ensures Includes(Render(m), "<saml:Issuer>" + m.issuer + "</saml:Issuer>")
    ensures Includes(Render(m), NameIdOpen + m.nameId + "</saml:NameID>")
    ensures Includes(Render(m), "<samlp:SessionIndex>" + m.sessionIndex + "</samlp:SessionIndex>")
  {
    var pad := LogoutRequestPad;
    LineIncludes(m, 2, pad, Attribute("ID", m.id), "");
    LineIncludes(m, 4, pad, Attribute("IssueInstant", m.issueInstant), "");
    LineIncludes(m, 5, pad, Attribute("Destination", m.destination), ">");
    LineIncludes(m, 6, IssuerPad, "<saml:Issuer>" + m.issuer + "</saml:Issuer>", "");
    LineIncludes(m, 7, "", NameIdOpen + m.nameId + "</saml:NameID>", "");
    LineIncludes(m, 8, IssuerPad, "<samlp:SessionIndex>" + m.sessionIndex + "</samlp:SessionIndex>", "");
  }

  /** The LogoutResponse XML carries InResponseTo verbatim and the status word after the status URN prefix. */
  lemma LogoutResponseXml(m: OutboundMessage)
    requires m.LogoutResponse?
    ensures Includes(Render(m), Attribute("ID", m.id))
    ensures Includes(Render(m), Attribute("IssueInstant", m.issueInstant))
    ensures Includes(Render(m), Attribute("Destination", m.destination))
    ensures Includes(Render(m), Attribute("InResponseTo", m.inResponseTo))
    ensures Includes(Render(m), "<saml:Issuer>" + m.issuer + "</saml:Issuer>")
    ensures Includes(Render(m), Attribute("Value", StatusPrefix + m.status))
  {
    var pad := LogoutResponsePad;
    LineIncludes(m, 2, pad, Attribute("ID", m.id), "");
    LineIncludes(m, 4, pad, Attribute("IssueInstant", m.issueInstant), "");
    LineIncludes(m, 5, pad, Attribute("Destination", m.destination), "");
    LineIncludes(m, 6, pad, Attribute("InResponseTo", m.inResponseTo), ">");
    LineIncludes(m, 7, IssuerPad, "<saml:Issuer>" + m.issuer + "</saml:Issuer>", "");
    LineIncludes(m, 9, StatusCodeOpen, Attribute("Value", StatusPrefix + m.status), "/>");
  }

  /** Neither encoder writes `&`, so splitting the serialized query at `&` gives its fields back. */
  lemma SerializeSplits(ps: seq<(string, string)>)
    requires |ps| > 0
    ensures Split(Serialize(ps), '&') == QueryFields(ps)
  {
    var fs := QueryFields(ps);
    forall i | 0 <= i < |fs| ensures '&' !in fs[i] {
      NoDelimitersAfterEncoding(ps[i].0);
      NoDelimitersAfterEncoding(ps[i].1);
    }
    SplitJoin(fs, '&');
  }

  /** With `&`-free names, splitting the string-to-sign at `&` gives the signed fields back. */
  lemma StringToSignSplits(ps: seq<(string, string)>)
    requires |ps| > 0
    requires forall i :: 0 <= i < |ps| ==> '&' !in ps[i].0
    ensures Split(StringToSign(ps), '&') == SignedFields(ps)
  {
    var fs := SignedFields(ps);
    forall i | 0 <= i < |fs| ensures '&' !in fs[i] {
      NoDelimitersAfterEncoding(ps[i].1);
    }
    SplitJoin(fs, '&');
  }

  /** One more pair gives one more field at the end. */
  lemma {:induction false} QueryFieldsAppend(ps: seq<(string, string)>, name: string, value: string)
    ensures QueryFields(ps + [(name, value)]) == QueryFields(ps) + [FormEncode(name) + "=" + FormEncode(value)]
  {
    var qs := QueryFields(ps + [(name, value)]);
    var rs := QueryFields(ps) + [FormEncode(name) + "=" + FormEncode(value)];
    assert |qs| == |rs|;
    forall i | 0 <= i < |qs| ensures qs[i] == rs[i] {
      if i < |ps| { assert (ps + [(name, value)])[i] == ps[i]; }
    }
  }

  /** Appending one more pair adds `&`, its name and `=` and its encoded value at the very end. */
  lemma AppendedField(ps: seq<(string, string)>, name: string, value: string)
    requires |ps| > 0 && FormEncode(name) == name
    ensures Serialize(ps + [(name, value)]) == Serialize(ps) + "&" + name + "=" + FormEncode(value)
  {
    var field := name + "=" + FormEncode(value);
    QueryFieldsAppend(ps, name, value);
    JoinAppend(QueryFields(ps), field, '&');
  }

  /** Appending the Signature adds `&Signature=` and its form-encoded value at the very end. */
  lemma SignatureAppended(ps: seq<(string, string)>, signature: string)
    requires |ps| > 0
    ensures Serialize(ps + [("Signature", signature)])
            == Serialize(ps) + "&" + "Signature" + "=" + FormEncode(signature)
  {
    SignatureNameUnchanged();
    AppendedField(ps, "Signature", signature);
  }

  /** The signed parameters written out as a list. */
  lemma EnvelopeEntries(param: string, payload: string, relayState: Option<string>, sigAlg: string)
    ensures Envelope(param, payload, relayState, sigAlg)
      == if relayState.Some? then [(param, payload), ("RelayState", relayState.value), ("SigAlg", sigAlg)]
         else [(param, payload), ("SigAlg", sigAlg)]
  {
  }

  /** The signed parameters: message first, RelayState second when given, SigAlg last. */
  lemma EnvelopeShape(param: string, payload: string, relayState: Option<string>, sigAlg: string)
    requires param != "Signature" && '&' !in param
    ensures var ps := Envelope(param, payload, relayState, sigAlg);
      && |ps| == (if relayState.Some? then 3 else 2)
      && ps[0] == (param, payload)
      && (relayState.Some? ==> ps[1] == ("RelayState", relayState.value))
      && ps[|ps| - 1] == ("SigAlg", sigAlg)
      && (forall i :: 0 <= i < |ps| ==> ps[i].0 != "Signature" && '&' !in ps[i].0)
  {
    assert |"RelayState"| != |"Signature"| && |"SigAlg"| != |"Signature"|;
    EnvelopeEntries(param, payload, relayState, sigAlg);
  }

  /** Splitting a signed query gives the fields of the parameters and then the Signature field. */
  lemma SignedQuerySplits(ps: seq<(string, string)>, sign: string -> string)
    requires |ps| > 0
    ensures Split(SignedQuery(ps, sign), '&')
            == QueryFields(ps) + [FormEncode("Signature") + "=" + FormEncode(sign(StringToSign(ps)))]
  {
    var signature := sign(StringToSign(ps));
    SerializeSplits(ps + [("Signature", signature)]);
    QueryFieldsAppend(ps, "Signature", signature);
  }

  /**
   * What is signed and what is sent. The signed parameters are the message, then RelayState when
   * there is one, then SigAlg; none of them is a Signature. The string-to-sign is their
   * `encodeURIComponent` fields joined in that order, and the query is their form-encoded fields in
   * the same order followed by the Signature over the string-to-sign as its last field.
   */
  lemma SignedQueryLayout(param: string, payload: string, relayState: Option<string>, sigAlg: string,
                          sign: string -> string)
    requires param == "SAMLRequest" || param == "SAMLResponse"
    ensures var ps := Envelope(param, payload, relayState, sigAlg);
      && |ps| == (if relayState.Some? then 3 else 2)
      && ps[0] == (param, payload)
      && (relayState.Some? ==> ps[1] == ("RelayState", relayState.value))
      && ps[|ps| - 1] == ("SigAlg", sigAlg)
      && (forall i :: 0 <= i < |ps| ==> ps[i].0 != "Signature")
      && Split(StringToSign(ps), '&') == SignedFields(ps)
      && Split(SignedQuery(ps, sign), '&')
         == QueryFields(ps) + ["Signature" + "=" + FormEncode(sign(StringToSign(ps)))]
  {
    MessageNames(param);
    EnvelopeShape(param, payload, relayState, sigAlg);
    var ps := Envelope(param, payload, relayState, sigAlg);
    StringToSignSplits(ps);
    SignedQuerySplits(ps, sign);
    SignatureNameUnchanged();
  }

  /** With form-safe names and values free of space and `!'()~`, the query repeats the string-to-sign. */
  lemma {:induction false} SerializeMatchesStringToSign(ps: seq<(string, string)>)
    requires forall i :: 0 <= i < |ps| ==> FormEncode(ps[i].0) == ps[i].0 && EncodersAgreeOn(ps[i].1)
    ensures Serialize(ps) == StringToSign(ps)
  {
    var qs, ss := QueryFields(ps), SignedFields(ps);
    forall i | 0 <= i < |ps| ensures qs[i] == ss[i] {
      EncodersAgree(ps[i].1);
    }
    assert qs == ss;
  }

  /** Two parameters with form-safe names and agreeing values serialize to their string-to-sign. */
  lemma TwoEntriesMatch(a: (string, string), b: (string, string))
    requires FormEncode(a.0) == a.0 && EncodersAgreeOn(a.1)
    requires FormEncode(b.0) == b.0 && EncodersAgreeOn(b.1)
    ensures Serialize([a, b]) == StringToSign([a, b])
  {
    SerializeMatchesStringToSign([a, b]);
  }

  /** The same for three parameters. */
  lemma ThreeEntriesMatch(a: (string, string), b: (string, string), c: (string, string))
    requires FormEncode(a.0) == a.0 && EncodersAgreeOn(a.1)
    requires FormEncode(b.0) == b.0 && EncodersAgreeOn(b.1)
    requires FormEncode(c.0) == c.0 && EncodersAgreeOn(c.1)
    ensures Serialize([a, b, c]) == StringToSign([a, b, c])
  {
    SerializeMatchesStringToSign([a, b, c]);
  }

  /**
   * When the payload, RelayState and SigAlg hold no character on which the two encoders disagree,
   * the query sent is the string-to-sign followed by `&Signature=` and the encoded signature.
   */
  lemma QueryRepeatsSignedString(param: string, payload: string, relayState: Option<string>,
                                 sigAlg: string, sign: string -> string)
    requires param == "SAMLRequest" || param == "SAMLResponse"
    requires EncodersAgreeOn(payload) && EncodersAgreeOn(sigAlg)
    requires relayState.Some? ==> EncodersAgreeOn(relayState.value)
    ensures var ps := Envelope(param, payload, relayState, sigAlg);
      SignedQuery(ps, sign) == StringToSign(ps) + "&" + "Signature" + "=" + FormEncode(sign(StringToSign(ps)))
  {
    MessageNameUnchanged(param);
    SigAlgNameUnchanged();
    EnvelopeEntries(param, payload, relayState, sigAlg);
    var ps := Envelope(param, payload, relayState, sigAlg);
    if relayState.Some? {
      RelayStateNameUnchanged();
      ThreeEntriesMatch((param, payload), ("RelayState", relayState.value), ("SigAlg", sigAlg));
    } else {
      TwoEntriesMatch((param, payload), ("SigAlg", sigAlg));
    }
    SignatureAppended(ps, sign(StringToSign(ps)));
  }

  /**
   * For a RelayState free of space and `!'()~`, the redirect URL carries the very string that was
   * signed, then the Signature. Nothing limits the configured URLs to such strings.
   */
  lemma RedirectRepeatsSignedString(m: OutboundMessage, relayState: Option<string>, sign: string -> string)
    requires relayState.Some? ==> EncodersAgreeOn(relayState.value)
    ensures var ps := Envelope(MessageParam(m), Payload(m), relayState, SigAlgRsaSha256);
      RedirectUrl(m, relayState, sign)
      == m.destination + "?" + (StringToSign(ps) + "&" + "Signature" + "=" + FormEncode(sign(StringToSign(ps))))
  {
    Base64.EncodedAgreesForBothEncoders(Utf8Encode(Render(m)));
    SigAlgAgrees();
    QueryRepeatsSignedString(MessageParam(m), Payload(m), relayState, SigAlgRsaSha256, sign);
  }

  /**
   * The two encoders do part on a RelayState of `~`: the string-to-sign then carries `RelayState=~`
   * while the query carries `RelayState=%7E`, so the query no longer repeats the signed string.
   */
  lemma TildeRelayStateIsSignedUnescaped(param: string, payload: string, sigAlg: string)
    requires param == "SAMLRequest" || param == "SAMLResponse"
    ensures var ps := Envelope(param, payload, Some("~"), sigAlg);
      && SignedFields(ps)[1] == "RelayState" + "=" + "~"
      && QueryFields(ps)[1] == "RelayState" + "=" + "%7E"
      && Serialize(ps) != StringToSign(ps)
  {
    var ps := Envelope(param, payload, Some("~"), sigAlg);
    EncodersDisagreeOnTilde();
    RelayStateNameUnchanged();
    MessageNames(param);
    EnvelopeShape(param, payload, Some("~"), sigAlg);
    SerializeSplits(ps);
    StringToSignSplits(ps);
    assert |QueryFields(ps)[1]| != |SignedFields(ps)[1]|;
  }

  /** The string-to-sign of a request, as the source's template literal writes it. */
  lemma RequestStringToSign(payload: string, relayState: string, sigAlg: string)
    ensures StringToSign(Envelope("SAMLRequest", payload, Some(relayState), sigAlg))
      == "SAMLRequest" + "=" + EncodeUriComponent(payload) + "&RelayState=" + EncodeUriComponent(relayState)
         + "&SigAlg=" + EncodeUriComponent(sigAlg)
  {
    assert Envelope("SAMLRequest", payload, Some(relayState), sigAlg)
           == [("SAMLRequest", payload), ("RelayState", relayState), ("SigAlg", sigAlg)];
    ThreeFieldStringToSign("SAMLRequest", payload, relayState, sigAlg);
  }

  /** The string-to-sign of the response, as the source's template literal writes it: no RelayState. */
  lemma ResponseStringToSign(payload: string, sigAlg: string)
    ensures StringToSign(Envelope("SAMLResponse", payload, None, sigAlg))
      == "SAMLResponse" + "=" + EncodeUriComponent(payload) + "&SigAlg=" + EncodeUriComponent(sigAlg)
  {
    assert Envelope("SAMLResponse", payload, None, sigAlg) == [("SAMLResponse", payload), ("SigAlg", sigAlg)];
    TwoFieldStringToSign("SAMLResponse", payload, sigAlg);
  }

  /** The base64 payload decodes back to the UTF-8 bytes of the rendered XML. */
  lemma PayloadDecodes(m: OutboundMessage)
    ensures Base64.Decode(Payload(m)) == Utf8Encode(Render(m))
  {
    Base64.DecodeEncode(Utf8Encode(Render(m)));
  }

  /**
   * generateSAMLRequest: the ID is `_` and the uuid, the URL starts with the IdP's SSO URL and `?`,
   * and that URL is also the XML's Destination, with the ACS URL as AssertionConsumerServiceURL.
   */
  lemma AuthnRequestBuilt(cfg: Config, uuid: string, instant: string, sign: string -> string)
    ensures var m := AuthnRequestMessage(cfg, uuid, instant);
      && m.id == "_" + uuid && m.id[0] == '_'
      && cfg.idpSsoUrl + "?" <= RedirectUrl(m, Some(cfg.spAcsUrl), sign)
      && Includes(Render(m), Attribute("ID", "_" + uuid))
      && Includes(Render(m), Attribute("Destination", cfg.idpSsoUrl))
      && Includes(Render(m), Attribute("AssertionConsumerServiceURL", cfg.spAcsUrl))
  {
    AuthnRequestXml(AuthnRequestMessage(cfg, uuid, instant));
  }

  /**
   * generateLogoutRequest: the ID is `_` and the uuid, and the URL and the XML's Destination are the
   * IdP's logout URL; the RelayState that is signed and sent is the SLO URL.
   */
  lemma LogoutRequestBuilt(cfg: Config, uuid: string, instant: string, nameId: string, sessionIndex: string,
                           sign: string -> string)
    ensures var m := LogoutRequestMessage(cfg, uuid, instant, nameId, sessionIndex);
      && m.id == "_" + uuid && m.id[0] == '_'
      && cfg.idpLogoutUrl + "?" <= RedirectUrl(m, Some(cfg.spSloUrl), sign)
      && Includes(Render(m), Attribute("ID", "_" + uuid))
      && Includes(Render(m), Attribute("Destination", cfg.idpLogoutUrl))
      && Envelope(MessageParam(m), Payload(m), Some(cfg.spSloUrl), SigAlgRsaSha256)[1]
         == ("RelayState", cfg.spSloUrl)
  {
    LogoutRequestXml(LogoutRequestMessage(cfg, uuid, instant, nameId, sessionIndex));
  }

  /**
   * generateLogoutResponse: the ID is `_` and the uuid, the URL and Destination are the IdP's logout
   * URL, InResponseTo is the argument verbatim and the status code is the URN prefix and `status`,
   * whatever `status` is.
   */
  lemma LogoutResponseBuilt(cfg: Config, uuid: string, instant: string, inResponseTo: string, status: string,
                            sign: string -> string)
    ensures var m := LogoutResponseMessage(cfg, uuid, instant, inResponseTo, status);
      && m.id == "_" + uuid && m.id[0] == '_'
      && cfg.idpLogoutUrl + "?" <= RedirectUrl(m, None, sign)
      && Includes(Render(m), Attribute("ID", "_" + uuid))
      && Includes(Render(m), Attribute("Destination", cfg.idpLogoutUrl))
      && Includes(Render(m), Attribute("InResponseTo", inResponseTo))
      && Includes(Render(m), Attribute("Value", StatusPrefix + status))
  {
    LogoutResponseXml(LogoutResponseMessage(cfg, uuid, instant, inResponseTo, status));
  }
}
