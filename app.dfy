/**
 * The SP's routes (src/app.js) over one browser session: `/acs` logs the user in, `/logout` starts
 * SP-initiated logout, and the single-logout endpoint answers both IdP-initiated LogoutRequests and
 * the IdP's LogoutResponses, destroying the session on every path.
 */
module App {
  import opened Wrappers
  import opened Strings
  import opened JsValues
  import Saml
  import opened SamlResponse

  /** The session store's record for this browser: live, with or without a `user`, or destroyed. */
  datatype Session = Live(user: Option<UserInfo>) | Destroyed

  /** The user a request sees: after `destroy()` the next request starts a fresh session without one. */
  function SessionUser(s: Session): (u: Option<UserInfo>)
    ensures s.Destroyed? ==> u.None?
  {
    if s.Live? then s.user else None
  }

  /** What a route answers with: a redirect, the profile view, or the error view with its details. */
  datatype Reply =
    | Redirect(location: string)
    | Profile(user: UserInfo)
    | ErrorView(message: string, details: Option<string>)

  // What `/acs` shows for a failed login.
  const GenericLoginError: string := "An error occurred during authentication."
  const SignatureLoginError: string := "Invalid security signature detected. This could be a security risk."
  const SignatureLoginDetails: string :=
    "The digital signature in the SAML response is not valid. This might indicate that the response "
    + "has been tampered with or is not from a trusted source."
  const AssertionLoginError: string := "Invalid SAML assertion format."

  /** The error the logout handler throws when the request carries neither message. */
  const InvalidSamlMessage: string := "Invalid SAML message"

  /** Node's `TypeError` when `Buffer.from` is given `undefined` (no `SAMLResponse` in the form). */
  const MissingArgument: string :=
    "The first argument must be of type string or an instance of Buffer, ArrayBuffer, or Array or an "
    + "Array-like Object. Received undefined"

  const LoginPage: string := "/login"
  const HomePage: string := "/"

  /** The view `/acs` renders for a caught error: the signature, the assertion or the generic message. */
  function ClassifyLoginError(message: string): (v: Reply)
    ensures v.ErrorView?
    ensures v.details.None? <==> v.message == GenericLoginError
  {
    if message == InvalidSignature then ErrorView(SignatureLoginError, Some(SignatureLoginDetails))
    else if Includes(message, "Assertion") then ErrorView(AssertionLoginError, Some(message))
    else ErrorView(GenericLoginError, None)
  }

  /** `processSAMLResponse(req.body.SAMLResponse)`, where a form without the field makes Buffer throw. */
  function LoginResult(env: Env, cfg: Saml.Config, samlResponse: Option<string>): Result<UserInfo, string> {
    if samlResponse.None? then Err(MissingArgument) else SamlResponseResult(env, cfg, samlResponse.value)
  }

  /** A request parameter as Express hands it over: a string, or `undefined` when it is absent. */
  function Param(v: Option<string>): JsValue {
    if v.Some? then Str(v.value) else Undefined
  }

  /**
   * `req.query.X || req.body.X` taken as a condition: the query's value when it is a non-empty
   * string, otherwise the body's when that is one, otherwise nothing.
   */
  function Pick(query: Option<string>, body: Option<string>): (r: Option<string>)
    ensures query.Some? && query.value != "" ==> r == query
    ensures !(query.Some? && query.value != "") && body.Some? && body.value != "" ==> r == body
    ensures r.None? <==> (query.None? || query.value == "") && (body.None? || body.value == "")
  {
    var v := Or(Param(query), Param(body));
    if Truthy(v) then Some(ToJsString(v)) else None
  }

  /** How `handleLogout` ends: the redirect of its `try` block, or the error its `catch` block catches. */
  datatype LogoutOutcome = Completed(location: string) | Failed(error: string)

  /** handleLogout's decision: a LogoutRequest first, then a LogoutResponse, otherwise an error. */
  function LogoutFlow(env: Env, cfg: Saml.Config, sign: string -> string,
                      queryRequest: Option<string>, bodyRequest: Option<string>,
                      queryResponse: Option<string>, bodyResponse: Option<string>,
                      uuid: string, instant: string): (o: LogoutOutcome)
    ensures var samlRequest := Pick(queryRequest, bodyRequest);
      var samlResponse := Pick(queryResponse, bodyResponse);
      o.Completed? ==>
        || (samlRequest.Some? && LogoutRequestResult(env, cfg, samlRequest.value).Ok?)
        || (samlRequest.None? && samlResponse.Some? && LogoutResponseResult(env, cfg, samlResponse.value).Ok?
            && o.location == LoginPage)
  {
    var samlRequest := Pick(queryRequest, bodyRequest);
    var samlResponse := Pick(queryResponse, bodyResponse);
    if samlRequest.Some? then
      match LogoutRequestResult(env, cfg, samlRequest.value)
      case Ok(requestId) =>
        Completed(Saml.RedirectUrl(Saml.LogoutResponseMessage(cfg, uuid, instant, ToJsString(requestId), "Success"),
                                   None, sign))
      case Err(e) => Failed(e)
    else if samlResponse.Some? then
      match LogoutResponseResult(env, cfg, samlResponse.value)
      case Ok(_) => Completed(LoginPage)
      case Err(e) => Failed(e)
    else Failed(InvalidSamlMessage)
  }

  /** The SP as one browser sees it: the configuration, the collaborators and this browser's session. */
  class Server {
    const cfg: Saml.Config
    const env: Env
    const sign: string -> string
    var session: Session

    /** A first visit opens a session without a user (`saveUninitialized`). */
    constructor(cfg: Saml.Config, env: Env, sign: string -> string)
      ensures this.cfg == cfg && this.env == env && this.sign == sign
      ensures session == Live(None)
    {
      this.cfg := cfg;
      this.env := env;
      this.sign := sign;
      session := Live(None);
    }

    /** POST /acs: on success the user is stored and shown; on failure the session is left as it was. */
    method Acs(samlResponse: Option<string>) returns (reply: Reply)
      modifies this
      ensures var r := LoginResult(env, cfg, samlResponse);
        && (r.Ok? ==> session == Live(Some(r.value)) && reply == Profile(r.value))
        && (r.Err? ==> session == old(session) && reply == ClassifyLoginError(r.error))
    {
      var result: Result<UserInfo, string>;
      if samlResponse.None? {
        result := Err(MissingArgument);
      } else {
        result := ProcessSamlResponse(env, cfg, samlResponse.value);
      }
      if result.Ok? {
        session := Live(Some(result.value));
        reply := Profile(result.value);
      } else {
        reply := ClassifyLoginError(result.error);
      }
    }

    /** GET /logout: home without a user, otherwise a LogoutRequest for the session's NameID and SessionIndex. */
    method Logout(uuid: string, instant: string) returns (reply: Reply)
      ensures SessionUser(session).None? ==> reply == Redirect(HomePage)
      ensures SessionUser(session).Some? ==>
        var u := SessionUser(session).value;
        reply == Redirect(Saml.RedirectUrl(
          Saml.LogoutRequestMessage(cfg, uuid, instant, ToJsString(u.nameId), ToJsString(u.sessionIndex)),
          Some(cfg.spSloUrl), sign))
    {
      var user := SessionUser(session);
      if user.None? {
        return Redirect(HomePage);
      }
      var url := Saml.GenerateLogoutRequest(cfg, sign, uuid, instant,
                                            ToJsString(user.value.nameId), ToJsString(user.value.sessionIndex));
      return Redirect(url);
    }

    /**
     * GET or POST /logout/saml2/slo: the session is destroyed on every path; the IdP-initiated success
     * redirects with a LogoutResponse, every other path to the login page. `caught` is the error the
     * `catch` block logs.
     */
    method HandleLogout(queryRequest: Option<string>, bodyRequest: Option<string>,
                        queryResponse: Option<string>, bodyResponse: Option<string>,
                        uuid: string, instant: string)
      returns (reply: Reply, caught: Option<string>)
      modifies this
      ensures session == Destroyed
      ensures var flow := LogoutFlow(env, cfg, sign, queryRequest, bodyRequest, queryResponse, bodyResponse,
                                     uuid, instant);
        && reply == Redirect(if flow.Completed? then flow.location else LoginPage)
        && caught == (if flow.Failed? then Some(flow.error) else None)
    {
      var samlRequest := Or(Param(queryRequest), Param(bodyRequest));
      var samlResponse := Or(Param(queryResponse), Param(bodyResponse));
      ghost var flow := LogoutFlow(env, cfg, sign, queryRequest, bodyRequest, queryResponse, bodyResponse,
                                   uuid, instant);
      var failure: string;
      if Truthy(samlRequest) {
        var requestId := LogoutRequestResult(env, cfg, ToJsString(samlRequest));
        if requestId.Ok? {
          session := Destroyed;
          var url := Saml.GenerateLogoutResponse(cfg, sign, uuid, instant, ToJsString(requestId.value), "Success");
          assert flow == Completed(url);
          return Redirect(url), None;
        }
        failure := requestId.error;
      } else if Truthy(samlResponse) {
        var processed := LogoutResponseResult(env, cfg, ToJsString(samlResponse));
        if processed.Ok? {
          session := Destroyed;
          assert flow == Completed(LoginPage);
          return Redirect(LoginPage), None;
        }
        failure := processed.error;
      } else {
        failure := InvalidSamlMessage;
      }
      assert flow == Failed(failure);
      session := Destroyed;
      return Redirect(LoginPage), Some(failure);
    }
  }
}

/** What the routes guarantee: the branch taken, the message built, the view chosen. */
module AppProperties {
  import opened Wrappers
  import opened Strings
  import opened JsValues
  import Saml
  import opened SamlResponse
  import InboundProperties
  import SamlProperties
  import opened App

  /** Once a LogoutRequest is present, the SAMLResponse parameters make no difference. */
  lemma RequestBranchWins(env: Env, cfg: Saml.Config, sign: string -> string,
                          queryRequest: Option<string>, bodyRequest: Option<string>,
                          queryResponse: Option<string>, bodyResponse: Option<string>,
                          queryResponse': Option<string>, bodyResponse': Option<string>,
                          uuid: string, instant: string)
    requires Pick(queryRequest, bodyRequest).Some?
    ensures LogoutFlow(env, cfg, sign, queryRequest, bodyRequest, queryResponse, bodyResponse, uuid, instant)
         == LogoutFlow(env, cfg, sign, queryRequest, bodyRequest, queryResponse', bodyResponse', uuid, instant)
  {
  }

  /**
   * IdP-initiated logout: a verified LogoutRequest is answered with a LogoutResponse to the IdP whose
   * `InResponseTo` is the request's ID and whose status is Success.
   */
  lemma IdpInitiatedLogout(env: Env, cfg: Saml.Config, sign: string -> string,
                           queryRequest: Option<string>, bodyRequest: Option<string>,
                           queryResponse: Option<string>, bodyResponse: Option<string>,
                           uuid: string, instant: string)
    requires Pick(queryRequest, bodyRequest).Some?
    requires LogoutRequestResult(env, cfg, Pick(queryRequest, bodyRequest).value).Ok?
    ensures var request := Pick(queryRequest, bodyRequest).value;
      var requestId := LogoutRequestResult(env, cfg, request).value;
      var m := Saml.LogoutResponseMessage(cfg, uuid, instant, ToJsString(requestId), "Success");
      && VerifySignature(env, cfg, env.decodeBase64(request)).Ok?
      && LogoutFlow(env, cfg, sign, queryRequest, bodyRequest, queryResponse, bodyResponse, uuid, instant)
         == Completed(Saml.RedirectUrl(m, None, sign))
      && cfg.idpLogoutUrl + "?" <= Saml.RedirectUrl(m, None, sign)
      && Includes(Saml.Render(m), Saml.Attribute("InResponseTo", ToJsString(requestId)))
      && Includes(Saml.Render(m), Saml.Attribute("Value", SuccessStatus))
  {
    var request := Pick(queryRequest, bodyRequest).value;
    var requestId := LogoutRequestResult(env, cfg, request).value;
    InboundProperties.LogoutRequestOutcome(env, cfg, request);
    SamlProperties.LogoutResponseBuilt(cfg, uuid, instant, ToJsString(requestId), "Success", sign);
  }

  /** SP-initiated logout completes at the login page exactly when the LogoutResponse is accepted. */
  lemma SpInitiatedLogout(env: Env, cfg: Saml.Config, sign: string -> string,
                          queryRequest: Option<string>, bodyRequest: Option<string>,
                          queryResponse: Option<string>, bodyResponse: Option<string>,
                          uuid: string, instant: string)
    requires Pick(queryRequest, bodyRequest).None? && Pick(queryResponse, bodyResponse).Some?
    ensures var response := Pick(queryResponse, bodyResponse).value;
      var flow := LogoutFlow(env, cfg, sign, queryRequest, bodyRequest, queryResponse, bodyResponse, uuid, instant);
      && (flow == Completed(LoginPage) <==> LogoutResponseResult(env, cfg, response).Ok?)
      && (LogoutResponseResult(env, cfg, response).Err? ==> flow == Failed(LogoutResponseResult(env, cfg, response).error))
  {
  }

  /** With neither message (absent or empty in both places) the handler throws `Invalid SAML message`. */
  lemma NeitherMessageFails(env: Env, cfg: Saml.Config, sign: string -> string,
                            queryRequest: Option<string>, bodyRequest: Option<string>,
                            queryResponse: Option<string>, bodyResponse: Option<string>,
                            uuid: string, instant: string)
    requires queryRequest.None? || queryRequest.value == ""
    requires bodyRequest.None? || bodyRequest.value == ""
    requires queryResponse.None? || queryResponse.value == ""
    requires bodyResponse.None? || bodyResponse.value == ""
    ensures LogoutFlow(env, cfg, sign, queryRequest, bodyRequest, queryResponse, bodyResponse, uuid, instant)
         == Failed(InvalidSamlMessage)
  {
  }

  /** Only the IdP-initiated success leaves for somewhere other than the login page, and it goes to the IdP. */
  lemma LogoutDestinations(env: Env, cfg: Saml.Config, sign: string -> string,
                           queryRequest: Option<string>, bodyRequest: Option<string>,
                           queryResponse: Option<string>, bodyResponse: Option<string>,
                           uuid: string, instant: string)
    ensures var flow := LogoutFlow(env, cfg, sign, queryRequest, bodyRequest, queryResponse, bodyResponse,
                                   uuid, instant);
      flow.Completed? && flow.location != LoginPage ==> cfg.idpLogoutUrl + "?" <= flow.location
  {
    var request := Pick(queryRequest, bodyRequest);
    if request.Some? && LogoutRequestResult(env, cfg, request.value).Ok? {
      var requestId := LogoutRequestResult(env, cfg, request.value).value;
      SamlProperties.LogoutResponseBuilt(cfg, uuid, instant, ToJsString(requestId), "Success", sign);
    }
  }

  /**
   * The signature view is out of reach of verification failures: those arrive prefixed twice with
   * `Invalid signature: `, so the message is never exactly `Invalid signature`. Only a parser whose
   * own error message is that text can select it.
   */
  lemma SignatureViewOnlyFromParser(env: Env, cfg: Saml.Config, samlResponse: Option<string>)
    requires LoginResult(env, cfg, samlResponse).Err?
    requires ClassifyLoginError(LoginResult(env, cfg, samlResponse).error).message == SignatureLoginError
    ensures samlResponse.Some?
    ensures env.parseObject(env.decodeBase64(samlResponse.value)) == Err(InvalidSignature)
  {
    var e := LoginResult(env, cfg, samlResponse).error;
    assert e == InvalidSignature by {
      assert |SignatureLoginError| != |AssertionLoginError| && |SignatureLoginError| != |GenericLoginError|;
    }
    assert |MissingArgument| != |InvalidSignature|;
    var decoded := env.decodeBase64(samlResponse.value);
    if env.parseObject(decoded).Ok? {
      InboundProperties.ReadUserInfoErrors(env.parseObject(decoded).value);
    }
  }

  /** A failed verification shows the assertion view when its message names an Assertion, else the generic one. */
  lemma VerificationFailureView(env: Env, cfg: Saml.Config, samlResponse: string)
    requires env.parseObject(env.decodeBase64(samlResponse)).Ok?
    requires VerifySignature(env, cfg, env.decodeBase64(samlResponse)).Err?
    ensures var e := LoginResult(env, cfg, Some(samlResponse)).error;
      && InvalidSignaturePrefix + InvalidSignaturePrefix <= e
      && ClassifyLoginError(e)
         == if Includes(e, "Assertion") then ErrorView(AssertionLoginError, Some(e)) else ErrorView(GenericLoginError, None)
  {
    InboundProperties.SamlResponseVerifiesFirst(env, cfg, samlResponse);
  }

  /** A verified response without an Assertion, Subject or NameID shows the assertion view with the message. */
  lemma MissingAssertionView(env: Env, cfg: Saml.Config, samlResponse: string)
    requires LoginResult(env, cfg, Some(samlResponse)) == Err(MissingAssertion)
             || LoginResult(env, cfg, Some(samlResponse)) == Err(MissingSubject)
    ensures var e := LoginResult(env, cfg, Some(samlResponse)).error;
      ClassifyLoginError(e) == ErrorView(AssertionLoginError, Some(e))
  {
    InboundProperties.StructuralMessagesMentionAssertion();
    assert |MissingAssertion| != |InvalidSignature| && |MissingSubject| != |InvalidSignature|;
  }
}
