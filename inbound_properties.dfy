/** Properties of the inbound processors: verification first, the order of the checks, what is read. */
module InboundProperties {
  import opened Wrappers
  import opened Strings
  import opened JsValues
  import opened XmlDom
  import Saml
  import opened SamlResponse

  // ---------------------------------------------------------------- signature verification

  /** The document's first Assertion in document order and the first Signature below it verify. */
  ghost predicate SignedByFirstAssertion(env: Env, v: VerifierConfig, doc: Document) {
    exists a, sg ::
      && FirstNamed(Preorder(doc.nodes), AssertionNs, "Assertion", a)
      && a.Element?
      && FirstNamed(Preorder(a.children), XmlDsigNs, "Signature", sg)
      && env.checkSignature(v, sg, a) == Ok(true)
  }

  /**
   * Verification succeeds exactly when the DOM parses and `checkSignature` accepts the first
   * `saml:Assertion` in document order together with the first `ds:Signature` among its descendants.
   */
  lemma VerifySignatureSelectsFirst(env: Env, cfg: Saml.Config, xml: string)
    ensures VerifySignature(env, cfg, xml).Ok?
            <==> env.parseDom(xml).Ok? && SignedByFirstAssertion(env, Verifier(cfg), env.parseDom(xml).value)
  {
    if env.parseDom(xml).Ok? {
      var doc := env.parseDom(xml).value;
      if VerifySignature(env, cfg, xml).Ok? {
        VerifiedIsSigned(env, Verifier(cfg), doc);
      }
      if SignedByFirstAssertion(env, Verifier(cfg), doc) {
        SignedIsVerified(env, Verifier(cfg), doc);
      }
    }
  }

  /** The nodes `CheckDocument` accepted are the first Assertion and the first Signature below it. */
  lemma VerifiedIsSigned(env: Env, v: VerifierConfig, doc: Document)
    requires CheckDocument(env, v, doc).Ok?
    ensures SignedByFirstAssertion(env, v, doc)
  {
    var a := SelectDescendants(doc, AssertionNs, "Assertion")[0];
    FirstMatch(Preorder(doc.nodes), AssertionNs, "Assertion");
    FirstMatch(Preorder(a.children), XmlDsigNs, "Signature");
    var sg := SelectBelow(a, XmlDsigNs, "Signature")[0];
    assert FirstNamed(Preorder(a.children), XmlDsigNs, "Signature", sg);
  }

  /** Any first Assertion with a first Signature that verifies is what `CheckDocument` checks. */
  lemma SignedIsVerified(env: Env, v: VerifierConfig, doc: Document)
    requires SignedByFirstAssertion(env, v, doc)
    ensures CheckDocument(env, v, doc).Ok?
  {
    var order := Preorder(doc.nodes);
    var a, sg :| && FirstNamed(order, AssertionNs, "Assertion", a) && a.Element?
      && FirstNamed(Preorder(a.children), XmlDsigNs, "Signature", sg)
      && env.checkSignature(v, sg, a) == Ok(true);
    FirstMatch(order, AssertionNs, "Assertion");
    FirstNamedUnique(order, AssertionNs, "Assertion", a, SelectDescendants(doc, AssertionNs, "Assertion")[0]);
    FirstMatch(Preorder(a.children), XmlDsigNs, "Signature");
    FirstNamedUnique(Preorder(a.children), XmlDsigNs, "Signature", sg, SelectBelow(a, XmlDsigNs, "Signature")[0]);
  }

  /** A document without any `saml:Assertion` never verifies: `No assertion found`. */
  lemma NoAssertionNeverVerifies(env: Env, cfg: Saml.Config, xml: string)
    requires env.parseDom(xml).Ok?
    requires forall n :: n in Preorder(env.parseDom(xml).value.nodes) ==> !IsNamed(n, AssertionNs, "Assertion")
    ensures VerifySignature(env, cfg, xml) == Err(InvalidSignaturePrefix + NoAssertionFound)
  {
    var order := Preorder(env.parseDom(xml).value.nodes);
    FirstMatch(order, AssertionNs, "Assertion");
    assert forall k :: 0 <= k < |order| ==> !IsNamed(order[k], AssertionNs, "Assertion") by {
      forall k | 0 <= k < |order| ensures !IsNamed(order[k], AssertionNs, "Assertion") {
        assert order[k] in order;
      }
    }
  }

  /** An Assertion without any `ds:Signature` below it never verifies either. */
  lemma UnsignedAssertionNeverVerifies(env: Env, cfg: Saml.Config, xml: string, a: Node)
    requires env.parseDom(xml).Ok?
    requires FirstNamed(Preorder(env.parseDom(xml).value.nodes), AssertionNs, "Assertion", a)
    requires forall n :: n in Preorder(a.children) ==> !IsNamed(n, XmlDsigNs, "Signature")
    ensures VerifySignature(env, cfg, xml) == Err(InvalidSignaturePrefix + NoSignatureFound)
  {
    var order := Preorder(env.parseDom(xml).value.nodes);
    FirstMatch(order, AssertionNs, "Assertion");
    var first := Matching(order, AssertionNs, "Assertion")[0];
    FirstNamedUnique(order, AssertionNs, "Assertion", a, first);
    var below := Preorder(a.children);
    FirstMatch(below, XmlDsigNs, "Signature");
    assert forall k :: 0 <= k < |below| ==> !IsNamed(below[k], XmlDsigNs, "Signature") by {
      forall k | 0 <= k < |below| ensures !IsNamed(below[k], XmlDsigNs, "Signature") {
        assert below[k] in below;
      }
    }
  }

  /** A signature that `checkSignature` rejects gives the message `Invalid signature`, prefixed once. */
  lemma RejectedSignature(env: Env, cfg: Saml.Config, xml: string)
    requires env.parseDom(xml).Ok?
    requires var doc := env.parseDom(xml).value;
      var assertions := SelectDescendants(doc, AssertionNs, "Assertion");
      |assertions| > 0 && |SelectBelow(assertions[0], XmlDsigNs, "Signature")| > 0
      && env.checkSignature(Verifier(cfg), SelectBelow(assertions[0], XmlDsigNs, "Signature")[0], assertions[0])
         == Ok(false)
    ensures VerifySignature(env, cfg, xml) == Err(InvalidSignaturePrefix + InvalidSignature)
  {
  }

  // ---------------------------------------------------------------- processSAMLResponse

  /**
   * Nothing is read from the object tree before verification: a parser error is passed on as it is,
   * a verification failure is rethrown with a second `Invalid signature: ` prefix whatever the tree
   * holds, and success needs verification to have succeeded.
   */
  lemma SamlResponseVerifiesFirst(env: Env, cfg: Saml.Config, samlResponse: string)
    ensures var decoded := env.decodeBase64(samlResponse);
      var r := SamlResponseResult(env, cfg, samlResponse);
      && (env.parseObject(decoded).Err? ==> r == Err(env.parseObject(decoded).error))
      && (env.parseObject(decoded).Ok? && VerifySignature(env, cfg, decoded).Err? ==>
            r == Err(InvalidSignaturePrefix + VerifySignature(env, cfg, decoded).error)
            && InvalidSignaturePrefix + InvalidSignaturePrefix <= r.error)
      && (r.Ok? ==> VerifySignature(env, cfg, decoded).Ok?)
  {
    var decoded := env.decodeBase64(samlResponse);
    var verified := VerifySignature(env, cfg, decoded);
    if env.parseObject(decoded).Ok? && verified.Err? {
      var e := verified.error;
      assert InvalidSignaturePrefix <= e;
      assert (InvalidSignaturePrefix + e)[..|InvalidSignaturePrefix + InvalidSignaturePrefix|]
             == InvalidSignaturePrefix + e[..|InvalidSignaturePrefix|];
    }
  }

  /** When verification fails, two parses of the message into different object trees give the same result. */
  lemma VerificationFailureIgnoresTree(env: Env, env': Env, cfg: Saml.Config, samlResponse: string)
    requires env'.decodeBase64 == env.decodeBase64 && env'.parseDom == env.parseDom
    requires env'.checkSignature == env.checkSignature
    requires env.parseObject(env.decodeBase64(samlResponse)).Ok?
    requires env'.parseObject(env.decodeBase64(samlResponse)).Ok?
    requires VerifySignature(env, cfg, env.decodeBase64(samlResponse)).Err?
    ensures SamlResponseResult(env, cfg, samlResponse) == SamlResponseResult(env', cfg, samlResponse)
  {
    var decoded := env.decodeBase64(samlResponse);
    assert VerifySignature(env', cfg, decoded) == VerifySignature(env, cfg, decoded);
  }

  /**
   * The fields come from the object tree alone: once verification succeeds, which nodes the DOM view
   * holds and which of them were checked make no difference to the result.
   */
  lemma FieldsIgnoreVerifiedNode(env: Env, env': Env, cfg: Saml.Config, samlResponse: string)
    requires env'.decodeBase64 == env.decodeBase64 && env'.parseObject == env.parseObject
    requires VerifySignature(env, cfg, env.decodeBase64(samlResponse)).Ok?
    requires VerifySignature(env', cfg, env.decodeBase64(samlResponse)).Ok?
    ensures SamlResponseResult(env, cfg, samlResponse) == SamlResponseResult(env', cfg, samlResponse)
    ensures var parsed := env.parseObject(env.decodeBase64(samlResponse));
      parsed.Ok? ==> SamlResponseResult(env, cfg, samlResponse) == ReadUserInfo(parsed.value)
  {
  }

  /** The structural checks run in order, each with its own message. */
  lemma StructuralChecksInOrder(p: JsValue)
    requires !p.Undefined? && !p.Null?
    ensures !TruthyAt(p, ["Response"]) ==> ReadUserInfo(p) == Err(MissingResponse)
    ensures TruthyAt(p, ["Response"]) && !TruthyAt(p, ["Response", "Assertion"])
            ==> ReadUserInfo(p) == Err(MissingAssertion)
    ensures TruthyAt(p, ["Response", "Assertion"])
            && (!TruthyAt(p, ["Response", "Assertion", "Subject"])
                || !TruthyAt(p, ["Response", "Assertion", "Subject", "NameID"]))
            ==> ReadUserInfo(p) == Err(MissingSubject)
  {
    if TruthyAt(p, ["Response", "Assertion"]) {
      var assertion := Path(p, ["Response", "Assertion"]).value;
      assert Path(p, ["Response", "Assertion", "Subject"]) == Get(assertion, "Subject");
    }
  }

  /** The messages of the structural checks on the Assertion name it, the one on the Response does not. */
  lemma StructuralMessagesMentionAssertion()
    ensures Includes(MissingAssertion, "Assertion") && Includes(MissingSubject, "Assertion")
  {
    IncludesInfix("Invalid SAML Response format: Missing ", "Assertion", " element");
    IncludesInfix("Invalid ", "Assertion", " format: Missing Subject or NameID");
  }

  /**
   * What a successful result holds: `nameID` is `NameID._`, `sessionIndex` is AuthnStatement's
   * `SessionIndex` when there is an AuthnStatement and `null` otherwise, and the attribute map is the
   * one the loop builds when `Attribute` is an array and empty otherwise (a single Attribute element).
   */
  lemma UserInfoFields(p: JsValue, u: UserInfo)
    requires ReadUserInfo(p) == Ok(u)
    ensures Path(p, ["Response", "Assertion", "Subject", "NameID", "_"]) == Ok(u.nameId)
    ensures TruthyAt(p, ["Response", "Assertion", "AuthnStatement"])
            ==> Path(p, ["Response", "Assertion", "AuthnStatement", "$", "SessionIndex"]) == Ok(u.sessionIndex)
    ensures !TruthyAt(p, ["Response", "Assertion", "AuthnStatement"]) ==> u.sessionIndex == Null
    ensures !TruthyAt(p, ["Response", "Assertion", "AttributeStatement"]) ==> u.attributes == map[]
    ensures TruthyAt(p, ["Response", "Assertion", "AttributeStatement"]) ==>
      var attributes := Path(p, ["Response", "Assertion", "AttributeStatement", "Attribute"]).value;
      && (attributes.Arr? ==> AttributeMap(attributes.items) == Ok(u.attributes))
      && (!attributes.Arr? ==> u.attributes == map[])
  {
    var response := Get(p, "Response").value;
    var assertion := Get(response, "Assertion").value;
    var subject := Get(assertion, "Subject").value;
    var authn := Get(assertion, "AuthnStatement").value;
    var statement := Get(assertion, "AttributeStatement").value;
    assert Path(p, ["Response", "Assertion"]) == Ok(assertion);
    assert Path(p, ["Response", "Assertion", "Subject", "NameID", "_"])
           == Path(assertion, ["Subject", "NameID", "_"]);
    assert Path(p, ["Response", "Assertion", "AuthnStatement"]) == Ok(authn);
    assert Path(p, ["Response", "Assertion", "AuthnStatement", "$", "SessionIndex"])
           == Path(authn, ["$", "SessionIndex"]);
    assert Path(p, ["Response", "Assertion", "AttributeStatement"]) == Ok(statement);
    if Truthy(statement) {
      assert Path(p, ["Response", "Assertion", "AttributeStatement", "Attribute"]) == Get(statement, "Attribute");
    }
  }

  /** A chain of property reads throws nothing but the `TypeError` of a read. */
  lemma {:induction false} PathThrowsReadErrors(v: JsValue, keys: seq<string>)
    ensures Path(v, keys).Err? ==> ReadErrorPrefix <= Path(v, keys).error
    decreases |keys|
  {
    if keys != [] && Get(v, keys[0]).Ok? {
      PathThrowsReadErrors(Get(v, keys[0]).value, keys[1..]);
    }
  }

  /** Neither does the attribute loop. */
  lemma {:induction false} FillThrowsReadErrors(m: map<string, JsValue>, attrs: seq<JsValue>)
    ensures Fill(m, attrs).Err? ==> ReadErrorPrefix <= Fill(m, attrs).error
    decreases |attrs|
  {
    if attrs != [] && AttributeEntry(attrs[0]).Ok? {
      var e := AttributeEntry(attrs[0]).value;
      FillThrowsReadErrors(m[e.0 := e.1], attrs[1..]);
    }
  }

  /** After verification, the only errors are the three format errors and read errors. */
  lemma ReadUserInfoErrors(p: JsValue)
    ensures var r := ReadUserInfo(p);
      r.Err? ==> r.error == MissingResponse || r.error == MissingAssertion || r.error == MissingSubject
                 || ReadErrorPrefix <= r.error
  {
    if Get(p, "Response").Ok? && Truthy(Get(p, "Response").value) {
      var assertion := Get(Get(p, "Response").value, "Assertion").value;
      if Truthy(assertion) {
        var authn := Get(assertion, "AuthnStatement").value;
        PathThrowsReadErrors(authn, ["$", "SessionIndex"]);
        var statement := Get(assertion, "AttributeStatement").value;
        if Truthy(statement) && Get(statement, "Attribute").value.Arr? {
          FillThrowsReadErrors(map[], Get(statement, "Attribute").value.items);
        }
      }
    }
  }

  // ---------------------------------------------------------------- the attribute map

  /** One attribute: its key is `$.Name` as a string, its value `AttributeValue._` if truthy, else `AttributeValue`. */
  lemma AttributeEntryMeaning(attr: JsValue)
    ensures AttributeEntry(attr).Ok?
            <==> Path(attr, ["$", "Name"]).Ok? && Path(attr, ["AttributeValue", "_"]).Ok?
    ensures AttributeEntry(attr).Ok? ==>
      && AttributeEntry(attr).value.0 == ToJsString(Path(attr, ["$", "Name"]).value)
      && AttributeEntry(attr).value.1
         == if TruthyAt(attr, ["AttributeValue", "_"]) then Path(attr, ["AttributeValue", "_"]).value
            else Path(attr, ["AttributeValue"]).value
  {
    if Get(attr, "$").Ok? {
      assert Path(attr, ["$", "Name"]) == Path(Get(attr, "$").value, ["Name"]);
    }
    if Get(attr, "AttributeValue").Ok? {
      assert Path(attr, ["AttributeValue", "_"]) == Path(Get(attr, "AttributeValue").value, ["_"]);
    }
  }

  /** The loop completes exactly when no attribute's read throws. */
  lemma {:induction false} FillCompletes(m: map<string, JsValue>, attrs: seq<JsValue>)
    ensures Fill(m, attrs).Ok? <==> forall i :: 0 <= i < |attrs| ==> AttributeEntry(attrs[i]).Ok?
    decreases |attrs|
  {
    if attrs != [] {
      FillCompletes(m, attrs[1..]);
      if AttributeEntry(attrs[0]).Ok? {
        var e := AttributeEntry(attrs[0]).value;
        FillCompletes(m[e.0 := e.1], attrs[1..]);
      }
      assert forall i :: 1 <= i < |attrs| ==> attrs[i] == attrs[1..][i - 1];
    }
  }

  /**
   * Names that repeat: the last attribute with a given name decides its value, and a name no
   * attribute has keeps the value it had before the loop.
   */
  lemma {:induction false} FillLastWins(m: map<string, JsValue>, attrs: seq<JsValue>, i: int, name: string)
    requires Fill(m, attrs).Ok?
    requires 0 <= i < |attrs| && AttributeEntry(attrs[i]).Ok? && AttributeEntry(attrs[i]).value.0 == name
    requires forall j :: i < j < |attrs| && AttributeEntry(attrs[j]).Ok? ==> AttributeEntry(attrs[j]).value.0 != name
    ensures name in Fill(m, attrs).value && Fill(m, attrs).value[name] == AttributeEntry(attrs[i]).value.1
    decreases |attrs|
  {
    var e := AttributeEntry(attrs[0]).value;
    var rest := attrs[1..];
    assert forall j :: 1 <= j < |attrs| ==> attrs[j] == rest[j - 1];
    if i == 0 {
      FillKeepsUnwritten(m[e.0 := e.1], rest, name);
    } else {
      FillLastWins(m[e.0 := e.1], rest, i - 1, name);
    }
  }

  /** A name that no remaining attribute carries keeps its value (or its absence). */
  lemma {:induction false} FillKeepsUnwritten(m: map<string, JsValue>, attrs: seq<JsValue>, name: string)
    requires Fill(m, attrs).Ok?
    requires forall j :: 0 <= j < |attrs| && AttributeEntry(attrs[j]).Ok? ==> AttributeEntry(attrs[j]).value.0 != name
    ensures name in Fill(m, attrs).value <==> name in m
    ensures name in m ==> Fill(m, attrs).value[name] == m[name]
    decreases |attrs|
  {
    if attrs != [] {
      var e := AttributeEntry(attrs[0]).value;
      assert forall j :: 1 <= j < |attrs| ==> attrs[j] == attrs[1..][j - 1];
      FillKeepsUnwritten(m[e.0 := e.1], attrs[1..], name);
    }
  }

  /** Every key of the finished map is the name of some attribute, or was there before. */
  lemma {:induction false} FillKeys(m: map<string, JsValue>, attrs: seq<JsValue>, name: string)
    requires Fill(m, attrs).Ok? && name in Fill(m, attrs).value && name !in m
    ensures exists i :: 0 <= i < |attrs| && AttributeEntry(attrs[i]).Ok? && AttributeEntry(attrs[i]).value.0 == name
    decreases |attrs|
  {
    var e := AttributeEntry(attrs[0]).value;
    if e.0 != name {
      FillKeys(m[e.0 := e.1], attrs[1..], name);
      var i :| 0 <= i < |attrs[1..]| && AttributeEntry(attrs[1..][i]).Ok? && AttributeEntry(attrs[1..][i]).value.0 == name;
      assert attrs[i + 1] == attrs[1..][i];
    }
  }

  // ---------------------------------------------------------------- processLogoutResponse

  /**
   * processLogoutResponse succeeds exactly when verification passes, LogoutResponse, Status and
   * StatusCode are all present, and StatusCode's `Value` is the Success URN, character for character.
   */
  lemma LogoutResponseSucceeds(env: Env, cfg: Saml.Config, logoutResponse: string)
    requires env.parseObject(env.decodeBase64(logoutResponse)).Ok?
    ensures var decoded := env.decodeBase64(logoutResponse);
      var p := env.parseObject(decoded).value;
      LogoutResponseResult(env, cfg, logoutResponse).Ok?
      <==> && VerifySignature(env, cfg, decoded).Ok?
           && TruthyAt(p, ["LogoutResponse"]) && TruthyAt(p, ["LogoutResponse", "Status"])
           && TruthyAt(p, ["LogoutResponse", "Status", "StatusCode"])
           && Path(p, ["LogoutResponse", "Status", "StatusCode", "$", "Value"]) == Ok(Str(SuccessStatus))
  {
    LogoutResponsePaths(env.parseObject(env.decodeBase64(logoutResponse)).value);
  }

  /** The reads of processLogoutResponse, written as paths from the root. */
  lemma LogoutResponsePaths(p: JsValue)
    ensures TruthyAt(p, ["LogoutResponse"]) ==>
      Path(p, ["LogoutResponse", "Status"]) == Get(Get(p, "LogoutResponse").value, "Status")
    ensures TruthyAt(p, ["LogoutResponse", "Status"]) ==>
      Path(p, ["LogoutResponse", "Status", "StatusCode"])
      == Get(Get(Get(p, "LogoutResponse").value, "Status").value, "StatusCode")
    ensures TruthyAt(p, ["LogoutResponse", "Status", "StatusCode"]) ==>
      Path(p, ["LogoutResponse", "Status", "StatusCode", "$", "Value"])
      == Path(Path(p, ["LogoutResponse", "Status", "StatusCode"]).value, ["$", "Value"])
  {
    if TruthyAt(p, ["LogoutResponse", "Status", "StatusCode"]) {
      var code := Path(p, ["LogoutResponse", "Status", "StatusCode"]).value;
      assert Path(p, ["LogoutResponse", "Status", "StatusCode", "$", "Value"]) == Path(code, ["$", "Value"]);
    }
  }

  /** Its failures: the logout-signature prefix, the format error, or `Logout failed: ` and the status. */
  lemma LogoutResponseFailures(env: Env, cfg: Saml.Config, logoutResponse: string)
    requires env.parseObject(env.decodeBase64(logoutResponse)).Ok?
    ensures var decoded := env.decodeBase64(logoutResponse);
      var p := env.parseObject(decoded).value;
      var r := LogoutResponseResult(env, cfg, logoutResponse);
      && (VerifySignature(env, cfg, decoded).Err? ==>
            r == Err(InvalidLogoutSignaturePrefix + VerifySignature(env, cfg, decoded).error))
      && (VerifySignature(env, cfg, decoded).Ok? && !p.Undefined? && !p.Null?
          && (!TruthyAt(p, ["LogoutResponse"]) || !TruthyAt(p, ["LogoutResponse", "Status"])
              || !TruthyAt(p, ["LogoutResponse", "Status", "StatusCode"]))
          ==> r == Err(InvalidLogoutResponseFormat))
      && (VerifySignature(env, cfg, decoded).Ok? && TruthyAt(p, ["LogoutResponse", "Status", "StatusCode"])
          && TruthyAt(p, ["LogoutResponse"]) && TruthyAt(p, ["LogoutResponse", "Status"])
          && Path(p, ["LogoutResponse", "Status", "StatusCode", "$", "Value"]).Ok?
          && Path(p, ["LogoutResponse", "Status", "StatusCode", "$", "Value"]).value != Str(SuccessStatus)
          ==> r == Err(LogoutFailedPrefix
                        + ToJsString(Path(p, ["LogoutResponse", "Status", "StatusCode", "$", "Value"]).value)))
  {
    LogoutResponsePaths(env.parseObject(env.decodeBase64(logoutResponse)).value);
  }

  // ---------------------------------------------------------------- processLogoutRequest

  /**
   * processLogoutRequest returns the root's `$.ID` after verification; a missing LogoutRequest and an
   * absent or empty ID are errors of their own.
   */
  lemma LogoutRequestOutcome(env: Env, cfg: Saml.Config, logoutRequest: string)
    requires env.parseObject(env.decodeBase64(logoutRequest)).Ok?
    ensures var decoded := env.decodeBase64(logoutRequest);
      var p := env.parseObject(decoded).value;
      var r := LogoutRequestResult(env, cfg, logoutRequest);
      && (r.Ok? ==> VerifySignature(env, cfg, decoded).Ok? && Truthy(r.value)
                    && Path(p, ["LogoutRequest", "$", "ID"]) == Ok(r.value))
      && (VerifySignature(env, cfg, decoded).Err? ==>
            r == Err(InvalidLogoutSignaturePrefix + VerifySignature(env, cfg, decoded).error))
      && (VerifySignature(env, cfg, decoded).Ok? && !p.Undefined? && !p.Null? && !TruthyAt(p, ["LogoutRequest"])
          ==> r == Err(InvalidLogoutRequestFormat))
      && (VerifySignature(env, cfg, decoded).Ok? && TruthyAt(p, ["LogoutRequest"])
          && Path(p, ["LogoutRequest", "$", "ID"]).Ok?
          ==> r == if Truthy(Path(p, ["LogoutRequest", "$", "ID"]).value)
                   then Ok(Path(p, ["LogoutRequest", "$", "ID"]).value) else Err(MissingRequestId))
  {
    var p := env.parseObject(env.decodeBase64(logoutRequest)).value;
    if TruthyAt(p, ["LogoutRequest"]) {
      assert Path(p, ["LogoutRequest", "$", "ID"]) == Path(Get(p, "LogoutRequest").value, ["$", "ID"]);
    }
  }

  /** Logout messages carry no Assertion in general, and then they are always rejected. */
  lemma LogoutWithoutAssertionFails(env: Env, cfg: Saml.Config, message: string)
    requires env.parseObject(env.decodeBase64(message)).Ok?
    requires env.parseDom(env.decodeBase64(message)).Ok?
    requires forall n :: n in Preorder(env.parseDom(env.decodeBase64(message)).value.nodes)
                         ==> !IsNamed(n, AssertionNs, "Assertion")
    ensures LogoutRequestResult(env, cfg, message)
            == Err(InvalidLogoutSignaturePrefix + (InvalidSignaturePrefix + NoAssertionFound))
    ensures LogoutResponseResult(env, cfg, message)
            == Err(InvalidLogoutSignaturePrefix + (InvalidSignaturePrefix + NoAssertionFound))
    ensures SamlResponseResult(env, cfg, message)
            == Err(InvalidSignaturePrefix + (InvalidSignaturePrefix + NoAssertionFound))
  {
    NoAssertionNeverVerifies(env, cfg, env.decodeBase64(message));
  }
}
