/** The fixed names and the algorithm identifier of the HTTP-Redirect binding's query, with the facts the encoders need about them. */
module BindingNames {
  import opened UriEncoding

  /**
   * XML Signature's identifier for RSA-SHA256 (RFC 4051 section 2.3.2). It is written in short pieces
   * because the solver cannot check a character fact over one 50-character literal: each piece is
   * checked on its own and `EncodersAgreeOnConcat` joins them.
   */
  const SigAlgRsaSha256: string :=
    "http://" + "www.w3." + "org/" + "2001/04/" + "xmldsig" + "-more#" + "rsa-" + "sha256"

  /** The form serializer leaves the name `Signature` as it is. */
  lemma SignatureNameUnchanged()
    ensures FormEncode("Signature") == "Signature"
  {
    forall c | c in "Signature" ensures FormSafe(c) { }
    FormEncodeIdentity("Signature");
  }

  /** The message parameter names. */
  lemma MessageNames(param: string)
    requires param == "SAMLRequest" || param == "SAMLResponse"
    ensures param != "Signature" && '&' !in param
  {
    assert |param| != |"Signature"|;
  }

  /** The form serializer leaves the fixed names as they are. */
  lemma RelayStateNameUnchanged()
    ensures FormEncode("RelayState") == "RelayState"
  {
    forall c | c in "RelayState" ensures FormSafe(c) { }
    FormEncodeIdentity("RelayState");
  }

  lemma SigAlgNameUnchanged()
    ensures FormEncode("SigAlg") == "SigAlg"
  {
    forall c | c in "SigAlg" ensures FormSafe(c) { }
    FormEncodeIdentity("SigAlg");
  }

  lemma MessageNameUnchanged(param: string)
    requires param == "SAMLRequest" || param == "SAMLResponse"
    ensures FormEncode(param) == param
  {
    forall c | c in param ensures FormSafe(c) { }
    FormEncodeIdentity(param);
  }

  /** The pieces of the signature algorithm URI hold no character on which the encoders disagree. */
  lemma SigAlgHead()
    ensures EncodersAgreeOn("http://") && EncodersAgreeOn("www.w3.")
  {
  }

  lemma SigAlgHost()
    ensures EncodersAgreeOn("org/") && EncodersAgreeOn("2001/04/")
  {
  }

  lemma SigAlgNamespace()
    ensures EncodersAgreeOn("xmldsig") && EncodersAgreeOn("-more#")
  {
  }

  lemma SigAlgFragment()
    ensures EncodersAgreeOn("rsa-") && EncodersAgreeOn("sha256")
  {
  }

  /** The signature algorithm URI is written the same by both encoders. */
  lemma SigAlgAgrees()
    ensures EncodersAgreeOn(SigAlgRsaSha256)
  {
    SigAlgHead();
    SigAlgHost();
    SigAlgNamespace();
    SigAlgFragment();
    EncodersAgreeOnConcat("http://", "www.w3.");
    EncodersAgreeOnConcat("http://" + "www.w3.", "org/");
    EncodersAgreeOnConcat("http://" + "www.w3." + "org/", "2001/04/");
    EncodersAgreeOnConcat("http://" + "www.w3." + "org/" + "2001/04/", "xmldsig");
    EncodersAgreeOnConcat("http://" + "www.w3." + "org/" + "2001/04/" + "xmldsig", "-more#");
    EncodersAgreeOnConcat("http://" + "www.w3." + "org/" + "2001/04/" + "xmldsig" + "-more#", "rsa-");
    EncodersAgreeOnConcat("http://" + "www.w3." + "org/" + "2001/04/" + "xmldsig" + "-more#" + "rsa-", "sha256");
  }
}
