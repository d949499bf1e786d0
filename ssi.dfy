/** The parts of the external credential library (and of the error-wrapping package) that the
    issuer and the verifier call. Their bodies are not part of this model: each is a function
    value supplied by the caller, so nothing is assumed about it beyond its type. */
module Ssi {
  import opened Wrappers
  import opened Claims

  /** The fields of a verifiable credential that the builders set: `@context`, `id`, `type`,
      `issuer`, `issuanceDate` and `credentialSubject` (sections 4.1 to 4.6 of the
      W3C Verifiable Credentials Data Model 1.0). */
  datatype Credential = Credential(
    context: seq<string>,
    id: string,
    types: seq<string>,
    issuer: string,
    issuanceDate: string,
    subject: map<string, Json>)

  /** A verified presentation; only its embedded credentials (Go `[]any`) are read. */
  datatype Presentation = Presentation(credentials: seq<Json>)

  /** A Go `error`: one raised by a library call, or one wrapped with a context message. */
  datatype Error = Fault(reason: string) | Wrapped(message: string, cause: Error)

  /** `errors.Wrap` of the errors package: wrapping a nil error yields nil. */
  function Wrap(err: Option<Error>, message: string): Option<Error>
  {
    match err
    case None => None
    case Some(e) => Some(Wrapped(message, e))
  }

  /** What parsing a credential JWT returns: the `jti` claim of the token (section 4.1.7 of
      RFC 7519), the decoded credential (`None` is a nil pointer) and the error. */
  datatype Parsed = Parsed(jwtId: string, vc: Option<Credential>, err: Option<Error>)

  /** Signing a credential as a JWT with one issuer key. */
  type Signer = Credential -> Result<string, Error>

  /** The remaining library calls, each of which may fail. */
  datatype Library = Library(
    credentialIsValid: Credential -> Option<Error>,
    marshal: Credential -> Option<Error>,
    parseCredentialJwt: string -> Parsed,
    verifyPresentationJwt: string -> Result<Presentation, Error>,
    presentationIsValid: Presentation -> Option<Error>)
}
