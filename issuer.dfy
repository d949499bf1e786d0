/** The three credential builders of the issuer: each assembles a fixed credential, checks it,
    signs it as a JWT and reads the token's `jti` back. */
module Issuer {
  import opened Wrappers
  import opened Claims
  import opened Ssi

  const CredentialsContext := "https://www.w3.org/2018/credentials/v1"
  const ExamplesContext := "https://www.w3.org/2018/credentials/examples/v1"
  const AlumniCredentialId := "http://example.edu/credentials/1872"
  const MembershipCredentialId := "http://example.edu/credentials/18723"

  /** The role entry every builder that grants a role uses. */
  const TeachingAssistant: Json := LangValue("Teaching Assistant", "en")

  /** What a builder returns: Go's `(credID, cred, err)`. */
  datatype Issued = Issued(credId: string, cred: string, err: Option<Error>)

  /** Every library step before and including re-parsing succeeds on `vc`. */
  predicate GatesPass(signer: Signer, lib: Library, vc: Credential)
  {
    && lib.credentialIsValid(vc).None?
    && lib.marshal(vc).None?
    && signer(vc).Success?
    && lib.parseCredentialJwt(signer(vc).value).err.None?
  }

  /** `r` is what issuing `vc` may return: no partial output on a failure, success exactly when
      every step succeeds, and then `cred` is the signed token and `credId` its `jti`. */
  predicate IssuedAs(signer: Signer, lib: Library, vc: Credential, r: Issued)
  {
    && (r.err.Some? ==> r.credId == "" && r.cred == "")
    && (r.err.None? <==> GatesPass(signer, lib, vc))
    && (r.err.None? ==> signer(vc) == Success(r.cred) && r.credId == lib.parseCredentialJwt(r.cred).jwtId)
  }

  /** The tail every builder shares: validity gate, marshalling, signing, re-parsing. */
  function Issue(signer: Signer, lib: Library, vc: Credential): (r: Issued)
    ensures IssuedAs(signer, lib, vc, r)
    // The failing step's own error is the one returned, and an invalid credential is never signed.
    ensures lib.credentialIsValid(vc).Some? ==> r.err == lib.credentialIsValid(vc)
    ensures lib.credentialIsValid(vc).None? && lib.marshal(vc).Some? ==> r.err == lib.marshal(vc)
    ensures (lib.credentialIsValid(vc).None? && lib.marshal(vc).None? && signer(vc).Failure?)
              ==> r.err == Some(signer(vc).error)
    ensures (lib.credentialIsValid(vc).None? && lib.marshal(vc).None? && signer(vc).Success?)
              ==> r.err == lib.parseCredentialJwt(signer(vc).value).err
  {
    match lib.credentialIsValid(vc)
    case Some(e) => Issued("", "", Some(e))
    case None =>
      match lib.marshal(vc)
      case Some(e) => Issued("", "", Some(e))
      case None =>
        match signer(vc)
        case Failure(e) => Issued("", "", Some(e))
        case Success(token) =>
          var parsed := lib.parseCredentialJwt(token);
          if parsed.err.Some? then Issued("", "", parsed.err)
          else Issued(parsed.jwtId, token, None)
  }

  // ---------------------------------------------------------------- identity credential

  /** Subject of the identity credential: the recipient, affiliated with one organisation. */
  function IdentitySubject(recipientDid: string): map<string, Json>
  {
    map["id" := Str(recipientDid),
        "alumniOf" := Obj(map["id" := Str(recipientDid),
                              "name" := List([LangValue("XYZ University", "en")])])]
  }

  /** The top-level `id` and `alumniOf.id` are both the recipient, the organisation is named by a
      single English entry, and the subject carries no roles and no top-level array. */
  lemma IdentitySubjectShape(recipientDid: string)
    ensures var s := IdentitySubject(recipientDid);
      && s.Keys == {"id", "alumniOf"}
      && Get(Obj(s), ["id"]) == Some(Str(recipientDid))
      && Get(Obj(s), ["alumniOf", "id"]) == Some(Str(recipientDid))
      && Get(Obj(s), ["alumniOf", "name"]) == Some(List([LangValue("XYZ University", "en")]))
      && Get(Obj(s), ["alumniOf", "roles"]) == None
      && ListKeys(s) == {}
  {
  }

  function IdentityCredential(universityDid: string, recipientDid: string, issuanceDate: string): Credential
  {
    Credential([CredentialsContext, ExamplesContext], AlumniCredentialId,
               ["VerifiableCredential", "AlumniCredential"], universityDid, issuanceDate,
               IdentitySubject(recipientDid))
  }

  /** `BuildSampleIdentityVC`; the issuance date is a parameter instead of the clock. */
  function BuildSampleIdentityVC(signer: Signer, lib: Library, universityDid: string,
                                 recipientDid: string, issuanceDate: string): (r: Issued)
    ensures IssuedAs(signer, lib, IdentityCredential(universityDid, recipientDid, issuanceDate), r)
  {
    Issue(signer, lib, IdentityCredential(universityDid, recipientDid, issuanceDate))
  }

  // ---------------------------------------------------------------- combined credential

  /** A group entry of the combined credential: tagged French, so never the teaching-assistant role. */
  function FrenchGroup(name: string): (j: Json)
    ensures j == LangValue(name, "fr") && j != TeachingAssistant
  {
    assert LangValue(name, "fr").fields["lang"] != TeachingAssistant.fields["lang"];
    LangValue(name, "fr")
  }

  /** The group names the combined credential lists after the teaching-assistant role, in order. */
  const CombinedGroupNames: seq<string> := [
    "Hiking Group", "Group1", "Group2", "Group3", "Group5", "Group6", "Group2", "Group3",
    "Hiking Group5", "Hiking Group6", "Hiking Group2", "Hiking Group3",
    "Hiking Group5", "Hiking Group6", "Hiking Group2", "Hiking Group3",
    "Hiking Group5", "Hiking Group6"]

  /** The role list of the combined credential, in the order the issuer writes it. */
  function CombinedRoles(): (roles: seq<Json>)
    ensures |roles| == 19
  {
    [LangValue("Teaching Assistant", "en")]
      + seq(|CombinedGroupNames|, i requires 0 <= i < |CombinedGroupNames| => FrenchGroup(CombinedGroupNames[i]))
  }

  /** The combined role list starts with the teaching-assistant role and holds it nowhere else. */
  lemma CombinedRolesShape()
    ensures CombinedRoles()[0] == TeachingAssistant
    ensures forall i :: 0 < i < |CombinedRoles()| ==> CombinedRoles()[i] != TeachingAssistant
  {
  }

  /** Role names repeat in the combined list: "Group2" at positions 3 and 7, "Group3" at 4 and 8. */
  lemma CombinedRolesRepeat()
    ensures CombinedRoles()[3] == CombinedRoles()[7] == LangValue("Group2", "fr")
    ensures CombinedRoles()[4] == CombinedRoles()[8] == LangValue("Group3", "fr")
  {
  }

  /** Subject of the combined credential: the affiliation plus the role list, which sits one
      level below the top, under `alumniOf`. */
  function CombinedSubject(recipientDid: string): map<string, Json>
  {
    map["id" := Str(recipientDid),
        "alumniOf" := Obj(map["id" := Str(recipientDid),
                              "name" := List([LangValue("Example University", "en")]),
                              "roles" := List(CombinedRoles())])]
  }

  lemma CombinedSubjectShape(recipientDid: string)
    ensures var s := CombinedSubject(recipientDid);
      && s.Keys == {"id", "alumniOf"}
      && Get(Obj(s), ["id"]) == Some(Str(recipientDid))
      && Get(Obj(s), ["alumniOf", "id"]) == Some(Str(recipientDid))
      && Get(Obj(s), ["alumniOf", "name"]) == Some(List([LangValue("Example University", "en")]))
      && Get(Obj(s), ["alumniOf", "roles"]) == Some(List(CombinedRoles()))
      && ListKeys(s) == {}
  {
  }

  function CombinedCredential(universityDid: string, recipientDid: string, issuanceDate: string): Credential
  {
    Credential([CredentialsContext, ExamplesContext], AlumniCredentialId,
               ["VerifiableCredential", "AlumniCredential"], universityDid, issuanceDate,
               CombinedSubject(recipientDid))
  }

  /** `BuildCombinedVC`; the issuance date is a parameter instead of the clock. */
  function BuildCombinedVC(signer: Signer, lib: Library, universityDid: string,
                           recipientDid: string, issuanceDate: string): (r: Issued)
    ensures IssuedAs(signer, lib, CombinedCredential(universityDid, recipientDid, issuanceDate), r)
  {
    Issue(signer, lib, CombinedCredential(universityDid, recipientDid, issuanceDate))
  }

  // ---------------------------------------------------------------- membership credential

  /** Subject of the membership credential: one reference object holding the recipient and a
      single role; there is no top-level `id`. */
  function MembershipSubject(recipientDid: string): map<string, Json>
  {
    map["IdentityReference" := Obj(map["id" := Str(recipientDid),
                                       "roles" := List([LangValue("Teaching Assistant", "en")])])]
  }

  lemma MembershipSubjectShape(recipientDid: string)
    ensures var s := MembershipSubject(recipientDid);
      && s.Keys == {"IdentityReference"}
      && Get(Obj(s), ["id"]) == None
      && Get(Obj(s), ["IdentityReference", "id"]) == Some(Str(recipientDid))
      && Get(Obj(s), ["IdentityReference", "roles"]) == Some(List([TeachingAssistant]))
      && ObjectKeys(s) == {"IdentityReference"} && ListKeys(s) == {}
  {
  }

  function MembershipCredential(universityDid: string, recipientDid: string, issuanceDate: string): Credential
  {
    Credential([CredentialsContext, ExamplesContext], MembershipCredentialId,
               ["VerifiableCredential", "AlumniMemberCredential"], universityDid, issuanceDate,
               MembershipSubject(recipientDid))
  }

  /** `BuildMembershipVC`; the issuance date is a parameter instead of the clock. */
  function BuildMembershipVC(signer: Signer, lib: Library, universityDid: string,
                             recipientDid: string, issuanceDate: string): (r: Issued)
    ensures IssuedAs(signer, lib, MembershipCredential(universityDid, recipientDid, issuanceDate), r)
  {
    Issue(signer, lib, MembershipCredential(universityDid, recipientDid, issuanceDate))
  }

  // ---------------------------------------------------------------- shared envelope

  /** All three credentials are issued by the university under the same two contexts, in that
      order; identity and combined share id and types, membership has its own id and second type. */
  lemma Envelopes(universityDid: string, recipientDid: string, date: string)
    ensures forall vc | vc in {IdentityCredential(universityDid, recipientDid, date),
                               CombinedCredential(universityDid, recipientDid, date),
                               MembershipCredential(universityDid, recipientDid, date)} ::
              && vc.issuer == universityDid
              && vc.issuanceDate == date
              && vc.context == [CredentialsContext, ExamplesContext]
              && |vc.types| == 2 && vc.types[0] == "VerifiableCredential"
    ensures IdentityCredential(universityDid, recipientDid, date).id
            == CombinedCredential(universityDid, recipientDid, date).id == AlumniCredentialId
    ensures IdentityCredential(universityDid, recipientDid, date).types
            == CombinedCredential(universityDid, recipientDid, date).types
            == ["VerifiableCredential", "AlumniCredential"]
    ensures MembershipCredential(universityDid, recipientDid, date).id == MembershipCredentialId
    ensures MembershipCredential(universityDid, recipientDid, date).types
            == ["VerifiableCredential", "AlumniMemberCredential"]
  {
  }
}
