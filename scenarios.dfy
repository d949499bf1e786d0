/** The builders' credentials run through the access check: which presentations are granted,
    and by which case of the check. */
module Scenarios {
  import opened Wrappers
  import opened Claims
  import opened Ssi
  import opened Issuer
  import opened Verifier

  /** Parsing the signed token yields a credential with the subject that was signed. This is
      what the library is expected to do; the model does not prove it. */
  predicate ParseKeepsSubject(signer: Signer, lib: Library, vc: Credential)
  {
    signer(vc).Success? ==>
      var parsed := lib.parseCredentialJwt(signer(vc).value).vc;
      parsed.Some? && parsed.value.subject == vc.subject
  }

  /** The role the issuer writes is the role the relying party requires. */
  lemma IssuedRoleIsRequiredRole()
    ensures TeachingAssistant == RequiredRole
  {
  }

  /** Case 1 grants the combined subject along every order without reading its roles: with its
      role list replaced by any other, even an empty one, it is still granted. */
  lemma CombinedGrantedWithoutReadingRoles(recipientDid: string, roles: seq<Json>, order: seq<string>)
    ensures RoleListVerdict(CombinedSubject(recipientDid), order) == Granted
    ensures var s := CombinedSubject(recipientDid);
            RoleListVerdict(s["alumniOf" := Obj(s["alumniOf"].fields["roles" := List(roles)])], order) == Granted
  {
    var s := CombinedSubject(recipientDid);
    CombinedSubjectShape(recipientDid);
    NoRoleListGrants(s, order);
    var s' := s["alumniOf" := Obj(s["alumniOf"].fields["roles" := List(roles)])];
    assert s'.Keys == {"id", "alumniOf"};
    assert ListKeys(s') == {} by {
      assert !s'["id"].List? && !s'["alumniOf"].List?;
    }
    NoRoleListGrants(s', order);
  }

  /** Case 1 also grants the identity credential on its own, although it carries no role. */
  lemma IdentityAloneGranted(recipientDid: string, order: seq<string>)
    ensures RoleListVerdict(IdentitySubject(recipientDid), order) == Granted
  {
    IdentitySubjectShape(recipientDid);
    NoRoleListGrants(IdentitySubject(recipientDid), order);
  }

  /** Case 2 grants the membership subject along every order, by its single role. */
  lemma MembershipGrantedByCase2(recipientDid: string, order: seq<string>)
    requires IsIterationOrder(order, MembershipSubject(recipientDid))
    ensures MembershipVerdict(MembershipSubject(recipientDid), order) == Granted
  {
    var s := MembershipSubject(recipientDid);
    MembershipSubjectShape(recipientDid);
    OneObjectDecides(s, order, "IdentityReference");
    assert RolesOf(s["IdentityReference"].fields) == [TeachingAssistant];
  }

  /** End to end, linked credentials: a verified presentation whose second credential is the
      token `BuildMembershipVC` issued is granted, and the code returns nil. */
  lemma LinkedPresentationGranted(signer: Signer, lib: Library, universityDid: string, recipientDid: string,
                                  date: string, submission: string, vp: Presentation, order: seq<string>)
    requires BuildMembershipVC(signer, lib, universityDid, recipientDid, date).err.None?
    requires ParseKeepsSubject(signer, lib, MembershipCredential(universityDid, recipientDid, date))
    requires lib.verifyPresentationJwt(submission) == Success(vp) && lib.presentationIsValid(vp) == None
    requires |vp.credentials| >= 2
    requires vp.credentials[1] == Str(BuildMembershipVC(signer, lib, universityDid, recipientDid, date).cred)
    requires OrderFits(lib, submission, order)
    ensures Decide(lib, submission, order) == Granted
    ensures AsWritten(Decide(lib, submission, order)) == Returns(None)
  {
    var vc := MembershipCredential(universityDid, recipientDid, date);
    assert lib.parseCredentialJwt(TokenOf(vp.credentials[1])).vc.value.subject == vc.subject;
    assert StageOf(lib, submission) == AtMembershipScan(MembershipSubject(recipientDid));
    MembershipGrantedByCase2(recipientDid, order);
  }

  /** End to end, one combined credential: a verified presentation holding only the token
      `BuildCombinedVC` issued is granted by case 1, and the code returns nil. */
  lemma CombinedPresentationGranted(signer: Signer, lib: Library, universityDid: string, recipientDid: string,
                                    date: string, submission: string, vp: Presentation, order: seq<string>)
    requires BuildCombinedVC(signer, lib, universityDid, recipientDid, date).err.None?
    requires ParseKeepsSubject(signer, lib, CombinedCredential(universityDid, recipientDid, date))
    requires lib.verifyPresentationJwt(submission) == Success(vp) && lib.presentationIsValid(vp) == None
    requires vp.credentials == [Str(BuildCombinedVC(signer, lib, universityDid, recipientDid, date).cred)]
    requires OrderFits(lib, submission, order)
    ensures Decide(lib, submission, order) == Granted
    ensures AsWritten(Decide(lib, submission, order)) == Returns(None)
  {
    var vc := CombinedCredential(universityDid, recipientDid, date);
    assert lib.parseCredentialJwt(TokenOf(vp.credentials[0])).vc.value.subject == vc.subject;
    assert StageOf(lib, submission) == AtRoleListScan(CombinedSubject(recipientDid));
    CombinedGrantedWithoutReadingRoles(recipientDid, [], order);
  }

  /** Linked credentials whose second credential has the membership shape but another role
      (say "Guest") are denied; as written the code still returns nil, and only the intended
      return reports the denial. */
  lemma LinkedOtherRoleDenied(lib: Library, submission: string, vp: Presentation, vc: Credential,
                              recipientDid: string, role: Json, order: seq<string>)
    requires lib.verifyPresentationJwt(submission) == Success(vp) && lib.presentationIsValid(vp) == None
    requires |vp.credentials| >= 2
    requires lib.parseCredentialJwt(TokenOf(vp.credentials[1])).vc == Some(vc)
    requires vc.subject == map["IdentityReference" := Obj(map["id" := Str(recipientDid), "roles" := List([role])])]
    requires role != RequiredRole
    requires OrderFits(lib, submission, order)
    ensures Decide(lib, submission, order) == RoleNotFound
    ensures AsWritten(Decide(lib, submission, order)) == Returns(None)
    ensures Intended(Decide(lib, submission, order)).err.Some?
  {
    assert ObjectKeys(vc.subject) == {"IdentityReference"};
    OneObjectDecides(vc.subject, order, "IdentityReference");
    assert RolesOf(vc.subject["IdentityReference"].fields) == [role];
  }
}
