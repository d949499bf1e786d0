# Verified model of the vcauthDemo credential builders and access check

This project is a Dafny model of the core of a small Go demo of W3C Verifiable Credentials
(VC Data Model 1.0). A university issues JWT-signed credentials to a student. The student
presents them to an employer. The employer's access check grants access when the presented
claims hold the role `{"value": "Teaching Assistant", "lang": "en"}`.

The model covers two parts of the source:

- **Credential builders** (`pkg/issuer.go`, module `Issuer`). `BuildSampleIdentityVC`,
  `BuildCombinedVC` and `BuildMembershipVC` are pure functions. Each assembles its fixed
  credential and runs the library's validity check, JSON marshalling, JWT signing and re-parsing.
  It returns `(credID, cred, err)`: `credID` is the token's `jti` claim (section 4.1.7 of
  RFC 7519) and `cred` is the token.
- **Access check** `ValidateAccess` (`pkg/verifier.go`, module `Verifier`). This is a method
  with the source's loops. It verifies the presentation and branches on how many credentials it
  holds. It then scans the top-level claims of one credential, in Go's unspecified map order:
  - case 1 (fewer than two credentials): the first array-valued claim decides;
  - case 2 (two or more): the first object-valued claim decides, and only its `roles[0]` is read.
  The scan methods are proved equal to spec functions ("the first matching key decides") along
  the order they visit. Lemmas then state what holds along every order.

Module `Ssi` holds the library interface. The library calls are function values passed in
(`Signer`, `Library`), so they can fail in any way: `IsValid`, `json.Marshal`,
`SignVerifiableCredentialJWT`, `ParseVerifiableCredentialFromJWT`,
`VerifyVerifiablePresentationJWT` and `vp.IsValid`. `Wrap` models `errors.Wrap` of the errors
package, under which wrapping nil gives nil. Module `Claims` models decoded JSON claims as
`Str | List | Obj`. Dafny's structural equality on these plays the role of `reflect.DeepEqual`.
Module `Scenarios` runs the builders' credentials through the access check.

The model keeps two things apart:

- the exit the check reaches, a `Decision`: `Granted`, `RoleNotFound`, a verification failure,
  or `Crashed` for a Go panic;
- what Go returns there, an `Outcome` (`AsWritten`).

The two panics are indexing an empty credential list and indexing a missing or empty `roles`.
A nil credential pointer after a failed parse is a third. They are modelled as outcomes, not
excluded by preconditions.

Where the source's own comments and its code differ, the model follows the code:

- The combined credential lists 19 roles (`pkg/issuer.go:92-150`). The doc comment at
  `pkg/issuer.go:75` says twenty.
- The comment at `pkg/verifier.go:31` says case 1 gets all roles and checks whether the
  teaching-assistant role exists. Case 1 never looks below the top level, so it never does this
  for the combined credential. That credential is granted whatever its nested role list holds
  (`Scenarios.CombinedGrantedWithoutReadingRoles`), and the identity credential alone is granted
  too.

Other behaviour of the code worth knowing:

- Case 1 runs for fewer than two credentials (`pkg/verifier.go:30`), so also for none. With
  none, `[0]` panics.
- The membership subject has no top-level `id`. Its recipient sits under `IdentityReference`
  (`pkg/issuer.go:201-210`).
- A denial reaches the caller as nil, not as an error (see Findings). The caller at
  `main.go:159-160` reads nil as "Access Granted!".

## Model

| member | source | states |
|---|---|---|
| `Claims.LangValue` | pkg/issuer.go:28-30 | a name or role entry is an object with exactly the keys `value` and `lang`, holding the given strings |
| `Claims.LangValueInjective` | pkg/verifier.go:38 | two entries are deep-equal exactly when both value and language agree |
| `Issuer.Issue` | pkg/issuer.go:46-66 | no partial output on any failure (`credID` and `cred` are ""); success exactly when validity, marshalling, signing and parsing all succeed; the failing step's own error is returned, so an invalid credential is never signed; on success `cred` is the signed token and `credID` the `jti` parsed from that same token |
| `Issuer.BuildSampleIdentityVC` | pkg/issuer.go:16-71 | the `Issue` contract for the identity credential |
| `Issuer.BuildCombinedVC` | pkg/issuer.go:76-190 | the `Issue` contract for the combined credential |
| `Issuer.BuildMembershipVC` | pkg/issuer.go:194-248 | the `Issue` contract for the membership credential |
| `Issuer.Envelopes` | pkg/issuer.go:17-44 | all three credentials have issuer = the university DID, the given issuance date and the two W3C contexts in order; identity and combined share id `…/1872` and types `[VerifiableCredential, AlumniCredential]`; membership has id `…/18723` and types `[VerifiableCredential, AlumniMemberCredential]` |
| `Issuer.IdentitySubjectShape` | pkg/issuer.go:23-33 | top-level `id` and `alumniOf.id` are both the recipient DID; `alumniOf.name` is the single entry `{XYZ University, en}`; no roles and no top-level array |
| `Issuer.FrenchGroup` | pkg/issuer.go:95-149 | every group entry of the combined list is tagged `fr`, so it is never the required role |
| `Issuer.CombinedRoles` | pkg/issuer.go:92-150 | the combined role list has 19 entries |
| `Issuer.CombinedRolesShape` | pkg/issuer.go:92-95 | the first entry is `{Teaching Assistant, en}` and no other entry is |
| `Issuer.CombinedRolesRepeat` | pkg/issuer.go:101-118 | role names repeat: `Group2` at positions 3 and 7, `Group3` at 4 and 8 |
| `Issuer.CombinedSubjectShape` | pkg/issuer.go:83-152 | top-level keys `id` and `alumniOf`, both ids the recipient; the role list sits under `alumniOf.roles`, one level down, so the subject has no top-level array |
| `Issuer.MembershipSubjectShape` | pkg/issuer.go:201-210 | the only top-level key is `IdentityReference` (no top-level `id`); its `id` is the recipient and its `roles` is the single entry `{Teaching Assistant, en}` |
| `Verifier.FirstOfKind` | pkg/verifier.go:34-45 | the scan along an order yields the value of the first visited key whose value is of the sought kind (no earlier visited key holds one), and finds none exactly when no visited key holds one |
| `Verifier.HoldsRequiredRole` | pkg/verifier.go:37-42 | the inner loop finds a deep-equal entry exactly when the required role is in the array |
| `Verifier.ScanForRoleList` | pkg/verifier.go:34-46 | the case-1 loop visits the keys in some iteration order, and its result is the case-1 verdict along that order; whatever the order, a denial is backed by a top-level array lacking the role, and a subject whose top-level arrays all hold it (or that has none) is granted |
| `Verifier.ScanForMembership` | pkg/verifier.go:51-62 | the case-2 loop visits the keys in some iteration order, and its result is the case-2 verdict along that order; whatever the order, a grant is backed by a top-level object whose `roles[0]` is the required role, a panic by one without roles, and a subject with no top-level object is denied |
| `Verifier.ValidateAccess` | pkg/verifier.go:18-63 | the exit reached is the specified decision for some possible map order of the scanned subject, and the returned value is the code's return at that exit |
| `Verifier.AsWritten` | pkg/verifier.go:22-62 | grants and role denials both return nil; the two verification failures return a non-nil wrapped error; the code panics exactly at a crash |
| `Verifier.Intended` | pkg/verifier.go:43 | corrected return: nil exactly at a grant; every other exit as written |
| `Verifier.RoleMatchIsExact` | pkg/verifier.go:19-21 | a claim matches the required role iff it is an object with exactly keys `value`/`lang` holding "Teaching Assistant"/"en"; another language, another letter case or an extra key does not match |
| `Verifier.NoRoleListGrants` | pkg/verifier.go:46 | case 1 grants any subject with no top-level array, along every order |
| `Verifier.OneRoleListDecides` | pkg/verifier.go:34-44 | with exactly one top-level array, case 1 grants iff that array holds the required role, along every order |
| `Verifier.NoObjectDenies` | pkg/verifier.go:62 | case 2 denies any subject with no top-level object |
| `Verifier.OneObjectDecides` | pkg/verifier.go:51-60 | with exactly one top-level object, case 2 gives that object's `roles[0]` verdict along every order: granted iff `roles[0]` is the required role, a panic iff `roles` is missing, not an array or empty |
| `Verifier.IterationOrderMatters` | pkg/verifier.go:34-44 | with two top-level arrays the map order decides: one subject is granted along one order and denied along the other |
| `Verifier.SignatureFailureReadsNoClaim` | pkg/verifier.go:22-25 | a failed presentation verification returns that error wrapped "validating VP signature", whatever the rest of the library does |
| `Verifier.InvalidPresentationReadsNoClaim` | pkg/verifier.go:27-29 | a presentation failing `IsValid` returns that error wrapped "validating VP", whatever its credentials hold |
| `Verifier.OnlyInspectedCredentialMatters` | pkg/verifier.go:30-50 | with fewer than two credentials only index 0 is read, otherwise only index 1: presentations that agree there get the same decision |
| `Verifier.ChecksPassedNeverErrs` | pkg/verifier.go:27-62 | once both verification steps pass, the code returns nil or panics |
| `Verifier.DenialReturnsNil` | pkg/verifier.go:43 | a single credential whose only claim is an empty role array is denied, yet nil is returned; the corrected return is an error |
| `Scenarios.IssuedRoleIsRequiredRole` | pkg/verifier.go:19-21 | the role the issuer writes is the role the check requires |
| `Scenarios.CombinedGrantedWithoutReadingRoles` | pkg/issuer.go:83-92 | case 1 grants the combined subject along every order, and still does with its role list replaced by any list, even an empty one |
| `Scenarios.IdentityAloneGranted` | pkg/issuer.go:23-33 | case 1 grants the identity subject on its own, although it carries no role |
| `Scenarios.MembershipGrantedByCase2` | pkg/issuer.go:201-210 | case 2 grants the membership subject along every order |
| `Scenarios.LinkedPresentationGranted` | pkg/verifier.go:48-57 | a verified presentation whose second credential is the token `BuildMembershipVC` returned is granted, with nil returned, provided parsing gives back the signed subject |
| `Scenarios.CombinedPresentationGranted` | pkg/verifier.go:30-46 | a verified presentation holding only the token `BuildCombinedVC` returned is granted by case 1, with nil returned |
| `Scenarios.LinkedOtherRoleDenied` | pkg/verifier.go:55-59 | a second credential of membership shape with any other role (e.g. "Guest") is denied; as written nil is returned, and only the corrected return reports it |

## Findings

| source | as written | input that shows it | evidently intended | confidence | as-written member | corrected member |
|---|---|---|---|---|---|---|
| pkg/verifier.go:43 | the denials at lines 43, 59 and 62 return `errors.Wrap(err, "validating VP")`. `err` is nil after the check at line 27, and wrapping nil gives nil, so every denial returns nil, which callers read as access granted | a verified presentation with one credential whose subject is `{"roles": []}` | a denial returns a non-nil error | high (not executed) | `Verifier.DenialReturnsNil` | `Verifier.Intended` |

## Left out

- `main.go` is not part of this model. It is demo orchestration: console steps, timing, the environment-driven debug level, and wallet and signer setup.
- The presentation-request and submission builders and the entity/wallet code that `main.go` calls are not part of this model. Their source is not among the modelled files.
- Cryptography, JWT encoding, DID resolution and the library's validity checks are not modelled. They are function values the caller supplies. The end-to-end lemmas assume, through `Scenarios.ParseKeepsSubject`, that parsing a signed token returns a credential with the signed subject. The model does not prove this.
- The issuance date (`time.Now()` formatted as RFC 3339) is a parameter. JSON marshalling is modelled only by whether it fails. Its output, the `logrus` debug line and `example.WriteNote` are logging side effects and are left out.
- Claim values are strings, arrays and objects only. JSON numbers, booleans and null do not occur in these credentials. In the scans they would behave like strings: neither an array nor an object.
- The submission is a string, not `[]byte`. Go's conversion between the two is not modelled.
- The inner credentials' signatures are never checked, and parse errors are ignored (`pkg/verifier.go:32-33, 49-50`). The model reproduces both. A failed parse is modelled as a nil credential, which panics when its subject is read. No strengthened variant that checks inner signatures is modelled.
- `jwt.Token.JwtID()` on a successful parse is modelled as the `jti` string in the parse result. A nil token with a nil error is not modelled.
