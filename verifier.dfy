/** The relying party's access check `ValidateAccess`: verify the presentation, then look for the
    required role among the claims of one embedded credential. */
module Verifier {
  import opened Wrappers
  import opened Claims
  import opened Ssi

  /** The role the relying party requires, compared by deep equality. */
  const RequiredRole: Json := LangValue("Teaching Assistant", "en")

  /** The run-time panics the check can hit. */
  datatype PanicReason = IndexOutOfRange | NilDereference

  /** Which exit the access check reaches: one of the two verification failures, a grant, a
      denial because the role is missing, or a panic. */
  datatype Decision =
    | SignatureRejected(cause: Error)
    | PresentationRejected(cause: Error)
    | Granted
    | RoleNotFound
    | Crashed(reason: PanicReason)

  /** What the Go function does at that exit: return an `error` (None is nil) or panic. */
  datatype Outcome = Returns(err: Option<Error>) | Panics(reason: PanicReason)

  // ------------------------------------------------------------------ map iteration order

  predicate Distinct(order: seq<string>)
  {
    forall i, j :: 0 <= i < j < |order| ==> order[i] != order[j]
  }

  /** `order` is an order in which a `range` over `subject` may visit its keys: each key once.
      The language leaves the order unspecified, so the model allows every such order. */
  ghost predicate IsIterationOrder(order: seq<string>, subject: map<string, Json>)
  {
    Distinct(order) && forall k :: k in order <==> k in subject
  }

  /** Some order of the keys in `keys`. */
  ghost function Enumerate(keys: set<string>): (order: seq<string>)
    ensures Distinct(order) && forall k :: k in order <==> k in keys
    decreases keys
  {
    if keys == {} then []
    else
      var k :| k in keys;
      [k] + Enumerate(keys - {k})
  }

  // ------------------------------------------------------------------ scans over the subject

  /** The two kinds of claim value a scan stops at: an array or an object. */
  datatype Kind = ListValue | ObjectValue

  predicate HasKind(j: Json, kind: Kind)
  {
    match kind
    case ListValue => j.List?
    case ObjectValue => j.Obj?
  }

  /** The first value of `kind` met when visiting the subject's keys along `order`. */
  function FirstOfKind(subject: map<string, Json>, order: seq<string>, kind: Kind): (r: Option<Json>)
    ensures r.Some? ==> HasKind(r.value, kind)
    ensures r.Some? ==> exists i :: && 0 <= i < |order| && order[i] in subject && subject[order[i]] == r.value
                                    && forall j :: 0 <= j < i && order[j] in subject ==> !HasKind(subject[order[j]], kind)
    ensures r.None? <==> forall i :: 0 <= i < |order| && order[i] in subject ==> !HasKind(subject[order[i]], kind)
  {
    if order == [] then None
    else if order[0] in subject && HasKind(subject[order[0]], kind) then Some(subject[order[0]])
    else FirstOfKind(subject, order[1..], kind)
  }

  /** A scan along `a + b` stops inside `a` when it can, and otherwise behaves as a scan along `b`. */
  lemma {:induction false} FirstOfKindConcat(subject: map<string, Json>, a: seq<string>, b: seq<string>, kind: Kind)
    ensures FirstOfKind(subject, a + b, kind)
            == if FirstOfKind(subject, a, kind).Some? then FirstOfKind(subject, a, kind) else FirstOfKind(subject, b, kind)
  {
    if a == [] {
      assert a + b == b;
    } else {
      assert (a + b)[0] == a[0];
      assert (a + b)[1..] == a[1..] + b;
      FirstOfKindConcat(subject, a[1..], b, kind);
    }
  }

  /** Case 1: the first array-valued claim decides; a subject without one is granted. */
  function RoleListVerdict(subject: map<string, Json>, order: seq<string>): Decision
  {
    match FirstOfKind(subject, order, ListValue)
    case None => Granted
    case Some(v) => if RequiredRole in v.items then Granted else RoleNotFound
  }

  /** `z, _ := y["roles"].([]interface{})`: the roles array, or nil when absent or not an array. */
  function RolesOf(fields: map<string, Json>): seq<Json>
  {
    if "roles" in fields && fields["roles"].List? then fields["roles"].items else []
  }

  /** Case 2 on the object that decides: only `roles[0]` is compared; indexing an empty or
      missing roles array panics. */
  function FirstRoleVerdict(fields: map<string, Json>): Decision
  {
    var z := RolesOf(fields);
    if |z| == 0 then Crashed(IndexOutOfRange)
    else if z[0] == RequiredRole then Granted
    else RoleNotFound
  }

  /** Case 2: the first object-valued claim decides; a subject without one is denied. */
  function MembershipVerdict(subject: map<string, Json>, order: seq<string>): Decision
  {
    match FirstOfKind(subject, order, ObjectValue)
    case None => RoleNotFound
    case Some(v) => FirstRoleVerdict(v.fields)
  }

  // ------------------------------------------------------------------ the whole check

  /** `x, _ := v.(string)`: an embedded credential's token, or "" when it is not a string. */
  function TokenOf(j: Json): string
  {
    if j.Str? then j.s else ""
  }

  /** How far the check gets before scanning claims: an exit already reached, or the subject
      that case 1 or case 2 scans. */
  datatype Stage =
    | Done(decision: Decision)
    | AtRoleListScan(subject: map<string, Json>)
    | AtMembershipScan(subject: map<string, Json>)

  function StageOf(lib: Library, submission: string): Stage
  {
    match lib.verifyPresentationJwt(submission)
    case Failure(e) => Done(SignatureRejected(e))
    case Success(vp) =>
      match lib.presentationIsValid(vp)
      case Some(e) => Done(PresentationRejected(e))
      case None =>
        if |vp.credentials| == 0 then Done(Crashed(IndexOutOfRange))
        else
          var index := if |vp.credentials| < 2 then 0 else 1;
          match lib.parseCredentialJwt(TokenOf(vp.credentials[index])).vc
          case None => Done(Crashed(NilDereference))
          case Some(vc) => if index == 0 then AtRoleListScan(vc.subject) else AtMembershipScan(vc.subject)
  }

  /** `order` is a possible visiting order for the subject the check scans (empty when none is scanned). */
  ghost predicate OrderFits(lib: Library, submission: string, order: seq<string>)
  {
    match StageOf(lib, submission)
    case Done(_) => order == []
    case AtRoleListScan(s) => IsIterationOrder(order, s)
    case AtMembershipScan(s) => IsIterationOrder(order, s)
  }

  /** The exit the check reaches when the scanned subject is visited along `order`. */
  function Decide(lib: Library, submission: string, order: seq<string>): Decision
  {
    match StageOf(lib, submission)
    case Done(d) => d
    case AtRoleListScan(s) => RoleListVerdict(s, order)
    case AtMembershipScan(s) => MembershipVerdict(s, order)
  }

  /** The value the code returns at each exit. Every denial wraps the variable `err`, which is
      nil once `vp.IsValid()` has passed, and wrapping nil yields nil. */
  function AsWritten(d: Decision): (out: Outcome)
    ensures d == Granted || d == RoleNotFound ==> out == Returns(None)
    ensures d.SignatureRejected? || d.PresentationRejected? ==> out.Returns? && out.err.Some?
    ensures out.Panics? <==> d.Crashed?
  {
    match d
    case SignatureRejected(e) => Returns(Wrap(Some(e), "validating VP signature"))
    case PresentationRejected(e) => Returns(Wrap(Some(e), "validating VP"))
    case Granted => Returns(None)
    case RoleNotFound => Returns(Wrap(None, "validating VP"))
    case Crashed(p) => Panics(p)
  }

  /** The evidently intended return: a denial is a non-nil error, and every other exit is as written. */
  function Intended(d: Decision): (out: Outcome)
    ensures out == Returns(None) <==> d == Granted
    ensures d != RoleNotFound ==> out == AsWritten(d)
  {
    match d
    case RoleNotFound => Returns(Some(Fault("validating VP")))
    case _ => AsWritten(d)
  }

  // ------------------------------------------------------------------ the code

  /** Lemma used when a scan stops early: the keys not yet visited may follow in any order. */
  lemma FinishOrder(subject: map<string, Json>, visited: seq<string>, remaining: set<string>, kind: Kind)
    requires Distinct(visited)
    requires forall k :: k in visited ==> k in subject && k !in remaining
    requires forall k :: k in remaining ==> k in subject
    requires forall k :: k in subject ==> k in visited || k in remaining
    requires FirstOfKind(subject, visited, kind).Some?
    ensures IsIterationOrder(visited + Enumerate(remaining), subject)
    ensures FirstOfKind(subject, visited + Enumerate(remaining), kind) == FirstOfKind(subject, visited, kind)
  {
    var rest := Enumerate(remaining);
    FirstOfKindConcat(subject, visited, rest, kind);
    var o := visited + rest;
    forall i, j | 0 <= i < j < |o| ensures o[i] != o[j] {
      if j < |visited| {
        assert o[i] == visited[i] && o[j] == visited[j];
      } else if i >= |visited| {
        assert o[i] == rest[i - |visited|] && o[j] == rest[j - |visited|];
      } else {
        assert o[i] in visited && o[j] in rest;
      }
    }
  }

  /** The inner loop of case 1: deep-compare each entry of an array with the required role. */
  method HoldsRequiredRole(items: seq<Json>) returns (found: bool)
    ensures found <==> RequiredRole in items
  {
    var i := 0;
    while i < |items|
      invariant 0 <= i <= |items|
      invariant RequiredRole !in items[..i]
    {
      if items[i] == RequiredRole {
        return true;
      }
      assert items[..i + 1] == items[..i] + [items[i]];
      i := i + 1;
    }
    assert items[..i] == items;
    return false;
  }

  /** The loop of case 1: visit the claims in an unspecified order; the first array decides. */
  method ScanForRoleList(subject: map<string, Json>) returns (decision: Decision, ghost order: seq<string>)
    ensures IsIterationOrder(order, subject)
    ensures decision == RoleListVerdict(subject, order)
    // Whatever the order: a denial is backed by an array lacking the role, and a subject whose
    // arrays all hold the role (or that has none) is granted.
    ensures decision == Granted || decision == RoleNotFound
    ensures decision == RoleNotFound ==> exists k :: k in ListKeys(subject) && RequiredRole !in subject[k].items
    ensures (forall k :: k in ListKeys(subject) ==> RequiredRole in subject[k].items) ==> decision == Granted
  {
    var remaining := subject.Keys;
    ghost var visited: seq<string> := [];
    while remaining != {}
      invariant Distinct(visited)
      invariant forall k :: k in visited ==> k in subject && k !in remaining
      invariant forall k :: k in remaining ==> k in subject
      invariant forall k :: k in subject ==> k in visited || k in remaining
      invariant FirstOfKind(subject, visited, ListValue) == None
      decreases remaining
    {
      var key :| key in remaining;
      remaining := remaining - {key};
      FirstOfKindConcat(subject, visited, [key], ListValue);
      visited := visited + [key];
      var obj := subject[key];
      if obj.List? {
        assert FirstOfKind(subject, visited, ListValue) == Some(obj);
        FinishOrder(subject, visited, remaining, ListValue);
        order := visited + Enumerate(remaining);
        var found := HoldsRequiredRole(obj.items);
        if found {
          decision := Granted;
          return;
        }
        assert key in ListKeys(subject);
        decision := RoleNotFound;
        return;
      }
    }
    order := visited;
    decision := Granted;
  }

  /** The loop of case 2: visit the claims in an unspecified order; the first object decides by
      its `roles[0]`. */
  method ScanForMembership(subject: map<string, Json>) returns (decision: Decision, ghost order: seq<string>)
    ensures IsIterationOrder(order, subject)
    ensures decision == MembershipVerdict(subject, order)
    // Whatever the order: a grant is backed by an object whose `roles[0]` is the required role,
    // a panic by an object without roles, and a subject without objects is denied.
    ensures decision == Granted
            ==> exists k :: k in ObjectKeys(subject) && RolesOf(subject[k].fields) != []
                            && RolesOf(subject[k].fields)[0] == RequiredRole
    ensures decision.Crashed? ==> exists k :: k in ObjectKeys(subject) && RolesOf(subject[k].fields) == []
    ensures ObjectKeys(subject) == {} ==> decision == RoleNotFound
  {
    var remaining := subject.Keys;
    ghost var visited: seq<string> := [];
    while remaining != {}
      invariant Distinct(visited)
      invariant forall k :: k in visited ==> k in subject && k !in remaining
      invariant forall k :: k in remaining ==> k in subject
      invariant forall k :: k in subject ==> k in visited || k in remaining
      invariant FirstOfKind(subject, visited, ObjectValue) == None
      decreases remaining
    {
      var key :| key in remaining;
      remaining := remaining - {key};
      FirstOfKindConcat(subject, visited, [key], ObjectValue);
      visited := visited + [key];
      var obj := subject[key];
      if obj.Obj? {
        assert FirstOfKind(subject, visited, ObjectValue) == Some(obj);
        FinishOrder(subject, visited, remaining, ObjectValue);
        order := visited + Enumerate(remaining);
        assert key in ObjectKeys(subject);
        var y := obj.fields;
        var z := RolesOf(y);
        if |z| == 0 {
          decision := Crashed(IndexOutOfRange);
        } else if z[0] == RequiredRole {
          decision := Granted;
        } else {
          decision := RoleNotFound;
        }
        return;
      }
    }
    order := visited;
    decision := RoleNotFound;
  }

  /** `ValidateAccess`. Besides Go's result `out` it reports the exit it reached (`decision`)
      and, as a ghost, the order in which the scanned subject's keys were visited. */
  method ValidateAccess(lib: Library, submission: string)
    returns (decision: Decision, out: Outcome, ghost order: seq<string>)
    ensures OrderFits(lib, submission, order)
    ensures decision == Decide(lib, submission, order)
    ensures out == AsWritten(decision)
  {
    order := [];
    var verified := lib.verifyPresentationJwt(submission);
    if verified.Failure? {
      decision := SignatureRejected(verified.error);
      out := Returns(Wrap(Some(verified.error), "validating VP signature"));
      return;
    }
    var vp := verified.value;
    var err := lib.presentationIsValid(vp);
    if err.Some? {
      decision := PresentationRejected(err.value);
      out := Returns(Wrap(err, "validating VP"));
      return;
    }
    if |vp.credentials| < 2 {
      // Case 1: a single credential (or none, and indexing panics).
      if |vp.credentials| == 0 {
        decision, out := Crashed(IndexOutOfRange), Panics(IndexOutOfRange);
        return;
      }
      var x := TokenOf(vp.credentials[0]);
      var token := lib.parseCredentialJwt(x).vc;
      if token.None? {
        decision, out := Crashed(NilDereference), Panics(NilDereference);
        return;
      }
      decision, order := ScanForRoleList(token.value.subject);
      if decision.Granted? {
        out := Returns(None);
      } else {
        out := Returns(Wrap(err, "validating VP"));
      }
      return;
    }
    // Case 2: only the second credential is read.
    var x := TokenOf(vp.credentials[1]);
    var token := lib.parseCredentialJwt(x).vc;
    if token.None? {
      decision, out := Crashed(NilDereference), Panics(NilDereference);
      return;
    }
    decision, order := ScanForMembership(token.value.subject);
    match decision {
      case Granted => out := Returns(None);
      case Crashed(p) => out := Panics(p);
      case _ => out := Returns(Wrap(err, "validating VP"));
    }
  }

  // ------------------------------------------------------------------ properties of the check

  /** Deep equality with the required role: an object with exactly the keys `value` and `lang`,
      holding "Teaching Assistant" and "en"; another language, other letter case or an extra key
      is no match. */
  lemma RoleMatchIsExact(role: Json)
    ensures role == RequiredRole
            <==> && role.Obj? && role.fields.Keys == {"value", "lang"}
                 && role.fields["value"] == Str("Teaching Assistant")
                 && role.fields["lang"] == Str("en")
  {
    if && role.Obj? && role.fields.Keys == {"value", "lang"}
       && role.fields["value"] == Str("Teaching Assistant") && role.fields["lang"] == Str("en")
    {
      assert role.fields == RequiredRole.fields;
    }
  }

  /** Case 1 grants every subject without an array-valued claim, along every order. */
  lemma NoRoleListGrants(subject: map<string, Json>, order: seq<string>)
    requires ListKeys(subject) == {}
    ensures RoleListVerdict(subject, order) == Granted
  {
    forall i | 0 <= i < |order| && order[i] in subject ensures !HasKind(subject[order[i]], ListValue) {
      assert order[i] !in ListKeys(subject);
    }
  }

  /** A subject with exactly one array-valued claim gets the same case-1 verdict along every
      order: granted exactly when that array holds the required role. */
  lemma OneRoleListDecides(subject: map<string, Json>, order: seq<string>, key: string)
    requires IsIterationOrder(order, subject)
    requires ListKeys(subject) == {key}
    ensures RoleListVerdict(subject, order) == if RequiredRole in subject[key].items then Granted else RoleNotFound
  {
    assert key in ListKeys(subject);
    assert key in order;
    var r := FirstOfKind(subject, order, ListValue);
    var i :| 0 <= i < |order| && order[i] == key;
    assert order[i] in subject && HasKind(subject[order[i]], ListValue);
    var j :| 0 <= j < |order| && order[j] in subject && subject[order[j]] == r.value;
    assert order[j] in ListKeys(subject);
  }

  /** Case 2 denies every subject without an object-valued claim, along every order. */
  lemma NoObjectDenies(subject: map<string, Json>, order: seq<string>)
    requires ObjectKeys(subject) == {}
    ensures MembershipVerdict(subject, order) == RoleNotFound
  {
    forall i | 0 <= i < |order| && order[i] in subject ensures !HasKind(subject[order[i]], ObjectValue) {
      assert order[i] !in ObjectKeys(subject);
    }
  }

  /** A subject with exactly one object-valued claim gets the same case-2 verdict along every
      order: that object's `roles[0]` decides, and a missing or empty `roles` panics. */
  lemma OneObjectDecides(subject: map<string, Json>, order: seq<string>, key: string)
    requires IsIterationOrder(order, subject)
    requires ObjectKeys(subject) == {key}
    ensures MembershipVerdict(subject, order) == FirstRoleVerdict(subject[key].fields)
    ensures MembershipVerdict(subject, order) == Granted
            <==> |RolesOf(subject[key].fields)| > 0 && RolesOf(subject[key].fields)[0] == RequiredRole
    ensures MembershipVerdict(subject, order) == Crashed(IndexOutOfRange) <==> RolesOf(subject[key].fields) == []
  {
    assert key in ObjectKeys(subject);
    assert key in order;
    var r := FirstOfKind(subject, order, ObjectValue);
    var i :| 0 <= i < |order| && order[i] == key;
    assert order[i] in subject && HasKind(subject[order[i]], ObjectValue);
    var j :| 0 <= j < |order| && order[j] in subject && subject[order[j]] == r.value;
    assert order[j] in ObjectKeys(subject);
  }

  /** With two array-valued claims the iteration order decides: the same subject is granted
      along one order and denied along the other. */
  lemma IterationOrderMatters()
    ensures var s := map["a" := List([RequiredRole]), "b" := List([])];
      && IsIterationOrder(["a", "b"], s) && IsIterationOrder(["b", "a"], s)
      && RoleListVerdict(s, ["a", "b"]) == Granted
      && RoleListVerdict(s, ["b", "a"]) == RoleNotFound
  {
    var s := map["a" := List([RequiredRole]), "b" := List([])];
    assert FirstOfKind(s, ["a", "b"], ListValue) == Some(List([RequiredRole]));
    assert FirstOfKind(s, ["b", "a"], ListValue) == Some(List([]));
  }

  /** A failed signature check ends the call with that error wrapped "validating VP signature",
      and nothing else the library offers (validation, parsing, claims) changes the result. */
  lemma SignatureFailureReadsNoClaim(lib: Library, other: Library, submission: string, order: seq<string>, e: Error)
    requires lib.verifyPresentationJwt(submission) == Failure(e)
    requires other.verifyPresentationJwt(submission) == Failure(e)
    ensures Decide(lib, submission, order) == Decide(other, submission, order) == SignatureRejected(e)
    ensures AsWritten(Decide(lib, submission, order)) == Returns(Some(Wrapped("validating VP signature", e)))
  {
  }

  /** A presentation that fails validation ends the call with that error wrapped "validating VP",
      whatever its credentials hold. */
  lemma InvalidPresentationReadsNoClaim(lib: Library, other: Library, submission: string, order: seq<string>,
                                        vp: Presentation, e: Error)
    requires lib.verifyPresentationJwt(submission) == other.verifyPresentationJwt(submission) == Success(vp)
    requires lib.presentationIsValid(vp) == other.presentationIsValid(vp) == Some(e)
    ensures Decide(lib, submission, order) == Decide(other, submission, order) == PresentationRejected(e)
    ensures AsWritten(Decide(lib, submission, order)) == Returns(Some(Wrapped("validating VP", e)))
  {
  }

  /** Only one embedded credential is ever read: the first when there are fewer than two, the
      second otherwise. Two verified presentations that agree there get the same decision. */
  lemma OnlyInspectedCredentialMatters(lib: Library, s1: string, s2: string, vp1: Presentation, vp2: Presentation,
                                       order: seq<string>)
    requires lib.verifyPresentationJwt(s1) == Success(vp1) && lib.presentationIsValid(vp1) == None
    requires lib.verifyPresentationJwt(s2) == Success(vp2) && lib.presentationIsValid(vp2) == None
    requires 0 < |vp1.credentials| && 0 < |vp2.credentials|
    requires (|vp1.credentials| < 2) == (|vp2.credentials| < 2)
    requires var i := if |vp1.credentials| < 2 then 0 else 1; vp1.credentials[i] == vp2.credentials[i]
    ensures Decide(lib, s1, order) == Decide(lib, s2, order)
  {
  }

  /** Once both verification steps pass, the code as written returns nil or panics: no claim
      content can make it return an error. */
  lemma ChecksPassedNeverErrs(lib: Library, submission: string, order: seq<string>, vp: Presentation)
    requires lib.verifyPresentationJwt(submission) == Success(vp)
    requires lib.presentationIsValid(vp) == None
    ensures AsWritten(Decide(lib, submission, order)) == Returns(None)
            || AsWritten(Decide(lib, submission, order)).Panics?
  {
  }

  /** The denial returns nil: a single credential whose only claim is an empty role array is
      denied, yet the code returns nil, while the intended return is an error. */
  lemma DenialReturnsNil(lib: Library, submission: string, order: seq<string>, vp: Presentation, vc: Credential)
    requires lib.verifyPresentationJwt(submission) == Success(vp)
    requires lib.presentationIsValid(vp) == None
    requires |vp.credentials| == 1
    requires lib.parseCredentialJwt(TokenOf(vp.credentials[0])).vc == Some(vc)
    requires vc.subject == map["roles" := List([])]
    requires OrderFits(lib, submission, order)
    ensures Decide(lib, submission, order) == RoleNotFound
    ensures AsWritten(Decide(lib, submission, order)) == Returns(None)
    ensures Intended(Decide(lib, submission, order)) != Returns(None)
  {
    assert ListKeys(vc.subject) == {"roles"};
    OneRoleListDecides(vc.subject, order, "roles");
  }
}
