/**
 * The principal classifier of `lib/auth.ts`: an authenticated user (an
 * optional email plus a metadata bag) is mapped to one of three tiers.
 * Admin signals are examined before demo signals; a user with neither is an
 * educator, and the absence of a user means demo.
 */
module Auth {
  import opened Wrappers
  import opened JsString

  /** The free-form `user_metadata` bag, restricted to the fields the dashboard reads. */
  datatype Metadata = Metadata(
    role: Option<string>,
    adminLevel: Option<string>,
    permissions: Option<seq<string>>,
    accountType: Option<string>,
    demo: Option<bool>,
    fullName: Option<string>,
    school: Option<string>,
    district: Option<string>,
    createdBy: Option<string>)

  /** An authenticated user; a missing metadata bag is the empty one. */
  datatype Principal = Principal(id: string, email: Option<string>, metadata: Metadata)

  datatype UserType = Demo | Educator | Admin

  const OwnerEmail: string := "bryanesong@gmail.com"

  function EmptyMetadata(): Metadata {
    Metadata(None, None, None, None, None, None, None, None, None)
  }

  /** `user.email?.toLowerCase() || ''`. */
  function NormalizedEmail(p: Principal): (e: string)
    ensures NoUpper(e)
    ensures p.email.None? ==> e == ""
    ensures p.email.Some? ==> |e| == |p.email.value|
  {
    ToLowerNormalizes(p.email.GetOr(""));
    ToLower(p.email.GetOr(""))
  }

  /** `metadata.permissions || []`. */
  function Permissions(m: Metadata): seq<string> {
    m.permissions.GetOr([])
  }

  /** The six conditions of the admin branch. */
  predicate AdminRule(p: Principal) {
    var m := p.metadata;
    m.role == Some("admin")
    || m.adminLevel == Some("super_admin")
    || "create_educator_accounts" in Permissions(m)
    || "manage_educator_accounts" in Permissions(m)
    || NormalizedEmail(p) == OwnerEmail
    || m.accountType == Some("admin")
  }

  /** The six conditions of the demo branch. */
  predicate DemoRule(p: Principal) {
    var m := p.metadata;
    var email := NormalizedEmail(p);
    Includes(email, "demo")
    || Includes(email, "teacher@example.com")
    || Includes(email, "educator@demo.com")
    || m.accountType == Some("demo")
    || m.role == Some("demo")
    || m.demo == Some(true)
  }

  /** `getUserType`: admin rules first, then demo rules, educator otherwise. */
  function GetUserType(u: Option<Principal>): (t: UserType)
    ensures u.None? ==> t == Demo
    ensures u.Some? && AdminRule(u.value) ==> t == Admin
    ensures u.Some? && !AdminRule(u.value) && DemoRule(u.value) ==> t == Demo
    ensures u.Some? && !AdminRule(u.value) && !DemoRule(u.value) ==> t == Educator
  {
    match u
    case None => Demo
    case Some(p) =>
      if AdminRule(p) then Admin
      else if DemoRule(p) then Demo
      else Educator
  }

  predicate IsAdminUser(u: Option<Principal>) {
    GetUserType(u) == Admin
  }

  predicate IsEducatorUser(u: Option<Principal>) {
    GetUserType(u) == Educator
  }

  predicate IsDemoUser(u: Option<Principal>) {
    GetUserType(u) == Demo
  }

  /** `getAdminPermissions`: the metadata permissions, or none. */
  function GetAdminPermissions(u: Option<Principal>): (ps: seq<string>)
    ensures u.None? ==> ps == []
    ensures u.Some? && u.value.metadata.permissions.None? ==> ps == []
    ensures u.Some? && u.value.metadata.permissions.Some? ==> ps == u.value.metadata.permissions.value
  {
    match u
    case None => []
    case Some(p) => Permissions(p.metadata)
  }

  // ---------------------------------------------------------------------
  // The signals, one by one, as an independent description of the rules.
  // ---------------------------------------------------------------------

  datatype AdminSignal =
    | RoleAdmin
    | SuperAdminLevel
    | CreatePermission
    | ManagePermission
    | OwnerAccount
    | AdminAccountType

  datatype DemoSignal =
    | EmailMentionsDemo
    | ExampleTeacherEmail
    | DemoEducatorEmail
    | DemoAccountType
    | RoleDemo
    | DemoFlag

  ghost predicate HasAdminSignal(p: Principal, s: AdminSignal) {
    match s
    case RoleAdmin => p.metadata.role == Some("admin")
    case SuperAdminLevel => p.metadata.adminLevel == Some("super_admin")
    case CreatePermission =>
      p.metadata.permissions.Some? && "create_educator_accounts" in p.metadata.permissions.value
    case ManagePermission =>
      p.metadata.permissions.Some? && "manage_educator_accounts" in p.metadata.permissions.value
    case OwnerAccount => p.email.Some? && ToLower(p.email.value) == OwnerEmail
    case AdminAccountType => p.metadata.accountType == Some("admin")
  }

  ghost predicate HasDemoSignal(p: Principal, s: DemoSignal) {
    match s
    case EmailMentionsDemo => p.email.Some? && exists i :: OccursAt(ToLower(p.email.value), "demo", i)
    case ExampleTeacherEmail =>
      p.email.Some? && exists i :: OccursAt(ToLower(p.email.value), "teacher@example.com", i)
    case DemoEducatorEmail =>
      p.email.Some? && exists i :: OccursAt(ToLower(p.email.value), "educator@demo.com", i)
    case DemoAccountType => p.metadata.accountType == Some("demo")
    case RoleDemo => p.metadata.role == Some("demo")
    case DemoFlag => p.metadata.demo == Some(true)
  }

  /** A missing email is treated as the empty string, which matches no email rule. */
  lemma MissingEmailMatchesNothing(p: Principal)
    requires p.email.None?
    ensures NormalizedEmail(p) != OwnerEmail
    ensures !Includes(NormalizedEmail(p), "demo")
    ensures !Includes(NormalizedEmail(p), "teacher@example.com")
    ensures !Includes(NormalizedEmail(p), "educator@demo.com")
  {
    IncludesIffOccurs("", "demo");
    IncludesIffOccurs("", "teacher@example.com");
    IncludesIffOccurs("", "educator@demo.com");
  }

  /** The rule text of the admin branch is exactly "some admin signal is present". */
  lemma AdminRuleIffSignal(p: Principal)
    ensures AdminRule(p) <==> exists s :: HasAdminSignal(p, s)
  {
    if p.email.None? {
      MissingEmailMatchesNothing(p);
    }
    if AdminRule(p) {
      var m := p.metadata;
      if m.role == Some("admin") {
        assert HasAdminSignal(p, RoleAdmin);
      } else if m.adminLevel == Some("super_admin") {
        assert HasAdminSignal(p, SuperAdminLevel);
      } else if "create_educator_accounts" in Permissions(m) {
        assert HasAdminSignal(p, CreatePermission);
      } else if "manage_educator_accounts" in Permissions(m) {
        assert HasAdminSignal(p, ManagePermission);
      } else if NormalizedEmail(p) == OwnerEmail {
        assert HasAdminSignal(p, OwnerAccount);
      } else {
        assert HasAdminSignal(p, AdminAccountType);
      }
    }
  }

  /** The rule text of the demo branch is exactly "some demo signal is present". */
  lemma DemoRuleIffSignal(p: Principal)
    ensures DemoRule(p) <==> exists s :: HasDemoSignal(p, s)
  {
    var email := NormalizedEmail(p);
    IncludesIffOccurs(email, "demo");
    IncludesIffOccurs(email, "teacher@example.com");
    IncludesIffOccurs(email, "educator@demo.com");
    if p.email.None? {
      MissingEmailMatchesNothing(p);
    }
    if DemoRule(p) {
      var m := p.metadata;
      if Includes(email, "demo") {
        assert HasDemoSignal(p, EmailMentionsDemo);
      } else if Includes(email, "teacher@example.com") {
        assert HasDemoSignal(p, ExampleTeacherEmail);
      } else if Includes(email, "educator@demo.com") {
        assert HasDemoSignal(p, DemoEducatorEmail);
      } else if m.accountType == Some("demo") {
        assert HasDemoSignal(p, DemoAccountType);
      } else if m.role == Some("demo") {
        assert HasDemoSignal(p, RoleDemo);
      } else {
        assert HasDemoSignal(p, DemoFlag);
      }
    }
    if exists s :: HasDemoSignal(p, s) {
      var s :| HasDemoSignal(p, s);
      match s
      case EmailMentionsDemo =>
      case ExampleTeacherEmail =>
      case DemoEducatorEmail =>
      case DemoAccountType =>
      case RoleDemo =>
      case DemoFlag =>
    }
  }

  /**
   * The classification in terms of signals: admin iff some admin signal;
   * demo iff no user, or no admin signal and some demo signal; educator iff
   * no signal at all.
   */
  lemma ClassificationBySignals(p: Principal)
    ensures GetUserType(Some(p)) == Admin <==> exists s :: HasAdminSignal(p, s)
    ensures GetUserType(Some(p)) == Demo
      <==> (forall s :: !HasAdminSignal(p, s)) && exists s :: HasDemoSignal(p, s)
    ensures GetUserType(Some(p)) == Educator
      <==> (forall s :: !HasAdminSignal(p, s)) && (forall s :: !HasDemoSignal(p, s))
  {
    AdminRuleIffSignal(p);
    DemoRuleIffSignal(p);
  }

  /** Rule order: a principal carrying both an admin and a demo signal is an admin. */
  lemma AdminOutranksDemo(p: Principal, a: AdminSignal, d: DemoSignal)
    requires HasAdminSignal(p, a) && HasDemoSignal(p, d)
    ensures GetUserType(Some(p)) == Admin
  {
    ClassificationBySignals(p);
  }

  /** Exactly one of the three tier predicates holds of any user. */
  lemma ExactlyOneTier(u: Option<Principal>)
    ensures IsAdminUser(u) || IsEducatorUser(u) || IsDemoUser(u)
    ensures !(IsAdminUser(u) && IsEducatorUser(u))
    ensures !(IsAdminUser(u) && IsDemoUser(u))
    ensures !(IsEducatorUser(u) && IsDemoUser(u))
  {
  }

  /** The email is compared after lowering, so its letter case never matters. */
  lemma EmailCaseInsensitive(p: Principal, e: string)
    requires p.email.Some? && ToLower(p.email.value) == ToLower(e)
    ensures GetUserType(Some(p)) == GetUserType(Some(p.(email := Some(e))))
  {
  }

  /** The owner's address is recognised in any letter case. */
  lemma OwnerInAnyCase(p: Principal)
    requires p.email.Some? && ToLower(p.email.value) == OwnerEmail
    ensures GetUserType(Some(p)) == Admin
  {
    assert AdminRule(p);
  }

  /** A principal with no email and an empty metadata bag is an educator. */
  lemma BareUserIsEducator(id: string)
    ensures GetUserType(Some(Principal(id, None, EmptyMetadata()))) == Educator
  {
    MissingEmailMatchesNothing(Principal(id, None, EmptyMetadata()));
  }
}
