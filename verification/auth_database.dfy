/**
 * The database-backed classifier of `lib/auth-database.ts`. It adds a
 * fourth tier, `demo-admin`, lets a stored account row override the
 * metadata, builds the record that an upsert writes, and reads the
 * permission list. The database itself is not modelled: the row a query
 * would return is an input (`None` when the query fails or finds nothing).
 */
module AuthDatabase {
  import opened Wrappers
  import opened JsString
  import Auth

  datatype UserType = Demo | Educator | Admin | DemoAdmin

  const DemoAdminEmail: string := "admin@school.edu"

  /**
   * A row of `web_app_accounts`. `demoExpired` stands for "the row has a
   * `demo_expires_at` and that moment has passed".
   */
  datatype Account = Account(
    accountType: Auth.UserType,
    isActive: bool,
    demoExpired: bool,
    permissions: Option<seq<string>>)

  /** The three-tier answer seen as a four-tier one. */
  function Lift(t: Auth.UserType): (r: UserType)
    ensures r != DemoAdmin
    ensures t == Auth.Demo <==> r == Demo
    ensures t == Auth.Educator <==> r == Educator
    ensures t == Auth.Admin <==> r == Admin
  {
    match t
    case Demo => Demo
    case Educator => Educator
    case Admin => Admin
  }

  /** `getUserTypeFromMetadata`: the `admin@school.edu` special case, then the rules of `getUserType`. */
  function GetUserTypeFromMetadata(u: Option<Auth.Principal>): (t: UserType)
    ensures u.None? ==> t == Demo
    ensures u.Some? && Auth.NormalizedEmail(u.value) == DemoAdminEmail ==> t == DemoAdmin
    ensures u.Some? && Auth.NormalizedEmail(u.value) != DemoAdminEmail && Auth.AdminRule(u.value) ==> t == Admin
  {
    match u
    case None => Demo
    case Some(p) =>
      if Auth.NormalizedEmail(p) == DemoAdminEmail then DemoAdmin
      else if Auth.AdminRule(p) then Admin
      else if Auth.DemoRule(p) then Demo
      else Educator
  }

  /**
   * `getUserTypeFromDatabase` once the row lookup has happened: a found row
   * decides (an expired demo row and an inactive row both give demo);
   * otherwise the metadata decides.
   */
  function GetUserTypeFromDatabase(u: Option<Auth.Principal>, row: Option<Account>): (t: UserType)
    ensures u.None? ==> t == Demo
    ensures u.Some? && row.Some? && !row.value.isActive ==> t == Demo
    ensures u.Some? && row.Some? && row.value.isActive ==> t == Lift(row.value.accountType)
    ensures u.Some? && row.None? ==> t == GetUserTypeFromMetadata(u)
  {
    match u
    case None => Demo
    case Some(_) =>
      match row
      case Some(account) =>
        if account.accountType == Auth.Demo && account.demoExpired then Demo
        else if !account.isActive then Demo
        else Lift(account.accountType)
      case None => GetUserTypeFromMetadata(u)
  }

  /** Away from the one special address, the metadata classifier is `getUserType` of `lib/auth.ts`. */
  lemma MetadataAgreesWithAuth(u: Option<Auth.Principal>)
    requires u.Some? ==> Auth.NormalizedEmail(u.value) != DemoAdminEmail
    ensures GetUserTypeFromMetadata(u) == Lift(Auth.GetUserType(u))
  {
  }

  /** `admin@school.edu`, in any letter case and whatever its metadata says, is demo-admin. */
  lemma SchoolAdminIsDemoAdmin(p: Auth.Principal)
    requires p.email.Some? && ToLower(p.email.value) == DemoAdminEmail
    ensures GetUserTypeFromMetadata(Some(p)) == DemoAdmin
  {
  }

  /** The special address wins even over admin metadata, where `getUserType` would say admin. */
  lemma SchoolAdminWithAdminRole()
    ensures var p := Auth.Principal("u2", Some(DemoAdminEmail), Auth.EmptyMetadata().(role := Some("admin")));
      GetUserTypeFromMetadata(Some(p)) == DemoAdmin && Auth.GetUserType(Some(p)) == Auth.Admin
  {
    var p := Auth.Principal("u2", Some(DemoAdminEmail), Auth.EmptyMetadata().(role := Some("admin")));
    var e := DemoAdminEmail;
    assert forall i :: 0 <= i < |e| ==> LowerChar(e[i]) == e[i];
    assert Auth.NormalizedEmail(p) == DemoAdminEmail;
    assert Auth.AdminRule(p);
  }

  /** An inactive row never yields admin, whatever its stored type. */
  lemma InactiveRowIsDemo(p: Auth.Principal, account: Account)
    requires !account.isActive
    ensures GetUserTypeFromDatabase(Some(p), Some(account)) == Demo
    ensures GetUserTypeFromDatabase(Some(p), Some(account)) != Admin
  {
  }

  /** The expiry check returns what the row would have produced anyway: it never changes the tier. */
  lemma ExpiryIsIrrelevant(p: Auth.Principal, account: Account)
    ensures GetUserTypeFromDatabase(Some(p), Some(account))
         == GetUserTypeFromDatabase(Some(p), Some(account.(demoExpired := false)))
  {
  }

  /** A found row never yields demo-admin: that tier comes only from the metadata fallback. */
  lemma RowNeverDemoAdmin(u: Option<Auth.Principal>, account: Account)
    ensures GetUserTypeFromDatabase(u, Some(account)) != DemoAdmin
  {
  }

  // ---------------------------------------------------------------------
  // The upsert record
  // ---------------------------------------------------------------------

  /** The caller's `Partial<WebAppAccount>`. */
  datatype AccountData = AccountData(
    fullName: Option<string>,
    accountType: Option<Auth.UserType>,
    role: Option<string>,
    school: Option<string>,
    district: Option<string>,
    permissions: Option<seq<string>>,
    adminLevel: Option<string>,
    createdBy: Option<string>,
    notes: Option<string>)

  /** The record `upsertWebAppAccount` hands to the database. */
  datatype AccountRecord = AccountRecord(
    supabaseUserId: string,
    email: Option<string>,
    fullName: Option<string>,
    accountType: Auth.UserType,
    role: string,
    school: Option<string>,
    district: Option<string>,
    permissions: seq<string>,
    adminLevel: Option<string>,
    createdBy: string,
    notes: Option<string>)

  function EmptyAccountData(): AccountData {
    AccountData(None, None, None, None, None, None, None, None, None)
  }

  /** The record built at the start of `upsertWebAppAccount`. */
  function UpsertRecord(p: Auth.Principal, data: AccountData): (r: AccountRecord)
    ensures r.supabaseUserId == p.id && r.email == p.email
    // the display name prefers the auth metadata, school and district prefer the caller's data
    ensures Truthy(p.metadata.fullName) ==> r.fullName == p.metadata.fullName
    ensures !Truthy(p.metadata.fullName) ==> r.fullName == data.fullName
    ensures Truthy(data.school) ==> r.school == data.school
    ensures !Truthy(data.school) ==> r.school == p.metadata.school
    ensures Truthy(data.district) ==> r.district == data.district
    ensures !Truthy(data.district) ==> r.district == p.metadata.district
    // defaults
    ensures r.accountType == (if data.accountType.Some? then data.accountType.value else Auth.Educator)
    ensures Truthy(data.role) ==> r.role == data.role.value
    ensures !Truthy(data.role) ==> r.role == "educator"
    ensures r.permissions == (if data.permissions.Some? then data.permissions.value else [])
    ensures Truthy(data.createdBy) ==> r.createdBy == data.createdBy.value
    ensures !Truthy(data.createdBy) ==> r.createdBy == "system"
    ensures r.adminLevel == data.adminLevel && r.notes == data.notes
  {
    AccountRecord(
      p.id,
      p.email,
      OrElse(p.metadata.fullName, data.fullName),
      data.accountType.GetOr(Auth.Educator),
      OrElse(data.role, Some("educator")).value,
      OrElse(data.school, p.metadata.school),
      OrElse(data.district, p.metadata.district),
      data.permissions.GetOr([]),
      data.adminLevel,
      OrElse(data.createdBy, Some("system")).value,
      data.notes)
  }

  /** With no caller data, the record is the documented default one. */
  lemma UpsertDefaults(p: Auth.Principal)
    requires !Truthy(p.metadata.fullName)
    ensures var r := UpsertRecord(p, EmptyAccountData());
      r.accountType == Auth.Educator && r.role == "educator" && r.permissions == []
      && r.createdBy == "system" && r.fullName.None?
      && r.school == p.metadata.school && r.district == p.metadata.district
  {
  }

  // ---------------------------------------------------------------------
  // Permissions
  // ---------------------------------------------------------------------

  /**
   * `getUserPermissions`, given the row `getWebAppAccount` would return:
   * the stored list if there is one, else the metadata list, else none.
   */
  function GetUserPermissions(u: Option<Auth.Principal>, account: Option<Account>): (ps: seq<string>)
    ensures u.None? ==> ps == []
    ensures u.Some? && account.Some? && account.value.permissions.Some? ==> ps == account.value.permissions.value
    ensures u.Some? && (account.None? || account.value.permissions.None?)
      ==> ps == Auth.GetAdminPermissions(u)
  {
    match u
    case None => []
    case Some(p) =>
      if account.Some? && account.value.permissions.Some? then account.value.permissions.value
      else Auth.Permissions(p.metadata)
  }

  /** `hasPermission`: `permissions.includes(permission)`. */
  predicate HasPermission(u: Option<Auth.Principal>, account: Option<Account>, permission: string) {
    exists i :: 0 <= i < |GetUserPermissions(u, account)| && GetUserPermissions(u, account)[i] == permission
  }

  /** A permission is held iff it is listed; a missing user holds none. */
  lemma HasPermissionIffListed(u: Option<Auth.Principal>, account: Option<Account>, permission: string)
    ensures HasPermission(u, account, permission) <==> permission in GetUserPermissions(u, account)
    ensures u.None? ==> !HasPermission(u, account, permission)
  {
    var ps := GetUserPermissions(u, account);
    if permission in ps {
      var i :| 0 <= i < |ps| && ps[i] == permission;
    }
  }

  // ---------------------------------------------------------------------
  // Migration
  // ---------------------------------------------------------------------

  /** The stored tier: `demo-admin` is not a column value and is written as demo. */
  function StoredType(t: UserType): (r: Auth.UserType)
    ensures t == DemoAdmin ==> r == Auth.Demo
    ensures t != DemoAdmin ==> Lift(r) == t
  {
    match t
    case Demo => Auth.Demo
    case DemoAdmin => Auth.Demo
    case Educator => Auth.Educator
    case Admin => Auth.Admin
  }

  /** The partial account `syncAuthMetadataToDatabase` derives from the metadata. */
  function SyncAccountData(p: Auth.Principal): (d: AccountData)
    ensures d.accountType == Some(StoredType(GetUserTypeFromMetadata(Some(p))))
    ensures d.permissions == Some(Auth.Permissions(p.metadata))
  {
    var m := p.metadata;
    AccountData(
      None,
      Some(StoredType(GetUserTypeFromMetadata(Some(p)))),
      OrElse(m.role, Some("educator")),
      m.school,
      m.district,
      Some(Auth.Permissions(m)),
      m.adminLevel,
      OrElse(m.createdBy, Some("migration")),
      None)
  }

  /** `syncAuthMetadataToDatabase`: the upsert of the derived partial account. */
  function SyncRecord(p: Auth.Principal): AccountRecord {
    UpsertRecord(p, SyncAccountData(p))
  }

  /**
   * What a migration stores: the metadata tier with demo-admin demoted to
   * demo, the metadata role or `educator`, the metadata author or
   * `migration` (so the upsert default `system` is never reached), and the
   * metadata's own school and district.
   */
  lemma SyncStores(p: Auth.Principal)
    ensures var r := SyncRecord(p);
      var t := GetUserTypeFromMetadata(Some(p));
      && (t == DemoAdmin ==> r.accountType == Auth.Demo)
      && (t != DemoAdmin ==> Lift(r.accountType) == t)
      && (Truthy(p.metadata.role) ==> r.role == p.metadata.role.value)
      && (!Truthy(p.metadata.role) ==> r.role == "educator")
      && (Truthy(p.metadata.createdBy) ==> r.createdBy == p.metadata.createdBy.value)
      && (!Truthy(p.metadata.createdBy) ==> r.createdBy == "migration")
      && (r.createdBy != "system" || p.metadata.createdBy == Some("system"))
  {
  }
}
