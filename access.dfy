/**
 * The role checks in front of the views: the staff_required decorator, the
 * post-login routing of redirect_user_dashboard, the tenant-only-pays-for-
 * self check of the M-Pesa payment page, and the checks on a new login
 * account created from the tenant form. Authentication itself is outside:
 * a request arrives with the user it was authenticated as.
 */
module Access {
  import opened Wrappers
  import opened Text
  import opened Models
  import Store

  /** The authenticated identity of a request (an anonymous user is not authenticated and not staff). */
  datatype User = User(id: nat, isAuthenticated: bool, isStaff: bool, isSuperuser: bool)

  predicate IsManager(u: User) {
    u.isStaff || u.isSuperuser
  }

  datatype GuardDecision = RedirectToLogin | RedirectToAccessDenied | RunView

  /** staff_required: anonymous users go to the login page, non-staff to access-denied. */
  function StaffRequired(u: User): (d: GuardDecision)
    ensures d == RunView <==> u.isAuthenticated && IsManager(u)
    ensures d == RedirectToLogin <==> !u.isAuthenticated
    ensures d == RedirectToAccessDenied <==> u.isAuthenticated && !IsManager(u)
  {
    if !u.isAuthenticated then RedirectToLogin
    else if !IsManager(u) then RedirectToAccessDenied
    else RunView
  }

  /** The position of the tenant linked to login account `userId` (Tenant.user). */
  function LinkedTenant(ts: seq<Tenant>, userId: nat): (r: Option<nat>)
    ensures r.Some? ==> r.value < |ts| && ts[r.value].userId == Some(userId)
    ensures r.None? <==> forall i | 0 <= i < |ts| :: ts[i].userId != Some(userId)
  {
    if ts == [] then None
    else if ts[0].userId == Some(userId) then Some(0)
    else match LinkedTenant(ts[1..], userId)
      case None => None
      case Some(k) => Some(k + 1)
  }

  /** Since Tenant.user is one-to-one, the linked tenant is the only one linked to the account. */
  lemma LinkedTenantIsTheLink(ts: seq<Tenant>, userId: nat, i: nat)
    requires Store.UsersUnique(ts)
    requires i < |ts| && ts[i].userId == Some(userId)
    ensures LinkedTenant(ts, userId) == Some(i)
  {
  }

  /** Where redirect_user_dashboard sends a user after login. */
  datatype Landing = ManagerDashboard | TenantDashboardDetail(tenantId: nat) | AccessDenied

  /** redirect_user_dashboard: managers to the manager dashboard, a linked tenant to its own page. */
  function RedirectUserDashboard(u: User, ts: seq<Tenant>): (d: Landing)
    ensures d == ManagerDashboard <==> IsManager(u)
    ensures d == AccessDenied <==> !IsManager(u) && forall i | 0 <= i < |ts| :: ts[i].userId != Some(u.id)
    ensures d.TenantDashboardDetail? ==> exists i | 0 <= i < |ts| :: ts[i].userId == Some(u.id) && ts[i].id == d.tenantId
  {
    if IsManager(u) then ManagerDashboard
    else match LinkedTenant(ts, u.id)
      case Some(i) => TenantDashboardDetail(ts[i].id)
      case None => AccessDenied
  }

  /** Every user the staff guard lets through is routed to the manager dashboard, whatever tenants exist. */
  lemma GuardedUsersAreManagers(u: User, ts: seq<Tenant>)
    requires StaffRequired(u) == RunView
    ensures RedirectUserDashboard(u, ts) == ManagerDashboard
  {
  }

  /** A tenant who logs in lands on its own page, and on no other tenant's. */
  lemma TenantLandsOnOwnPage(u: User, ts: seq<Tenant>, i: nat)
    requires Store.UsersUnique(ts) && !IsManager(u)
    requires i < |ts| && ts[i].userId == Some(u.id)
    ensures RedirectUserDashboard(u, ts) == TenantDashboardDetail(ts[i].id)
  {
    LinkedTenantIsTheLink(ts, u.id, i);
  }

  /**
   * The check of mpesa_payment: a manager may open the payment page of any
   * tenant; anyone else only the page of the tenant linked to their account.
   */
  predicate MayPayFor(u: User, ts: seq<Tenant>, tenantId: nat) {
    IsManager(u) ||
    (LinkedTenant(ts, u.id).Some? && ts[LinkedTenant(ts, u.id).value].id == tenantId)
  }

  /** With one-to-one links, a non-manager may pay exactly for the tenants linked to their own account. */
  lemma MayPayForOwnOnly(u: User, ts: seq<Tenant>, tenantId: nat)
    requires Store.UsersUnique(ts) && Store.IdsUnique(ts) && !IsManager(u)
    ensures MayPayFor(u, ts, tenantId) <==>
      exists i | 0 <= i < |ts| :: ts[i].id == tenantId && ts[i].userId == Some(u.id)
  {
    if i :| 0 <= i < |ts| && ts[i].id == tenantId && ts[i].userId == Some(u.id) {
      LinkedTenantIsTheLink(ts, u.id, i);
    }
  }

  const MinPasswordLength: nat := 8

  datatype AccountCheck =
    | NoNewAccount
    | CreateAccount(username: string)
    | MissingUsername
    | UsernameTaken(taken: string)
    | PasswordTooShort
    | PasswordMismatch

  /**
   * The checks tenant_create and tenant_update run, in this order, when the
   * form asks for a new login account: a non-blank username (after strip),
   * not already taken, a password of at least 8 characters, and a matching
   * confirmation. `taken` is the set of existing usernames.
   */
  function CheckNewAccount(selection: string, rawUsername: string, password: string, confirm: string, taken: set<string>): (r: AccountCheck)
    ensures r == NoNewAccount <==> selection != "create_new"
    ensures r.CreateAccount? <==>
      selection == "create_new" && Strip(rawUsername) != "" && Strip(rawUsername) !in taken &&
      |password| >= MinPasswordLength && password == confirm
    ensures r.CreateAccount? ==> r.username == Strip(rawUsername) && Trimmed(r.username)
    ensures r == MissingUsername <==> selection == "create_new" && Strip(rawUsername) == ""
    ensures r.UsernameTaken? <==> selection == "create_new" && Strip(rawUsername) != "" && Strip(rawUsername) in taken
    ensures r == PasswordTooShort <==>
      selection == "create_new" && Strip(rawUsername) != "" && Strip(rawUsername) !in taken && |password| < MinPasswordLength
  {
    if selection != "create_new" then NoNewAccount
    else
      var username := Strip(rawUsername);
      if username == "" then MissingUsername
      else if username in taken then UsernameTaken(username)
      else if |password| < MinPasswordLength then PasswordTooShort
      else if password != confirm then PasswordMismatch
      else CreateAccount(username)
  }

  /** An account the checks let through never collides with an existing one, even after surrounding blanks. */
  lemma CreatedAccountIsFresh(selection: string, rawUsername: string, password: string, confirm: string, taken: set<string>)
    requires CheckNewAccount(selection, rawUsername, password, confirm, taken).CreateAccount?
    ensures var name := CheckNewAccount(selection, rawUsername, password, confirm, taken).username;
      name !in taken && name != "" && Strip(name) == name
  {
    StripIdempotent(rawUsername);
  }
}
