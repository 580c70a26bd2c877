/**
 * The tenant-facing pages: which tenant tenant_dashboard shows, the lease
 * status it derives from the lease end date, the rent it shows (also on the
 * M-Pesa payment page), and who may open that payment page. The clock is a
 * parameter: `today` is a day number, as is a lease end date.
 */
module Dashboard {
  import opened Wrappers
  import opened Models
  import opened Access
  import Store

  /** A lease this many days or fewer from its end is "expiring soon". */
  const ExpiringWindowDays: int := 30

  datatype LeaseStatus = LeaseActive | ExpiringSoon | Expired

  datatype LeaseInfo = LeaseInfo(status: LeaseStatus, daysUntilEnd: Option<int>)

  /** The lease classification of tenant_dashboard. */
  function ClassifyLease(leaseEnd: Option<int>, today: int): (r: LeaseInfo)
    ensures leaseEnd.None? ==> r == LeaseInfo(LeaseActive, None)
    ensures leaseEnd.Some? ==> r.daysUntilEnd == Some(leaseEnd.value - today)
    ensures leaseEnd.Some? ==> (r.status == Expired <==> leaseEnd.value - today < 0)
    ensures leaseEnd.Some? ==> (r.status == ExpiringSoon <==> 0 <= leaseEnd.value - today <= ExpiringWindowDays)
    ensures leaseEnd.Some? ==> (r.status == LeaseActive <==> leaseEnd.value - today > ExpiringWindowDays)
  {
    match leaseEnd
    case None => LeaseInfo(LeaseActive, None)
    case Some(end) =>
      var days := end - today;
      LeaseInfo(if days < 0 then Expired else if days <= ExpiringWindowDays then ExpiringSoon else LeaseActive, Some(days))
  }

  function Stage(s: LeaseStatus): nat {
    match s
    case LeaseActive => 0
    case ExpiringSoon => 1
    case Expired => 2
  }

  /** As days pass, a lease only moves forward: active, then expiring soon, then expired. */
  lemma LeaseStatusNeverReverts(leaseEnd: Option<int>, earlier: int, later: int)
    requires earlier <= later
    ensures Stage(ClassifyLease(leaseEnd, earlier).status) <= Stage(ClassifyLease(leaseEnd, later).status)
  {
  }

  /**
   * `tenant.rent_amount or (unit.rent_amount if unit else 0)`: the tenant's own
   * rent unless it is missing or zero (a zero Decimal is falsy), else the
   * unit's rent, else 0.
   */
  function RentAmount(t: Tenant, unit: Option<Unit>): (r: int)
    ensures t.rentAmount.Some? && t.rentAmount.value != 0 ==> r == t.rentAmount.value
    ensures (t.rentAmount.None? || t.rentAmount.value == 0) && unit.Some? ==> r == unit.value.rentAmount
    ensures r == 0 <==> (t.rentAmount.None? || t.rentAmount.value == 0) && (unit.None? || unit.value.rentAmount == 0)
  {
    if t.rentAmount.Some? && t.rentAmount.value != 0 then t.rentAmount.value
    else if unit.Some? then unit.value.rentAmount
    else 0
  }

  /** The unit a tenant refers to, through the unit table. */
  function UnitOf(t: Tenant, units: map<nat, Unit>): (r: Option<Unit>)
    requires t.unitId.Some? ==> t.unitId.value in units
    ensures r.Some? <==> t.unitId.Some?
  {
    match t.unitId
    case None => None
    case Some(id) => Some(units[id])
  }

  predicate UnitsResolve(ts: seq<Tenant>, units: map<nat, Unit>) {
    forall i | 0 <= i < |ts| :: ts[i].unitId.Some? ==> ts[i].unitId.value in units
  }

  datatype TenantPage =
    | RedirectToLoginPage
    | TenantNotFound
    | TenantView(tenantId: nat, lease: LeaseInfo, rent: int)

  /**
   * tenant_dashboard: a user linked to a tenant sees that tenant; a manager
   * given a (truthy) pk sees that tenant; anyone else is sent to the login page.
   */
  function TenantDashboard(u: User, ts: seq<Tenant>, units: map<nat, Unit>, pk: Option<nat>, today: int): (page: TenantPage)
    requires UnitsResolve(ts, units)
    ensures !u.isAuthenticated ==> page == RedirectToLoginPage
    ensures page.TenantView? ==>
      exists i | 0 <= i < |ts| ::
        && ts[i].id == page.tenantId
        && (ts[i].userId == Some(u.id) || IsManager(u))
        && page.lease == ClassifyLease(ts[i].leaseEndDate, today)
        && page.rent == RentAmount(ts[i], UnitOf(ts[i], units))
    ensures page == TenantNotFound ==> IsManager(u) && pk.Some? && forall i | 0 <= i < |ts| :: ts[i].id != pk.value
    ensures u.isAuthenticated && LinkedTenant(ts, u.id).Some? ==>
      page == View(ts[LinkedTenant(ts, u.id).value], units, today)
    ensures u.isAuthenticated && LinkedTenant(ts, u.id).None? && IsManager(u) && pk.Some? && pk.value != 0 ==>
      match Store.IndexOf(ts, pk.value)
      case Some(i) => page == View(ts[i], units, today) && page.tenantId == pk.value
      case None => page == TenantNotFound
    ensures page == RedirectToLoginPage <==>
      !u.isAuthenticated || (LinkedTenant(ts, u.id).None? && !(pk.Some? && pk.value != 0 && IsManager(u)))
  {
    if !u.isAuthenticated then RedirectToLoginPage
    else match LinkedTenant(ts, u.id)
      case Some(i) => View(ts[i], units, today)
      case None =>
        if pk.Some? && pk.value != 0 && IsManager(u) then
          match Store.IndexOf(ts, pk.value)
          case Some(i) => View(ts[i], units, today)
          case None => TenantNotFound
        else RedirectToLoginPage
  }

  function View(t: Tenant, units: map<nat, Unit>, today: int): TenantPage
    requires t.unitId.Some? ==> t.unitId.value in units
  {
    TenantView(t.id, ClassifyLease(t.leaseEndDate, today), RentAmount(t, UnitOf(t, units)))
  }

  datatype PaymentPage =
    | LoginRedirect
    | PaymentTenantNotFound
    | RedirectToTenantDashboard
    | PaymentForm(tenantId: nat, rent: int)

  /**
   * mpesa_payment: login required, the tenant must exist, and a non-manager
   * may only open the page of their own tenant record.
   */
  function MpesaPaymentPage(u: User, ts: seq<Tenant>, units: map<nat, Unit>, tenantId: nat): (page: PaymentPage)
    requires UnitsResolve(ts, units)
    ensures page == LoginRedirect <==> !u.isAuthenticated
    ensures page == PaymentTenantNotFound <==> u.isAuthenticated && Store.IndexOf(ts, tenantId).None?
    ensures page == RedirectToTenantDashboard <==>
      u.isAuthenticated && Store.IndexOf(ts, tenantId).Some? && !MayPayFor(u, ts, tenantId)
    ensures page.PaymentForm? ==>
      var t := ts[Store.IndexOf(ts, tenantId).value];
      page.tenantId == tenantId && page.rent == RentAmount(t, UnitOf(t, units))
  {
    if !u.isAuthenticated then LoginRedirect
    else match Store.IndexOf(ts, tenantId)
      case None => PaymentTenantNotFound
      case Some(i) =>
        if !MayPayFor(u, ts, tenantId) then RedirectToTenantDashboard
        else PaymentForm(tenantId, RentAmount(ts[i], UnitOf(ts[i], units)))
  }

  /** A tenant's own dashboard and its payment page show the same rent. */
  lemma SameRentOnBothPages(u: User, ts: seq<Tenant>, units: map<nat, Unit>, today: int)
    requires UnitsResolve(ts, units) && Store.IdsUnique(ts) && !IsManager(u)
    requires TenantDashboard(u, ts, units, None, today).TenantView?
    ensures var view := TenantDashboard(u, ts, units, None, today);
      MpesaPaymentPage(u, ts, units, view.tenantId) == PaymentForm(view.tenantId, view.rent)
  {
    var i := LinkedTenant(ts, u.id).value;
    var id := ts[i].id;
    var k := Store.IndexOf(ts, id).value;
    assert k == i;
  }
}
