/**
 * An in-memory store of properties, units, tenants and payments with the
 * rules the ORM declarations and the CRUD views enforce:
 *  - every unit write goes through Unit.save, so a unit's occupancy flag
 *    always equals (status == occupied);
 *  - (property, unit_number) is unique, and so are a tenant's email and its
 *    linked login account;
 *  - deleting a property cascades to its units, deleting a unit sets the
 *    unit of its tenants to null, deleting a tenant cascades to its payments;
 *  - saving an active tenant with a unit marks that unit occupied, and
 *    deleting a tenant first marks its unit available.
 * Properties and units are kept by primary key; tenants and payments are
 * kept in insertion order.
 */
module Store {
  import opened Wrappers
  import opened Models

  /** Why a form submission or lookup is refused. */
  datatype StoreError =
    | NotFound             // get_object_or_404
    | UnknownProperty      // the unit form's property choice does not exist
    | UnknownUnit          // the tenant form's unit choice does not exist
    | DuplicateUnitNumber  // unique_together (property, unit_number)
    | DuplicateEmail       // Tenant.email is unique
    | UserAlreadyLinked    // Tenant.user is one-to-one

  function TenantIds(ts: seq<Tenant>): set<nat> {
    set i | 0 <= i < |ts| :: ts[i].id
  }

  /** The position of the tenant with primary key `id`. */
  function IndexOf(ts: seq<Tenant>, id: nat): (r: Option<nat>)
    ensures r.Some? ==> r.value < |ts| && ts[r.value].id == id
    ensures r.None? <==> forall i | 0 <= i < |ts| :: ts[i].id != id
  {
    if ts == [] then None
    else if ts[0].id == id then Some(0)
    else match IndexOf(ts[1..], id)
      case None => None
      case Some(k) => Some(k + 1)
  }

  predicate IdsUnique(ts: seq<Tenant>) {
    forall i, j | 0 <= i < j < |ts| :: ts[i].id != ts[j].id
  }

  predicate EmailsUnique(ts: seq<Tenant>) {
    forall i, j | 0 <= i < j < |ts| :: ts[i].email != ts[j].email
  }

  predicate UsersUnique(ts: seq<Tenant>) {
    forall i, j | 0 <= i < j < |ts| :: ts[i].userId.Some? ==> ts[i].userId != ts[j].userId
  }

  predicate UnitNumbersUnique(units: map<nat, Unit>) {
    forall a, b | a in units && b in units && a != b ::
      units[a].propertyId != units[b].propertyId || units[a].unitNumber != units[b].unitNumber
  }

  /** Another tenant than the one at position `skip` (if any) already uses this email. */
  predicate EmailTaken(ts: seq<Tenant>, email: string, skip: Option<nat>) {
    exists j | 0 <= j < |ts| && Some(j) != skip :: ts[j].email == email
  }

  /** Another tenant than the one at position `skip` (if any) is already linked to this account. */
  predicate UserTaken(ts: seq<Tenant>, user: Option<nat>, skip: Option<nat>) {
    user.Some? && exists j | 0 <= j < |ts| && Some(j) != skip :: ts[j].userId == user
  }

  /** Another unit than `skip` (if any) of the same property already has this number. */
  predicate UnitNumberTaken(units: map<nat, Unit>, u: Unit, skip: Option<nat>) {
    exists id | id in units && Some(id) != skip ::
      units[id].propertyId == u.propertyId && units[id].unitNumber == u.unitNumber
  }

  /** The on_delete=SET_NULL policy of Tenant.unit: tenants of a removed unit keep no unit. */
  function DetachUnits(ts: seq<Tenant>, gone: set<nat>): (r: seq<Tenant>)
    ensures |r| == |ts|
    ensures forall i | 0 <= i < |ts| ::
      r[i] == if ts[i].unitId.Some? && ts[i].unitId.value in gone then ts[i].(unitId := None) else ts[i]
  {
    seq(|ts|, i requires 0 <= i < |ts| =>
      if ts[i].unitId.Some? && ts[i].unitId.value in gone then ts[i].(unitId := None) else ts[i])
  }

  /** The on_delete=CASCADE policy of Payment.tenant: the payments of a removed tenant go too. */
  function DropPaymentsOf(ps: seq<Payment>, tenantId: nat): (r: seq<Payment>)
    ensures forall p | p in r :: p in ps && p.tenantId != tenantId
    ensures forall p | p in ps && p.tenantId != tenantId :: p in r
    ensures |r| <= |ps|
  {
    if ps == [] then []
    else if ps[0].tenantId == tenantId then DropPaymentsOf(ps[1..], tenantId)
    else [ps[0]] + DropPaymentsOf(ps[1..], tenantId)
  }

  /**
   * CASCADE removes exactly the rows of that tenant: every other payment keeps
   * its multiplicity, so equal payments (a callback delivered twice) all stay.
   */
  lemma {:induction false} DropPaymentsOfFilters(ps: seq<Payment>, tenantId: nat)
    ensures forall q :: multiset(DropPaymentsOf(ps, tenantId))[q] == (if q.tenantId == tenantId then 0 else multiset(ps)[q])
  {
    if ps != [] {
      DropPaymentsOfFilters(ps[1..], tenantId);
      assert ps == [ps[0]] + ps[1..];
    }
  }

  /** The tenants without the one at position i, in the same order. */
  function RemoveAt(ts: seq<Tenant>, i: nat): (r: seq<Tenant>)
    requires i < |ts|
    ensures |r| == |ts| - 1
    ensures forall k | 0 <= k < i :: r[k] == ts[k]
    ensures forall k | i <= k < |r| :: r[k] == ts[k + 1]
  {
    ts[..i] + ts[i + 1..]
  }

  /**
   * The units after a tenant save (tenant_create and tenant_update): an active
   * tenant's unit is set to occupied and saved; otherwise no unit is touched.
   */
  function UnitsAfterTenantSave(units: map<nat, Unit>, t: Tenant): (r: map<nat, Unit>)
    requires t.unitId.Some? ==> t.unitId.value in units
    ensures r.Keys == units.Keys
    ensures t.unitId.Some? && t.status == Active ==>
      r[t.unitId.value] == Saved(units[t.unitId.value].(status := Occupied))
    ensures forall id | id in units && (t.unitId != Some(id) || t.status != Active) :: r[id] == units[id]
  {
    if t.unitId.Some? && t.status == Active then
      var id := t.unitId.value;
      units[id := Saved(units[id].(status := Occupied))]
    else units
  }

  class Store {
    var properties: map<nat, Property>
    var units: map<nat, Unit>
    var tenants: seq<Tenant>
    var payments: seq<Payment>
    /** The next primary key to hand out (one sequence for all tables). */
    var nextId: nat

    ghost predicate Valid()
      reads this
    {
      && (forall id | id in properties :: id < nextId)
      && (forall id | id in units :: id < nextId && units[id].propertyId in properties)
      && (forall id | id in units :: units[id].isOccupied == (units[id].status == Occupied))
      && UnitNumbersUnique(units)
      && (forall i | 0 <= i < |tenants| :: tenants[i].id < nextId)
      && (forall i | 0 <= i < |tenants| :: tenants[i].unitId.Some? ==> tenants[i].unitId.value in units)
      && IdsUnique(tenants) && EmailsUnique(tenants) && UsersUnique(tenants)
      && (forall p | p in payments :: p.tenantId in TenantIds(tenants))
    }

    constructor ()
      ensures Valid()
      ensures properties == map[] && units == map[] && tenants == [] && payments == []
    {
      properties, units, tenants, payments, nextId := map[], map[], [], [], 1;
    }

    /** property_create. */
    method CreateProperty(p: Property) returns (id: nat)
      requires Valid()
      modifies this
      ensures Valid()
      ensures id !in old(properties) && properties == old(properties)[id := p]
      ensures units == old(units) && tenants == old(tenants) && payments == old(payments)
    {
      id := nextId;
      properties := properties[id := p];
      nextId := nextId + 1;
    }

    /** property_update. */
    method UpdateProperty(id: nat, p: Property) returns (r: Result<nat, StoreError>)
      requires Valid()
      modifies this
      ensures Valid()
      ensures r.Err? <==> id !in old(properties)
      ensures r.Err? ==> r.error == NotFound && properties == old(properties)
      ensures r.Ok? ==> properties == old(properties)[id := p]
      ensures units == old(units) && tenants == old(tenants) && payments == old(payments)
    {
      if id !in properties {
        return Err(NotFound);
      }
      properties := properties[id := p];
      r := Ok(id);
    }

    /**
     * property_delete: the property goes, its units go with it (CASCADE), and
     * the tenants of those units are left without a unit (SET_NULL).
     */
    method DeleteProperty(id: nat) returns (r: Result<nat, StoreError>)
      requires Valid()
      modifies this
      ensures Valid()
      ensures r.Err? <==> id !in old(properties)
      ensures r.Err? ==> r.error == NotFound && unchanged(this)
      ensures r.Ok? ==>
        && properties == old(properties) - {id}
        && units == old(units) - UnitsOf(old(units), id)
        && tenants == DetachUnits(old(tenants), UnitsOf(old(units), id))
        && payments == old(payments)
      ensures forall uid | uid in units :: units[uid].propertyId != id
    {
      if id !in properties {
        return Err(NotFound);
      }
      var gone := UnitsOf(units, id);
      DetachKeeps(tenants, gone);
      tenants := DetachUnits(tenants, gone);
      units := units - gone;
      properties := properties - {id};
      r := Ok(id);
    }

    /** unit_create: the form checks, then Unit.save. */
    method CreateUnit(u: Unit) returns (r: Result<nat, StoreError>)
      requires Valid()
      modifies this
      ensures Valid()
      ensures r.Err? ==> unchanged(this)
      ensures r == Err(UnknownProperty) <==> u.propertyId !in old(properties)
      ensures r == Err(DuplicateUnitNumber) <==>
        u.propertyId in old(properties) && UnitNumberTaken(old(units), u, None)
      ensures r.Ok? <==> u.propertyId in old(properties) && !UnitNumberTaken(old(units), u, None)
      ensures r.Ok? ==> r.value !in old(units) && units == old(units)[r.value := Saved(u)]
      ensures properties == old(properties) && tenants == old(tenants) && payments == old(payments)
    {
      if u.propertyId !in properties {
        return Err(UnknownProperty);
      }
      if UnitNumberTaken(units, u, None) {
        return Err(DuplicateUnitNumber);
      }
      var id := nextId;
      units := units[id := Saved(u)];
      nextId := nextId + 1;
      r := Ok(id);
    }

    /** unit_update: the form checks (the unit itself excluded from uniqueness), then Unit.save. */
    method UpdateUnit(id: nat, u: Unit) returns (r: Result<nat, StoreError>)
      requires Valid()
      modifies this
      ensures Valid()
      ensures r.Err? ==> unchanged(this)
      ensures r == Err(NotFound) <==> id !in old(units)
      ensures r == Err(UnknownProperty) <==> id in old(units) && u.propertyId !in old(properties)
      ensures r == Err(DuplicateUnitNumber) <==>
        id in old(units) && u.propertyId in old(properties) && UnitNumberTaken(old(units), u, Some(id))
      ensures r.Ok? <==> id in old(units) && u.propertyId in old(properties) && !UnitNumberTaken(old(units), u, Some(id))
      ensures r.Ok? ==> r.value == id && units == old(units)[id := Saved(u)]
      ensures properties == old(properties) && tenants == old(tenants) && payments == old(payments)
    {
      if id !in units {
        return Err(NotFound);
      }
      if u.propertyId !in properties {
        return Err(UnknownProperty);
      }
      if UnitNumberTaken(units, u, Some(id)) {
        return Err(DuplicateUnitNumber);
      }
      units := units[id := Saved(u)];
      r := Ok(id);
    }

    /** unit_delete: the unit goes and its tenants are left without a unit (SET_NULL). */
    method DeleteUnit(id: nat) returns (r: Result<nat, StoreError>)
      requires Valid()
      modifies this
      ensures Valid()
      ensures r.Err? <==> id !in old(units)
      ensures r.Err? ==> r.error == NotFound && unchanged(this)
      ensures r.Ok? ==>
        && units == old(units) - {id}
        && tenants == DetachUnits(old(tenants), {id})
      ensures forall i | 0 <= i < |tenants| :: tenants[i].unitId != Some(id)
      ensures properties == old(properties) && payments == old(payments)
    {
      if id !in units {
        return Err(NotFound);
      }
      DetachKeeps(tenants, {id});
      tenants := DetachUnits(tenants, {id});
      units := units - {id};
      r := Ok(id);
    }

    /**
     * tenant_create: the form checks, tenant.save(), then the unit sync of an
     * active tenant with a unit.
     */
    method CreateTenant(t: Tenant) returns (r: Result<nat, StoreError>)
      requires Valid()
      modifies this
      ensures Valid()
      ensures r.Err? ==> unchanged(this)
      ensures r == Err(UnknownUnit) <==> t.unitId.Some? && t.unitId.value !in old(units)
      ensures r == Err(DuplicateEmail) <==>
        (t.unitId.Some? ==> t.unitId.value in old(units)) && EmailTaken(old(tenants), t.email, None)
      ensures r == Err(UserAlreadyLinked) <==>
        (t.unitId.Some? ==> t.unitId.value in old(units)) && !EmailTaken(old(tenants), t.email, None) &&
        UserTaken(old(tenants), t.userId, None)
      ensures r.Ok? <==>
        && !(t.unitId.Some? && t.unitId.value !in old(units))
        && !EmailTaken(old(tenants), t.email, None)
        && !UserTaken(old(tenants), t.userId, None)
      ensures r.Ok? ==>
        && r.value !in TenantIds(old(tenants))
        && tenants == old(tenants) + [t.(id := r.value)]
        && units == UnitsAfterTenantSave(old(units), t)
      ensures properties == old(properties) && payments == old(payments)
    {
      if t.unitId.Some? && t.unitId.value !in units {
        return Err(UnknownUnit);
      }
      if EmailTaken(tenants, t.email, None) {
        return Err(DuplicateEmail);
      }
      if UserTaken(tenants, t.userId, None) {
        return Err(UserAlreadyLinked);
      }
      var id := InsertTenant(t);
      if t.unitId.Some? && t.status == Active {
        SetUnitStatus(t.unitId.value, Occupied);
      }
      r := Ok(id);
    }

    /**
     * tenant_update: the form checks (the tenant itself excluded from
     * uniqueness), tenant.save(), then the same unit sync. A unit the tenant
     * held before is not touched.
     */
    method UpdateTenant(id: nat, t: Tenant) returns (r: Result<nat, StoreError>)
      requires Valid()
      modifies this
      ensures Valid()
      ensures r.Err? ==> unchanged(this)
      ensures r == Err(NotFound) <==> id !in TenantIds(old(tenants))
      ensures r.Ok? ==>
        && IndexOf(old(tenants), id).Some?
        && var i := IndexOf(old(tenants), id).value;
        && !(t.unitId.Some? && t.unitId.value !in old(units))
        && !EmailTaken(old(tenants), t.email, Some(i))
        && !UserTaken(old(tenants), t.userId, Some(i))
        && r.value == id
        && tenants == old(tenants)[i := t.(id := id)]
        && units == UnitsAfterTenantSave(old(units), t)
      ensures IndexOf(old(tenants), id).Some? ==>
        var i := IndexOf(old(tenants), id).value;
        (r.Ok? <==>
          && !(t.unitId.Some? && t.unitId.value !in old(units))
          && !EmailTaken(old(tenants), t.email, Some(i))
          && !UserTaken(old(tenants), t.userId, Some(i)))
      ensures r.Err? && r.error != NotFound ==>
        && IndexOf(old(tenants), id).Some?
        && var i := IndexOf(old(tenants), id).value;
        && (r.error == UnknownUnit <==> t.unitId.Some? && t.unitId.value !in old(units))
        && (r.error == DuplicateEmail <==>
              (t.unitId.Some? ==> t.unitId.value in old(units)) && EmailTaken(old(tenants), t.email, Some(i)))
        && (r.error == UserAlreadyLinked <==>
              (t.unitId.Some? ==> t.unitId.value in old(units)) && !EmailTaken(old(tenants), t.email, Some(i)) &&
              UserTaken(old(tenants), t.userId, Some(i)))
      ensures properties == old(properties) && payments == old(payments)
    {
      var found := IndexOf(tenants, id);
      if found.None? {
        return Err(NotFound);
      }
      var i := found.value;
      if t.unitId.Some? && t.unitId.value !in units {
        return Err(UnknownUnit);
      }
      if EmailTaken(tenants, t.email, Some(i)) {
        return Err(DuplicateEmail);
      }
      if UserTaken(tenants, t.userId, Some(i)) {
        return Err(UserAlreadyLinked);
      }
      ReplaceTenantAt(i, t.(id := id));
      if t.unitId.Some? && t.status == Active {
        SetUnitStatus(t.unitId.value, Occupied);
      }
      r := Ok(id);
    }

    /**
     * tenant_delete: the tenant's unit, if any, is set to available and saved
     * first; then the tenant goes and its payments with it (CASCADE).
     */
    method DeleteTenant(id: nat) returns (r: Result<nat, StoreError>)
      requires Valid()
      modifies this
      ensures Valid()
      ensures r.Err? <==> id !in TenantIds(old(tenants))
      ensures r.Err? ==> r.error == NotFound && unchanged(this)
      ensures r.Ok? ==>
        && IndexOf(old(tenants), id).Some?
        && var i := IndexOf(old(tenants), id).value;
        && var t := old(tenants)[i];
        && tenants == RemoveAt(old(tenants), i)
        && payments == DropPaymentsOf(old(payments), id)
        && units == (if t.unitId.Some?
                     then old(units)[t.unitId.value := Saved(old(units)[t.unitId.value].(status := Available))]
                     else old(units))
      ensures r.Ok? ==> id !in TenantIds(tenants)
      ensures properties == old(properties)
    {
      var found := IndexOf(tenants, id);
      if found.None? {
        return Err(NotFound);
      }
      var i := found.value;
      var t := tenants[i];
      if t.unitId.Some? {
        SetUnitStatus(t.unitId.value, Available);
      }
      RemoveTenantAt(i);
      r := Ok(id);
    }

    /** `tenant.save()` of a new tenant that passed the form checks: it is appended under a fresh id. */
    method InsertTenant(t: Tenant) returns (id: nat)
      requires Valid()
      requires t.unitId.Some? ==> t.unitId.value in units
      requires !EmailTaken(tenants, t.email, None) && !UserTaken(tenants, t.userId, None)
      modifies this`tenants, this`nextId
      ensures Valid()
      ensures id !in TenantIds(old(tenants))
      ensures tenants == old(tenants) + [t.(id := id)]
    {
      id := nextId;
      AppendedTenant(tenants, t.(id := id));
      tenants := tenants + [t.(id := id)];
      nextId := nextId + 1;
    }

    /** `tenant.save()` of an edited tenant that passed the form checks: it replaces the stored row. */
    method ReplaceTenantAt(i: nat, t: Tenant)
      requires Valid() && i < |tenants| && t.id == tenants[i].id
      requires t.unitId.Some? ==> t.unitId.value in units
      requires !EmailTaken(tenants, t.email, Some(i)) && !UserTaken(tenants, t.userId, Some(i))
      modifies this`tenants
      ensures Valid()
      ensures tenants == old(tenants)[i := t]
    {
      ReplacedTenant(tenants, i, t);
      tenants := tenants[i := t];
    }

    /** `unit.status = s; unit.save()` on a stored unit: only that unit changes, and its flag follows. */
    method SetUnitStatus(uid: nat, s: UnitStatus)
      requires Valid() && uid in units
      modifies this`units
      ensures Valid()
      ensures units == old(units)[uid := Saved(old(units)[uid].(status := s))]
    {
      StatusChangeKeepsUnitRules(units, uid, s);
      var unit := units[uid];
      unit := unit.(status := s);
      units := units[uid := Saved(unit)];
    }

    /** `tenant.delete()`: the tenant at position i goes, and its payments with it (CASCADE). */
    method RemoveTenantAt(i: nat)
      requires Valid() && i < |tenants|
      modifies this`tenants, this`payments
      ensures Valid()
      ensures tenants == RemoveAt(old(tenants), i)
      ensures payments == DropPaymentsOf(old(payments), old(tenants)[i].id)
      ensures old(tenants)[i].id !in TenantIds(tenants)
    {
      var id := tenants[i].id;
      var ts := tenants;
      RemovedTenantIds(ts, i);
      tenants := RemoveAt(tenants, i);
      payments := DropPaymentsOf(payments, id);
      assert forall p | p in payments :: p.tenantId in TenantIds(tenants);
    }

    /** A completed or recorded payment is appended to the ledger (payment_create, the M-Pesa callback). */
    method AddPayment(p: Payment)
      requires Valid()
      requires p.tenantId in TenantIds(tenants)
      modifies this`payments
      ensures Valid()
      ensures payments == old(payments) + [p]
    {
      payments := payments + [p];
    }

    /** Tenant.property_name: the name of the property of the tenant's unit, or None without a unit. */
    function PropertyName(t: Tenant): (r: Option<string>)
      reads this
      requires Valid()
      requires t.unitId.Some? ==> t.unitId.value in units
      ensures r.None? <==> t.unitId.None?
      ensures r.Some? ==> r.value == properties[units[t.unitId.value].propertyId].name
    {
      match t.unitId
      case None => None
      case Some(uid) => Some(properties[units[uid].propertyId].name)
    }

    /**
     * Payment.property_name: the same path through the payment's tenant; the
     * AttributeError of a tenant without a unit is caught and gives None.
     */
    function PaymentPropertyName(p: Payment): (r: Option<string>)
      reads this
      requires Valid()
      requires p in payments
      ensures var i := IndexOf(tenants, p.tenantId);
        i.Some? && r == PropertyName(tenants[i.value])
    {
      var i := IndexOf(tenants, p.tenantId).value;
      PropertyName(tenants[i])
    }

    /** Property.occupancy_rate of the stored property `pid`. */
    function OccupancyRateOf(pid: nat): (rate: real)
      reads this
      requires pid in properties
      ensures properties[pid].totalUnits == 0 ==> rate == 0.0
      ensures rate == OccupancyRate(properties[pid], OccupiedUnits(units, pid))
    {
      OccupancyRate(properties[pid], OccupiedUnits(units, pid))
    }
  }

  /** Removing the tenant at i removes exactly its id, and uniqueness survives. */
  lemma RemovedTenantIds(ts: seq<Tenant>, i: nat)
    requires i < |ts| && IdsUnique(ts)
    ensures TenantIds(RemoveAt(ts, i)) == TenantIds(ts) - {ts[i].id}
    ensures IdsUnique(RemoveAt(ts, i))
    ensures EmailsUnique(ts) ==> EmailsUnique(RemoveAt(ts, i))
    ensures UsersUnique(ts) ==> UsersUnique(RemoveAt(ts, i))
  {
    var r := RemoveAt(ts, i);
    forall id | id in TenantIds(r) ensures id in TenantIds(ts) - {ts[i].id} {
      var k :| 0 <= k < |r| && r[k].id == id;
      if k >= i { assert r[k] == ts[k + 1]; }
    }
    forall id | id in TenantIds(ts) - {ts[i].id} ensures id in TenantIds(r) {
      var k :| 0 <= k < |ts| && ts[k].id == id;
      if k < i { assert r[k] == ts[k]; } else { assert r[k - 1] == ts[k]; }
    }
  }

  /** Replacing a tenant by one with the same id and no clashing email or account keeps every uniqueness rule. */
  lemma ReplacedTenant(ts: seq<Tenant>, i: nat, t: Tenant)
    requires i < |ts| && t.id == ts[i].id
    requires IdsUnique(ts) && EmailsUnique(ts) && UsersUnique(ts)
    requires !EmailTaken(ts, t.email, Some(i)) && !UserTaken(ts, t.userId, Some(i))
    ensures TenantIds(ts[i := t]) == TenantIds(ts)
    ensures IdsUnique(ts[i := t]) && EmailsUnique(ts[i := t]) && UsersUnique(ts[i := t])
  {
    var r := ts[i := t];
    assert forall k | 0 <= k < |ts| :: r[k].id == ts[k].id;
    forall a, b | 0 <= a < b < |r| ensures r[a].userId.Some? ==> r[a].userId != r[b].userId {
      if a == i || b == i {
        var other := if a == i then b else a;
        assert r[other] == ts[other];
      }
    }
  }

  /** Appending a tenant with a new id, email and account keeps every uniqueness rule. */
  lemma AppendedTenant(ts: seq<Tenant>, t: Tenant)
    requires IdsUnique(ts) && EmailsUnique(ts) && UsersUnique(ts)
    requires t.id !in TenantIds(ts)
    requires !EmailTaken(ts, t.email, None) && !UserTaken(ts, t.userId, None)
    ensures TenantIds(ts + [t]) == TenantIds(ts) + {t.id}
    ensures IdsUnique(ts + [t]) && EmailsUnique(ts + [t]) && UsersUnique(ts + [t])
  {
    var r := ts + [t];
    assert forall i | 0 <= i < |ts| :: r[i] == ts[i];
    assert r[|ts|] == t;
  }

  /** Detaching tenants from removed units keeps their ids and every uniqueness rule. */
  lemma DetachKeeps(ts: seq<Tenant>, gone: set<nat>)
    ensures TenantIds(DetachUnits(ts, gone)) == TenantIds(ts)
    ensures IdsUnique(ts) ==> IdsUnique(DetachUnits(ts, gone))
    ensures EmailsUnique(ts) ==> EmailsUnique(DetachUnits(ts, gone))
    ensures UsersUnique(ts) ==> UsersUnique(DetachUnits(ts, gone))
    ensures forall i | 0 <= i < |ts| && DetachUnits(ts, gone)[i].unitId.Some? ::
      DetachUnits(ts, gone)[i].unitId == ts[i].unitId && ts[i].unitId.value !in gone
  {
    var r := DetachUnits(ts, gone);
    assert forall i | 0 <= i < |ts| :: r[i].id == ts[i].id && r[i].email == ts[i].email && r[i].userId == ts[i].userId;
  }

  /** Re-saving one unit with a new status keeps the unit keys, the unit-number rule and the property links. */
  lemma StatusChangeKeepsUnitRules(units: map<nat, Unit>, uid: nat, s: UnitStatus)
    requires uid in units && UnitNumbersUnique(units)
    ensures var r := units[uid := Saved(units[uid].(status := s))];
      && r.Keys == units.Keys
      && UnitNumbersUnique(r)
      && (forall id | id in r :: r[id].propertyId == units[id].propertyId)
      && (forall id | id in r && id != uid :: r[id] == units[id])
      && (r[uid].isOccupied <==> r[uid].status == Occupied)
  {
  }

  /** In a valid store, the occupied count is the number of units whose status is occupied. */
  lemma OccupiedMeansStatus(s: Store, pid: nat)
    requires s.Valid()
    ensures OccupiedUnits(s.units, pid) ==
      |set id | id in s.units && s.units[id].propertyId == pid && s.units[id].status == Occupied|
  {
    assert UnitsWithFlag(s.units, pid, true) ==
      set id | id in s.units && s.units[id].propertyId == pid && s.units[id].status == Occupied;
  }
}
