/**
 * The records of the rental ledger (Property, Unit, Tenant, Payment) and the
 * values derived from them: the occupancy flag Unit.save recomputes, the
 * occupied/vacant counts and occupancy rate of a property, a tenant's full
 * name and property name.
 *
 * Money is counted in hundredths (the decimal fields keep two places); dates
 * are day numbers. Properties and units are keyed by primary key in maps,
 * so they carry no id of their own.
 */
module Models {
  import opened Wrappers

  datatype Property = Property(name: string, totalUnits: nat)

  datatype UnitStatus = Available | Occupied | Maintenance | Reserved

  datatype Unit = Unit(
    propertyId: nat,
    unitNumber: string,
    rentAmount: int,
    status: UnitStatus,
    isOccupied: bool)

  datatype TenantStatus = Active | Inactive | Pending

  datatype Tenant = Tenant(
    id: nat,
    userId: Option<nat>,
    firstName: string,
    lastName: string,
    email: string,
    phone: string,
    unitId: Option<nat>,
    leaseEndDate: Option<int>,
    rentAmount: Option<int>,
    status: TenantStatus)

  datatype PaymentType = Rent | Deposit

  datatype PaymentMethod = Cash | Mpesa | BankTransfer

  datatype PaymentStatus = Pending | Completed | Failed | Refunded

  datatype Payment = Payment(
    tenantId: nat,
    amount: int,
    paymentType: PaymentType,
    paymentMethod: PaymentMethod,
    paymentDate: int,
    referenceNumber: string,
    description: string,
    status: PaymentStatus)

  /**
   * The unit as Unit.save writes it: the occupancy flag is recomputed from the
   * status and nothing else changes.
   */
  function Saved(u: Unit): (r: Unit)
    ensures r.isOccupied <==> r.status == Occupied
    ensures r.(isOccupied := u.isOccupied) == u
  {
    u.(isOccupied := u.status == Occupied)
  }

  /** Whatever the flag held before a save, the saved unit is the same. */
  lemma SavedIgnoresFlag(u: Unit, flag: bool)
    ensures Saved(u.(isOccupied := flag)) == Saved(u)
  {
  }

  /** Tenant.full_name. */
  function FullName(t: Tenant): string {
    t.firstName + " " + t.lastName
  }

  /**
   * When first names contain no space, the full name determines both parts:
   * two tenants share a full name only if they share first and last name.
   */
  lemma FullNameDeterminesParts(a: Tenant, b: Tenant)
    requires ' ' !in a.firstName && ' ' !in b.firstName
    requires FullName(a) == FullName(b)
    ensures a.firstName == b.firstName && a.lastName == b.lastName
  {
    var fa, fb := a.firstName, b.firstName;
    assert forall i | 0 <= i < |fa| :: FullName(a)[i] == fa[i] != ' ';
    assert forall i | 0 <= i < |fb| :: FullName(b)[i] == fb[i] != ' ';
    assert FullName(a)[|fa|] == ' ' && FullName(b)[|fb|] == ' ';
    assert |fa| == |fb|;
    assert fa == FullName(a)[..|fa|] && fb == FullName(b)[..|fb|];
    assert a.lastName == FullName(a)[|fa| + 1..] && b.lastName == FullName(b)[|fb| + 1..];
  }

  /**
   * Lexicographic order on strings by code point: the order the tenant list
   * is sorted in (the database's collation is not modelled).
   */
  predicate StrLess(a: string, b: string)
    decreases |a|
  {
    |b| > 0 && (|a| == 0 || a[0] < b[0] || (a[0] == b[0] && StrLess(a[1..], b[1..])))
  }

  /** Tenant's Meta.ordering: by last name, then by first name. */
  predicate TenantBefore(s: Tenant, t: Tenant) {
    StrLess(s.lastName, t.lastName) || (s.lastName == t.lastName && StrLess(s.firstName, t.firstName))
  }

  lemma {:induction false} StrLessIrreflexive(a: string)
    ensures !StrLess(a, a)
    decreases |a|
  {
    if |a| > 0 {
      StrLessIrreflexive(a[1..]);
    }
  }

  lemma {:induction false} StrLessTransitive(a: string, b: string, c: string)
    requires StrLess(a, b) && StrLess(b, c)
    ensures StrLess(a, c)
    decreases |a|
  {
    if |a| > 0 && a[0] == b[0] && b[0] == c[0] {
      StrLessTransitive(a[1..], b[1..], c[1..]);
    }
  }

  lemma {:induction false} StrLessTotal(a: string, b: string)
    ensures a == b || StrLess(a, b) || StrLess(b, a)
    decreases |a|
  {
    if |a| > 0 && |b| > 0 && a[0] == b[0] {
      StrLessTotal(a[1..], b[1..]);
      if a[1..] == b[1..] {
        assert a == [a[0]] + a[1..] && b == [b[0]] + b[1..];
      }
    }
  }

  /** The tenant ordering is a strict order that is total up to equal names. */
  lemma TenantOrder(s: Tenant, t: Tenant, u: Tenant)
    ensures !TenantBefore(s, s)
    ensures TenantBefore(s, t) && TenantBefore(t, u) ==> TenantBefore(s, u)
    ensures TenantBefore(s, t) || TenantBefore(t, s) ||
      (s.lastName == t.lastName && s.firstName == t.firstName)
  {
    StrLessIrreflexive(s.lastName);
    StrLessIrreflexive(s.firstName);
    StrLessTotal(s.lastName, t.lastName);
    StrLessTotal(s.firstName, t.firstName);
    if TenantBefore(s, t) && TenantBefore(t, u) {
      if StrLess(s.lastName, t.lastName) && StrLess(t.lastName, u.lastName) {
        StrLessTransitive(s.lastName, t.lastName, u.lastName);
      } else if StrLess(s.firstName, t.firstName) && StrLess(t.firstName, u.firstName) {
        StrLessTransitive(s.firstName, t.firstName, u.firstName);
      }
    }
  }

  /** The keys of the units that belong to property `pid`. */
  function UnitsOf(units: map<nat, Unit>, pid: nat): set<nat> {
    set id | id in units && units[id].propertyId == pid
  }

  /** The units of property `pid` whose occupancy flag equals `flag`. */
  function UnitsWithFlag(units: map<nat, Unit>, pid: nat, flag: bool): (s: set<nat>)
    ensures s <= UnitsOf(units, pid)
  {
    set id | id in units && units[id].propertyId == pid && units[id].isOccupied == flag
  }

  /** Property.occupied_units: the units of the property whose flag is set. */
  function OccupiedUnits(units: map<nat, Unit>, pid: nat): (n: nat)
    ensures n <= |UnitsOf(units, pid)|
  {
    CardinalityOfSubset(UnitsWithFlag(units, pid, true), UnitsOf(units, pid));
    |UnitsWithFlag(units, pid, true)|
  }

  /** Property.vacant_units: the units of the property whose flag is clear. */
  function VacantUnits(units: map<nat, Unit>, pid: nat): (n: nat)
    ensures n <= |UnitsOf(units, pid)|
  {
    CardinalityOfSubset(UnitsWithFlag(units, pid, false), UnitsOf(units, pid));
    |UnitsWithFlag(units, pid, false)|
  }

  lemma CardinalityOfSubset<T>(a: set<T>, b: set<T>)
    requires a <= b
    ensures |a| <= |b|
  {
    assert b == a + (b - a);
  }

  /** The flag is a plain Boolean, so every unit of a property is either occupied or vacant. */
  lemma OccupiedPlusVacant(units: map<nat, Unit>, pid: nat)
    ensures OccupiedUnits(units, pid) + VacantUnits(units, pid) == |UnitsOf(units, pid)|
  {
    var occ, vac := UnitsWithFlag(units, pid, true), UnitsWithFlag(units, pid, false);
    assert UnitsOf(units, pid) == occ + vac;
    assert occ * vac == {};
  }

  /**
   * Property.occupancy_rate without the rounding to one decimal: occupied
   * units as a percentage of the stored total_units, and 0 when that total is 0.
   */
  function OccupancyRate(p: Property, occupied: nat): (rate: real)
    ensures rate >= 0.0
    ensures p.totalUnits == 0 ==> rate == 0.0
    ensures rate == 0.0 <==> p.totalUnits == 0 || occupied == 0
  {
    if p.totalUnits == 0 then 0.0 else (occupied as real) / (p.totalUnits as real) * 100.0
  }

  /** The rate is at most 100 exactly when no more units are occupied than the stored total. */
  lemma RateAtMostHundred(p: Property, occupied: nat)
    requires p.totalUnits > 0
    ensures OccupancyRate(p, occupied) <= 100.0 <==> occupied <= p.totalUnits
  {
    var t := p.totalUnits as real;
    var o := occupied as real;
    var q := o / t;
    assert q * t == o;
    assert (q - 1.0) * t == o - t;
    PositiveFactor(q - 1.0, t);
  }

  /** Multiplying by a positive number keeps the sign. */
  lemma PositiveFactor(a: real, t: real)
    requires t > 0.0
    ensures a * t <= 0.0 <==> a <= 0.0
  {
    if a > 0.0 {
      assert a * t > 0.0;
    }
  }

  /**
   * total_units is entered by hand and not tied to the unit rows, so the
   * rate can exceed 100: one declared unit and two occupied unit rows give 200.
   */
  lemma RateCanExceedHundred()
    ensures var units := map[1 := Unit(7, "A", 0, Occupied, true), 2 := Unit(7, "B", 0, Occupied, true)];
      OccupancyRate(Property("Block", 1), OccupiedUnits(units, 7)) == 200.0
  {
    var units := map[1 := Unit(7, "A", 0, Occupied, true), 2 := Unit(7, "B", 0, Occupied, true)];
    assert UnitsWithFlag(units, 7, true) == {1, 2};
  }
}
