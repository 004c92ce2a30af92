/** The equipment page, src/pages/Equipment.tsx: the maintenance status that
    compares the hours since the last service with the service interval, the
    usage bar, the status badge colour and the stat cards over the page's
    list of units. The source divides in floating point; here the ratio is an
    exact rational and the comparisons are integer cross-multiplications. */
module Equipment {
  import opened Common

  /** A unit as the page lists it; `kind` is the shown type. */
  datatype Unit = Unit(id: nat, name: string, assetTag: string, kind: string, status: string,
                       location: string, operator: string, nextService: string,
                       hoursUsed: nat, serviceInterval: nat, lastMaintenance: string)

  /** The page's four units. */
  const Units: seq<Unit> := [
    Unit(1, "Excavator CAT 320", "EQ-001", "Heavy Machinery", "Active", "Downtown Site",
         "Mike Wilson", "2024-12-20", 1240, 250, "2024-11-15"),
    Unit(2, "Tower Crane TC-7035", "EQ-002", "Lifting Equipment", "Active", "Downtown Site",
         "Sarah Johnson", "2024-12-25", 890, 500, "2024-10-20"),
    Unit(3, "Concrete Mixer M150", "EQ-003", "Concrete Equipment", "Maintenance", "Workshop",
         "-", "2024-12-14", 2100, 200, "2024-12-10"),
    Unit(4, "Forklift FL-3000", "EQ-004", "Material Handling", "Available", "Warehouse Site",
         "-", "2024-12-30", 450, 300, "2024-11-30")
  ]

  // ------------------------------------------------------------ maintenance

  datatype Maintenance = Good | DueSoon | Overdue

  function MaintenanceName(m: Maintenance): string
  {
    match m
    case Good => "Good"
    case DueSoon => "Due Soon"
    case Overdue => "Overdue"
  }

  function MaintenanceColor(m: Maintenance): string
  {
    match m
    case Good => "text-green-600"
    case DueSoon => "text-yellow-600"
    case Overdue => "text-red-600"
  }

  /** `getMaintenanceStatus`: with `r = hoursUsed % serviceInterval`, overdue
      above 90% of the interval, due soon above 75%, good otherwise. A zero
      interval makes the ratio NaN in the source, and every comparison with
      NaN is false, so such a unit is good. */
  function MaintenanceStatus(hoursUsed: nat, serviceInterval: nat): Maintenance
  {
    if serviceInterval == 0 then Good
    else
      var sinceService := hoursUsed % serviceInterval;
      if 10 * sinceService > 9 * serviceInterval then Overdue
      else if 4 * sinceService > 3 * serviceInterval then DueSoon
      else Good
  }

  /** The share of the interval used since the last service, in percent, as
      the exact rational the source approximates; `None` stands for NaN. */
  function UsagePercent(hoursUsed: nat, serviceInterval: nat): (p: Option<real>)
    ensures p.None? <==> serviceInterval == 0
    ensures p.Some? ==> 0.0 <= p.value < 100.0
  {
    if serviceInterval == 0 then None
    else
      var r := (hoursUsed % serviceInterval) as real;
      var i := serviceInterval as real;
      assert r < i;
      assert (r / i) * i == r;
      Some((r / i) * 100.0)
  }

  /** The usage bar's width is the same percentage. */
  function UsageWidth(u: Unit): (width: Option<real>)
    ensures width.Some? ==> 0.0 <= width.value < 100.0
  {
    UsagePercent(u.hoursUsed, u.serviceInterval)
  }

  lemma PercentAbove(r: nat, i: nat, bound: real, num: nat, den: nat)
    requires i > 0 && den > 0 && bound == (num as real / den as real) * 100.0
    ensures (r as real / i as real) * 100.0 > bound <==> den * r > num * i
  {
    var q := r as real / i as real;
    assert q * i as real == r as real;
    var b := num as real / den as real;
    assert b * den as real == num as real;
    assert q > b <==> q * i as real * den as real > b * den as real * i as real;
    assert (den * r) as real == q * i as real * den as real;
    assert (num * i) as real == b * den as real * i as real;
  }

  /** The integer comparisons are the source's percentage thresholds: the
      status is overdue exactly when the percentage exceeds 90, due soon
      exactly when it lies in (75, 90], and good exactly when it is at most 75
      (or NaN). */
  lemma MaintenanceThresholds(hoursUsed: nat, serviceInterval: nat)
    ensures var p := UsagePercent(hoursUsed, serviceInterval);
            (MaintenanceStatus(hoursUsed, serviceInterval) == Overdue <==> p.Some? && p.value > 90.0)
            && (MaintenanceStatus(hoursUsed, serviceInterval) == DueSoon <==> p.Some? && 75.0 < p.value <= 90.0)
            && (MaintenanceStatus(hoursUsed, serviceInterval) == Good <==> p.None? || p.value <= 75.0)
  {
    if serviceInterval > 0 {
      var r := hoursUsed % serviceInterval;
      PercentAbove(r, serviceInterval, 90.0, 9, 10);
      PercentAbove(r, serviceInterval, 75.0, 3, 4);
    }
  }

  /** Only the hours since the last service count: units whose hours agree
      modulo the interval get the same status and bar, and one more whole
      interval changes neither. */
  lemma MaintenanceIgnoresWholeIntervals(h1: nat, h2: nat, serviceInterval: nat)
    requires serviceInterval > 0 ==> h1 % serviceInterval == h2 % serviceInterval
    ensures MaintenanceStatus(h1, serviceInterval) == MaintenanceStatus(h2, serviceInterval)
    ensures UsagePercent(h1, serviceInterval) == UsagePercent(h2, serviceInterval)
    ensures MaintenanceStatus(h1 + serviceInterval, serviceInterval) == MaintenanceStatus(h1, serviceInterval)
  {
    if serviceInterval > 0 {
      var q, r := h1 / serviceInterval, h1 % serviceInterval;
      ModUnique(h1 + serviceInterval, serviceInterval, q + 1, r);
    }
  }

  /** Euclidean remainders are unique. */
  lemma ModUnique(a: int, i: int, q: int, r: int)
    requires i > 0 && a == q * i + r && 0 <= r < i
    ensures a % i == r
  {
    var q2, r2 := a / i, a % i;
    assert a == q2 * i + r2;
    assert (q - q2) * i == r2 - r;
    if q > q2 {
      MulAtLeast(q - q2, i);
    } else if q < q2 {
      MulAtLeast(q2 - q, i);
    }
  }

  lemma MulAtLeast(d: int, i: int)
    requires d >= 1 && i > 0
    ensures d * i >= i
  {
  }

  // ------------------------------------------------------------ badge colour

  const GreenBadge := "bg-green-100 text-green-800"
  const BlueBadge := "bg-blue-100 text-blue-800"
  const YellowBadge := "bg-yellow-100 text-yellow-800"
  const RedBadge := "bg-red-100 text-red-800"
  const GrayBadge := "bg-gray-100 text-gray-800"

  /** `getStatusColor`: one colour per known status, grey for anything else. */
  function StatusColor(status: string): (c: string)
    ensures c == GreenBadge <==> status == "Active"
    ensures c == BlueBadge <==> status == "Available"
    ensures c == YellowBadge <==> status == "Maintenance"
    ensures c == RedBadge <==> status == "Out of Service"
    ensures c == GrayBadge <==> status !in {"Active", "Available", "Maintenance", "Out of Service"}
  {
    match status
    case "Active" => GreenBadge
    case "Available" => BlueBadge
    case "Maintenance" => YellowBadge
    case "Out of Service" => RedBadge
    case _ => GrayBadge
  }

  /** `item.operator || 'Unassigned'`. */
  function OperatorLabel(u: Unit): (text: string)
    ensures text != ""
    ensures u.operator != "" ==> text == u.operator
    ensures u.operator == "" ==> text == "Unassigned"
  {
    if u.operator != "" then u.operator else "Unassigned"
  }

  // ------------------------------------------------------------ stat cards

  predicate IsActive(u: Unit)
  {
    u.status == "Active"
  }

  predicate InMaintenance(u: Unit)
  {
    u.status == "Maintenance"
  }

  predicate ServiceDue(u: Unit)
  {
    var m := MaintenanceStatus(u.hoursUsed, u.serviceInterval);
    MaintenanceName(m) == "Due Soon" || MaintenanceName(m) == "Overdue"
  }

  function ActiveCount(units: seq<Unit>): nat
  {
    CountWhere(units, IsActive)
  }

  function MaintenanceCount(units: seq<Unit>): nat
  {
    CountWhere(units, InMaintenance)
  }

  /** The "Service Due" card. */
  function ServiceDueCount(units: seq<Unit>): nat
  {
    CountWhere(units, ServiceDue)
  }

  function HasStatus(m: Maintenance): Unit -> bool
  {
    (u: Unit) => MaintenanceStatus(u.hoursUsed, u.serviceInterval) == m
  }

  function StatusCount(units: seq<Unit>, m: Maintenance): nat
  {
    CountWhere(units, HasStatus(m))
  }

  /** The "Service Due" card counts the due-soon and the overdue units, each
      once, and never exceeds the "Total Equipment" card; the "Active" and
      "In Maintenance" cards together do not exceed it either. */
  lemma StatCardBounds(units: seq<Unit>)
    ensures ServiceDueCount(units) == StatusCount(units, DueSoon) + StatusCount(units, Overdue)
    ensures ServiceDueCount(units) <= |units|
    ensures ActiveCount(units) + MaintenanceCount(units) <= |units|
  {
    CountWhereSplit(units, ServiceDue, HasStatus(DueSoon), HasStatus(Overdue));
    CountWhereSplit(units, (u: Unit) => IsActive(u) || InMaintenance(u), IsActive, InMaintenance);
  }

  lemma UnitStatuses()
    ensures MaintenanceStatus(1240, 250) == Overdue
    ensures MaintenanceStatus(890, 500) == DueSoon
    ensures MaintenanceStatus(2100, 200) == Good
    ensures MaintenanceStatus(450, 300) == Good
  {
  }

  /** On the page's four units: the excavator is overdue, the crane is due
      soon, the mixer and the forklift are good; so the cards read 4 units,
      2 active, 1 in maintenance and 2 due for service. */
  lemma {:induction false} PageCards()
    ensures |Units| == 4
    ensures ActiveCount(Units) == 2
    ensures MaintenanceCount(Units) == 1
    ensures ServiceDueCount(Units) == 2
  {
    UnitStatuses();
    assert ServiceDue(Units[0]) && ServiceDue(Units[1]) && !ServiceDue(Units[2]) && !ServiceDue(Units[3]);
    assert Units[1..][1..][1..][1..] == [];
  }
}
