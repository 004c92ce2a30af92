/** The equipment hook, src/hooks/useEquipment.ts: the record built for each
    fetched equipment row — the operator's name from the active operator
    rows, the service interval chosen by category, and the defaults for
    missing fields. The fetched rows are inputs; the mock usage hours, which
    the source derives from the clock, are an input function. */
module UseEquipment {
  import opened Common

  /** A row of the `equipment` query; nullable columns are options. */
  datatype EquipmentRow = EquipmentRow(id: string, assetTag: string, name: string,
                                       description: Option<string>, category: Option<string>,
                                       status: string, location: Option<string>,
                                       purchaseDate: string, purchaseCost: Option<real>,
                                       currentValue: Option<real>, nextServiceDate: Option<string>,
                                       lastServiceDate: Option<string>)

  /** The joined user of an operator row. */
  datatype OperatorUser = OperatorUser(firstName: Option<string>, lastName: Option<string>)

  /** A row of the active `equipment_operators`. */
  datatype OperatorRow = OperatorRow(equipmentId: string, user: Option<OperatorUser>)

  datatype EquipmentData = EquipmentData(id: string, assetTag: string, name: string,
                                         description: string, category: string, status: string,
                                         location: string, purchaseDate: string,
                                         purchaseCost: real, currentValue: real,
                                         nextServiceDate: Option<string>,
                                         lastServiceDate: Option<string>,
                                         operator: Option<string>, hoursUsed: int,
                                         serviceInterval: nat)

  // ------------------------------------------------------------ defaults

  /** `text || fallback`: a missing or empty text gives the fallback. */
  function TextOr(text: Option<string>, fallback: string): (r: string)
    ensures text.Some? && text.value != "" ==> r == text.value
    ensures text.None? || text.value == "" ==> r == fallback
  {
    if text.Some? && text.value != "" then text.value else fallback
  }

  /** `amount || 0`: a missing or zero amount gives zero. */
  function AmountOr0(amount: Option<real>): (r: real)
    ensures amount.Some? ==> r == amount.value
    ensures amount.None? ==> r == 0.0
  {
    if amount.Some? && amount.value != 0.0 then amount.value else 0.0
  }

  /** A template literal's reading of a nullable text: `null` is spelt out. */
  function TemplateText(text: Option<string>): string
  {
    match text
    case Some(s) => s
    case None => "null"
  }

  // ------------------------------------------------------------ service interval

  const DefaultInterval := 250

  /** The interval table by category, as a lookup. */
  const CategoryIntervals: map<string, nat> := map[
    "Heavy Machinery" := 250,
    "Lifting Equipment" := 500,
    "Concrete Equipment" := 200,
    "Material Handling" := 300
  ]

  /** The interval of a category: its table entry, or the default. */
  function IntervalFor(category: Option<string>): nat
  {
    if category.Some? && category.value in CategoryIntervals then CategoryIntervals[category.value]
    else DefaultInterval
  }

  /** The source's `let serviceInterval` and its if/else chain on the raw
      category (before the 'General' default). */
  method ServiceInterval(category: Option<string>) returns (interval: nat)
    ensures interval == IntervalFor(category)
    ensures interval in {200, 250, 300, 500}
    ensures interval == 500 <==> category == Some("Lifting Equipment")
    ensures interval == 200 <==> category == Some("Concrete Equipment")
    ensures interval == 300 <==> category == Some("Material Handling")
  {
    interval := DefaultInterval;
    if category == Some("Heavy Machinery") {
      interval := 250;
    } else if category == Some("Lifting Equipment") {
      interval := 500;
    } else if category == Some("Concrete Equipment") {
      interval := 200;
    } else if category == Some("Material Handling") {
      interval := 300;
    }
  }

  /** A missing or unknown category, and the 'General' it is shown as, get
      the default interval. */
  lemma DefaultIntervalRule(category: Option<string>)
    ensures category.None? ==> IntervalFor(category) == 250
    ensures IntervalFor(Some(TextOr(category, "General"))) == IntervalFor(category)
  {
  }

  // ------------------------------------------------------------ operator

  /** The first active operator row of the unit. */
  function OperatorOf(operators: seq<OperatorRow>, equipmentId: string): (op: Option<OperatorRow>)
    ensures op.None? <==> forall i :: 0 <= i < |operators| ==> operators[i].equipmentId != equipmentId
    ensures op.Some? ==> exists i :: 0 <= i < |operators| && operators[i] == op.value
                                     && op.value.equipmentId == equipmentId
                                     && forall j :: 0 <= j < i ==> operators[j].equipmentId != equipmentId
  {
    Find(operators, (op: OperatorRow) => op.equipmentId == equipmentId)
  }

  /** "first last" of that operator's user, or undefined. */
  function OperatorName(operators: seq<OperatorRow>, equipmentId: string): (name: Option<string>)
    ensures name.Some? <==> OperatorOf(operators, equipmentId).Some? && OperatorOf(operators, equipmentId).value.user.Some?
    ensures name.Some? ==>
              var u := OperatorOf(operators, equipmentId).value.user.value;
              name.value == TemplateText(u.firstName) + " " + TemplateText(u.lastName)
  {
    var op := OperatorOf(operators, equipmentId);
    if op.Some? && op.value.user.Some? then
      Some(TemplateText(op.value.user.value.firstName) + " " + TemplateText(op.value.user.value.lastName))
    else None
  }

  /** Operator rows of other units never change a unit's operator, and a
      unit's later rows are shadowed by its first. */
  lemma OperatorNameOwnRows(operators: seq<OperatorRow>, equipmentId: string, more: seq<OperatorRow>)
    requires forall i :: 0 <= i < |more| ==> more[i].equipmentId != equipmentId
    ensures OperatorName(more + operators, equipmentId) == OperatorName(operators, equipmentId)
    ensures OperatorOf(operators, equipmentId).Some? ==>
              OperatorName(operators + more, equipmentId) == OperatorName(operators, equipmentId)
  {
    FindAfterMisses(more, operators, (op: OperatorRow) => op.equipmentId == equipmentId);
    if OperatorOf(operators, equipmentId).Some? {
      FindBeforeRest(operators, more, (op: OperatorRow) => op.equipmentId == equipmentId);
    }
  }

  // ------------------------------------------------------------ the record

  /** The record of one unit, field by field. */
  function EquipmentFor(item: EquipmentRow, operators: seq<OperatorRow>, hoursUsed: int): EquipmentData
  {
    EquipmentData(item.id, item.assetTag, item.name, TextOr(item.description, ""),
                  TextOr(item.category, "General"), item.status, TextOr(item.location, "Unknown"),
                  item.purchaseDate, AmountOr0(item.purchaseCost), AmountOr0(item.currentValue),
                  item.nextServiceDate, item.lastServiceDate, OperatorName(operators, item.id),
                  hoursUsed, IntervalFor(item.category))
  }

  /** The defaults: a missing description, category or location reads '',
      'General' or 'Unknown'; a missing cost or value reads 0; identity,
      status and dates pass through. */
  lemma EquipmentDefaults(item: EquipmentRow, operators: seq<OperatorRow>, hoursUsed: int)
    ensures var e := EquipmentFor(item, operators, hoursUsed);
            e.id == item.id && e.assetTag == item.assetTag && e.name == item.name
            && e.status == item.status && e.purchaseDate == item.purchaseDate
            && (item.description.None? ==> e.description == "")
            && (item.category.None? ==> e.category == "General")
            && (item.location.None? ==> e.location == "Unknown")
            && e.category != "" && e.location != ""
            && (item.purchaseCost.None? ==> e.purchaseCost == 0.0)
            && (item.currentValue.None? ==> e.currentValue == 0.0)
            && e.serviceInterval in {200, 250, 300, 500}
  {
  }

  /** The `equipment.map` callback. */
  method BuildEquipment(item: EquipmentRow, operators: seq<OperatorRow>, hoursUsed: int)
    returns (e: EquipmentData)
    ensures e == EquipmentFor(item, operators, hoursUsed)
  {
    var operatorName := OperatorName(operators, item.id);
    var serviceInterval := ServiceInterval(item.category);
    e := EquipmentData(item.id, item.assetTag, item.name, TextOr(item.description, ""),
                       TextOr(item.category, "General"), item.status, TextOr(item.location, "Unknown"),
                       item.purchaseDate, AmountOr0(item.purchaseCost), AmountOr0(item.currentValue),
                       item.nextServiceDate, item.lastServiceDate, operatorName,
                       hoursUsed, serviceInterval);
  }

  /** `equipment.map(...)`: one record per fetched row, in order, each with
      its row's id. */
  method BuildEquipmentList(items: seq<EquipmentRow>, operators: seq<OperatorRow>,
                            mockHours: EquipmentRow -> int) returns (list: seq<EquipmentData>)
    ensures |list| == |items|
    ensures forall i :: 0 <= i < |items| ==> list[i] == EquipmentFor(items[i], operators, mockHours(items[i]))
    ensures forall i :: 0 <= i < |items| ==> list[i].id == items[i].id
  {
    list := [];
    var i := 0;
    while i < |items|
      invariant 0 <= i <= |items| && |list| == i
      invariant forall k :: 0 <= k < i ==> list[k] == EquipmentFor(items[k], operators, mockHours(items[k]))
    {
      var e := BuildEquipment(items[i], operators, mockHours(items[i]));
      list := list + [e];
      i := i + 1;
    }
  }
}
