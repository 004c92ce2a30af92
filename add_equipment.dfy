/** The new-equipment dialog, src/components/AddEquipmentDialog.tsx: the
    normalisation of the form into the inserted row and the dialog state
    after a submission. `parseFloat` is a function parameter (`None` for
    NaN); the insert's outcome is a parameter. */
module AddEquipment {
  import opened Common

  datatype EquipmentForm = EquipmentForm(assetTag: string, name: string, description: string,
                                         category: string, location: string, purchaseDate: string,
                                         purchaseCost: string, currentValue: string,
                                         nextServiceDate: string)

  const EmptyEquipmentForm := EquipmentForm("", "", "", "", "", "", "", "", "")

  datatype EquipmentRow = EquipmentRow(assetTag: string, name: string, description: string,
                                       category: string, location: string, purchaseDate: string,
                                       purchaseCost: Option<real>, currentValue: Option<real>,
                                       nextServiceDate: Option<string>, status: string)

  /** `parseFloat(text) || null`: NaN and zero both become null. */
  function AmountOrNull(parsed: Option<real>): (r: Option<real>)
    ensures r.None? <==> parsed.None? || parsed.value == 0.0
    ensures r.Some? ==> r == parsed && r.value != 0.0
  {
    if parsed.None? || parsed.value == 0.0 then None else parsed
  }

  /** The inserted row: text fields as typed, amounts that parse to a
      non-zero number, the next-service date only when given, and the
      status `available`. */
  function BuildEquipmentRow(form: EquipmentForm, parseFloat: string -> Option<real>): (row: EquipmentRow)
    ensures row.assetTag == form.assetTag && row.name == form.name
            && row.description == form.description && row.category == form.category
            && row.location == form.location && row.purchaseDate == form.purchaseDate
    ensures row.purchaseCost.None? <==> parseFloat(form.purchaseCost).None? || parseFloat(form.purchaseCost) == Some(0.0)
    ensures row.purchaseCost.Some? ==> row.purchaseCost == parseFloat(form.purchaseCost)
    ensures row.currentValue.None? <==> parseFloat(form.currentValue).None? || parseFloat(form.currentValue) == Some(0.0)
    ensures row.currentValue.Some? ==> row.currentValue == parseFloat(form.currentValue)
    ensures row.nextServiceDate.None? <==> form.nextServiceDate == ""
    ensures row.nextServiceDate.Some? ==> row.nextServiceDate.value == form.nextServiceDate
    ensures row.status == "available"
  {
    EquipmentRow(form.assetTag, form.name, form.description, form.category, form.location,
                 form.purchaseDate,
                 AmountOrNull(parseFloat(form.purchaseCost)), AmountOrNull(parseFloat(form.currentValue)),
                 if form.nextServiceDate == "" then None else Some(form.nextServiceDate),
                 "available")
  }

  datatype Toast = Toast(title: string, description: string, destructive: bool)

  const AddedToast := Toast("Equipment Added", "New equipment has been successfully added.", false)
  const FailedToast := Toast("Error", "Failed to add equipment. Please try again.", true)

  class AddEquipmentDialog {
    var form: EquipmentForm
    var open: bool

    constructor()
      ensures form == EmptyEquipmentForm && !open
    {
      form := EmptyEquipmentForm;
      open := false;
    }

    /** Submitting always attempts the insert; only success resets the form
        and closes the dialog, failure leaves both as they were. */
    method OnSubmit(insertOk: bool, parseFloat: string -> Option<real>)
      returns (inserted: EquipmentRow, toast: Toast)
      modifies this
      ensures inserted == BuildEquipmentRow(old(form), parseFloat)
      ensures insertOk ==> toast == AddedToast && form == EmptyEquipmentForm && !open
      ensures !insertOk ==> toast == FailedToast && form == old(form) && open == old(open)
    {
      inserted := BuildEquipmentRow(form, parseFloat);
      if insertOk {
        toast := AddedToast;
        form := EmptyEquipmentForm;
        open := false;
      } else {
        toast := FailedToast;
      }
    }
  }
}
