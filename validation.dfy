// The form rules every save handler applies (each controller carries its
// own identical copy of `minValidationCheck` and the inventory check), and
// the outcomes a handler can end in. An outcome stands for the alert the
// screen shows; the alert's text is not modelled.
module Validation {
  import opened Basics
  import opened PartModel

  datatype Alert =
    | NameEmpty          // "Invalid Name" / "Name Invalid" / "Name Not Valid"
    | MinInvalid         // "Min Value Invalid"
    | InventoryInvalid   // "Inventory Value Invalid"
    | MachineIdInvalid   // "Machine ID Invalid!"
    | NoPartSelected     // "No Part Selected"
    | NoProductSelected  // "No Product Selected"
    | PartsAssociated    // "Parts Associated With Product"
    | PartNotFound       // "Part Not Found"
    | ProductNotFound    // "Product Not Found"
    | FormInvalid        // "Product Not Added!" / "Product Could Not Be Modified" (blank or invalid fields)

  datatype Outcome =
    | Done               // the change was made
    | Declined           // the confirmation dialog was not accepted
    | Failed(alert: Alert)

  /** `minValidationCheck`: min is rejected iff min <= 0 or min >= max. */
  function MinValidationCheck(min: int32, max: int32): (valid: bool)
    ensures valid <==> 0 < min < max
  {
    !(min <= 0 || min >= max)
  }

  /** `inventoryValidationCheck` / `inventoryValid`: stock is rejected iff
      it is below min or above max. */
  function InventoryValidationCheck(min: int32, max: int32, stock: int32): (valid: bool)
    ensures valid <==> min <= stock <= max
  {
    !(stock < min || stock > max)
  }

  /** `minValidationCheck(min, max) && inventoryValidationCheck(...)`: the
      stock rule is only consulted when the min rule passed, so at most one
      range alert is raised; None when both pass. */
  function RangeError(min: int32, max: int32, stock: int32): (e: Option<Alert>)
    ensures e == None <==> 0 < min <= stock <= max && min < max
    ensures e == Some(MinInvalid) <==> !(0 < min < max)
    ensures e == Some(InventoryInvalid) <==> 0 < min < max && !(min <= stock <= max)
  {
    if !MinValidationCheck(min, max) then Some(MinInvalid)
    else if !InventoryValidationCheck(min, max, stock) then Some(InventoryInvalid)
    else None
  }

  /** The part screens' radio buttons (one toggle group: exactly one is
      selected). */
  datatype PartOption = InHouseOption | OutsourcedOption

  /** The variant a part screen builds: in-house with the parsed machine id,
      or outsourced with the text of the shared machine-id/company field. */
  function KindFor(option: PartOption, idOrName: string, machineId: Option<int32>): (k: PartKind)
    requires option == InHouseOption ==> machineId.Some?
  {
    match option
    case InHouseOption => PartKind.InHouse(machineId.value)
    case OutsourcedOption => PartKind.Outsourced(idOrName)
  }
}
