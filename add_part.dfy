// The save handler of the Add Part screen (AddPartController.java). The text
// fields arrive already parsed; `machineId` is the result of parsing the
// shared machine-id/company field as an `int` (None when it is not a
// number), `idOrName` that field's text.
module AddPart {
  import opened Basics
  import opened PartModel
  import opened InventoryModel
  import opened Validation

  /** `onClickSave`: name first, then the min rule, then the stock rule, then
      (in-house only) the machine id. Only when all pass is a part built with
      the placeholder id 0, given a freshly allocated part id, and appended. */
  method OnClickSave(inv: Inventory, name: string, price: Price, stock: int32, min: int32, max: int32,
                     option: PartOption, idOrName: string, machineId: Option<int32>)
    returns (outcome: Outcome)
    modifies inv
    ensures name == [] ==> outcome == Failed(NameEmpty)
    ensures name != [] && RangeError(min, max, stock).Some? ==>
      outcome == Failed(RangeError(min, max, stock).value)
    ensures name != [] && RangeError(min, max, stock) == None && option == InHouseOption && machineId == None ==>
      outcome == Failed(MachineIdInvalid)
    ensures outcome == Done <==>
      name != [] && RangeError(min, max, stock) == None && (option == InHouseOption ==> machineId.Some?)
    ensures outcome != Done ==> inv.allParts == old(inv.allParts) && inv.partId == old(inv.partId)
    ensures outcome == Done ==>
      inv.partId == Increment(old(inv.partId)) &&
      |inv.allParts| == |old(inv.allParts)| + 1 &&
      inv.allParts[..|old(inv.allParts)|] == old(inv.allParts) &&
      var added := inv.allParts[|old(inv.allParts)|];
      fresh(added) &&
      added.Record() == ItemRecord(inv.partId, name, price, stock, min, max) &&
      added.kind == KindFor(option, idOrName, machineId)
    ensures inv.allProducts == old(inv.allProducts) && inv.productId == old(inv.productId)
  {
    var id: int32 := 0;
    if name == [] {
      return Failed(NameEmpty);
    }
    var rangeError := RangeError(min, max, stock);
    if rangeError.Some? {
      return Failed(rangeError.value);
    }
    var newPart: Part;
    if option == InHouseOption {
      if machineId.None? {
        return Failed(MachineIdInvalid);
      }
      newPart := new Part.InHouse(id, name, price, stock, min, max, machineId.value);
    } else {
      newPart := new Part.Outsourced(id, name, price, stock, min, max, idOrName);
    }
    var newId := inv.GetNewPartId();
    newPart.SetId(newId);
    inv.AddPart(newPart);
    outcome := Done;
  }
}
