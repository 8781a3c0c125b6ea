// The save handler of the Modify Part screen (ModifyPartController.java).
// `userSelectedPart` is the part chosen on the main screen; the inputs are
// as for the Add Part screen.
module ModifyPart {
  import opened Basics
  import opened PartModel
  import opened InventoryModel
  import opened Validation
  import Seqs

  /** `onClickSave`: the min and stock rules (no name check), then (in-house
      only) the machine id. On success a new part object with the selected
      part's id is appended and then the selected part is deleted, so the
      edited part moves to the end of the list; no id is allocated. */
  method OnClickSave(inv: Inventory, userSelectedPart: Part, name: string, price: Price,
                     stock: int32, min: int32, max: int32,
                     option: PartOption, idOrName: string, machineId: Option<int32>)
    returns (outcome: Outcome)
    modifies inv
    ensures RangeError(min, max, stock).Some? ==> outcome == Failed(RangeError(min, max, stock).value)
    ensures RangeError(min, max, stock) == None && option == InHouseOption && machineId == None ==>
      outcome == Failed(MachineIdInvalid)
    ensures outcome == Done <==>
      RangeError(min, max, stock) == None && (option == InHouseOption ==> machineId.Some?)
    ensures outcome != Done ==> inv.allParts == old(inv.allParts)
    ensures outcome == Done ==>
      |inv.allParts| > 0 &&
      var replacement := inv.allParts[|inv.allParts| - 1];
      fresh(replacement) &&
      inv.allParts == Seqs.RemoveFirst(old(inv.allParts), userSelectedPart) + [replacement] &&
      replacement.Record() == ItemRecord(userSelectedPart.id, name, price, stock, min, max) &&
      replacement.kind == KindFor(option, idOrName, machineId)
    ensures outcome == Done && userSelectedPart in old(inv.allParts) ==>
      |inv.allParts| == |old(inv.allParts)| &&
      multiset(inv.allParts) == multiset(old(inv.allParts)) - multiset{userSelectedPart} + multiset{inv.allParts[|inv.allParts| - 1]}
    ensures inv.partId == old(inv.partId)
    ensures inv.allProducts == old(inv.allProducts) && inv.productId == old(inv.productId)
  {
    var id := userSelectedPart.id;
    var rangeError := RangeError(min, max, stock);
    if rangeError.Some? {
      return Failed(rangeError.value);
    }
    var newPart: Part;
    if option == InHouseOption {
      if machineId.None? {
        return Failed(MachineIdInvalid);
      }
      newPart := new Part.InHouse(id, name, price, stock, min, max, machineId.value);
    } else {
      newPart := new Part.Outsourced(id, name, price, stock, min, max, idOrName);
    }
    ghost var before := inv.allParts;
    inv.AddPart(newPart);
    var _ := inv.DeletePart(userSelectedPart);
    Seqs.RemoveFirstAppend(before, newPart, userSelectedPart);
    if userSelectedPart in before {
      Seqs.RemoveFirstPresent(before, userSelectedPart);
    }
    outcome := Done;
  }
}
