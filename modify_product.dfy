// The Modify Product screen (ModifyProductController.java). Its working list
// `aParts` is not a copy: at initialisation it is set to the selected
// product's own associated-parts list, so the add and remove buttons change
// that product at once, whether or not the form is saved afterwards.
module ModifyProduct {
  import opened Basics
  import opened PartModel
  import opened ProductModel
  import opened InventoryModel
  import opened Validation
  import Filtering
  import MainScreen
  import Seqs

  class ModifyProductController {
    const userSelectedProduct: Product
    const aParts: PartList

    /** The working list is the selected product's own list. */
    predicate Valid()
    {
      aParts == userSelectedProduct.associatedParts
    }

    /** `initialize`: takes the product chosen on the main screen and its
        live associated-parts list. */
    constructor (selectedProduct: Product)
      ensures userSelectedProduct == selectedProduct
      ensures aParts == selectedProduct.associatedParts && Valid()
    {
      userSelectedProduct := selectedProduct;
      aParts := selectedProduct.AllAssociatedParts();
    }

    /** `onClickAdd`: appends the selected part to the working list, which is
        the selected product's own list. */
    method OnClickAdd(selectedPart: Part?) returns (outcome: Outcome)
      requires Valid()
      modifies aParts
      ensures selectedPart == null ==> outcome == Failed(NoPartSelected) && aParts.items == old(aParts.items)
      ensures selectedPart != null ==>
        outcome == Done && userSelectedProduct.associatedParts.items == old(userSelectedProduct.associatedParts.items) + [selectedPart]
    {
      if selectedPart == null {
        return Failed(NoPartSelected);
      }
      aParts.Add(selectedPart);
      outcome := Done;
    }

    /** `onClickRemove`: after confirmation, removes one occurrence of the
        selected part from the working list, and so from the product. */
    method OnClickRemove(selectedPart: Part?, confirmed: bool) returns (outcome: Outcome)
      requires Valid()
      modifies aParts
      ensures selectedPart == null ==> outcome == Failed(NoPartSelected)
      ensures selectedPart != null ==> outcome == (if confirmed then Done else Declined)
      ensures outcome == Done ==>
        selectedPart != null &&
        userSelectedProduct.associatedParts.items == Seqs.RemoveFirst<Part>(old(userSelectedProduct.associatedParts.items), selectedPart)
      ensures outcome != Done ==> aParts.items == old(aParts.items)
    {
      if selectedPart == null {
        return Failed(NoPartSelected);
      }
      if !confirmed {
        return Declined;
      }
      var _ := aParts.Remove(selectedPart);
      outcome := Done;
    }

    /** `onClickSave`: name, then the min rule, then the stock rule. On
        success a new product with the selected product's id and a copy of
        the working list is appended, then the selected product is deleted:
        the edited product moves to the end and no id is allocated. */
    method OnClickSave(inv: Inventory, name: string, price: Price, stock: int32, min: int32, max: int32)
      returns (outcome: Outcome)
      modifies inv
      ensures name == [] ==> outcome == Failed(NameEmpty)
      ensures name != [] && RangeError(min, max, stock).Some? ==>
        outcome == Failed(RangeError(min, max, stock).value)
      ensures outcome == Done <==> name != [] && RangeError(min, max, stock) == None
      ensures outcome != Done ==> inv.allProducts == old(inv.allProducts)
      ensures outcome == Done ==>
        |inv.allProducts| > 0 &&
        var replacement := inv.allProducts[|inv.allProducts| - 1];
        fresh(replacement) && fresh(replacement.associatedParts) &&
        inv.allProducts == Seqs.RemoveFirst(old(inv.allProducts), userSelectedProduct) + [replacement] &&
        replacement.Record() == ItemRecord(userSelectedProduct.id, name, price, stock, min, max) &&
        replacement.associatedParts.items == aParts.items
      ensures outcome == Done && userSelectedProduct in old(inv.allProducts) ==>
        |inv.allProducts| == |old(inv.allProducts)|
      ensures aParts.items == old(aParts.items)
      ensures inv.productId == old(inv.productId)
      ensures inv.allParts == old(inv.allParts) && inv.partId == old(inv.partId)
    {
      var id := userSelectedProduct.id;
      if name == [] {
        return Failed(NameEmpty);
      }
      var rangeError := RangeError(min, max, stock);
      if rangeError.Some? {
        return Failed(rangeError.value);
      }
      var newProduct := new Product(id, name, price, stock, min, max);
      for i := 0 to |aParts.items|
        invariant fresh(newProduct) && fresh(newProduct.associatedParts)
        invariant newProduct.associatedParts.items == aParts.items[..i]
        invariant newProduct.Record() == ItemRecord(id, name, price, stock, min, max)
        modifies newProduct.associatedParts
      {
        newProduct.AddAssociatedPart(aParts.items[i]);
        assert aParts.items[..i + 1] == aParts.items[..i] + [aParts.items[i]];
      }
      assert aParts.items[..|aParts.items|] == aParts.items;
      ghost var before := inv.allProducts;
      inv.AddProduct(newProduct);
      var _ := inv.DeleteProduct(userSelectedProduct);
      Seqs.RemoveFirstAppend(before, newProduct, userSelectedProduct);
      if userSelectedProduct in before {
        Seqs.RemoveFirstPresent(before, userSelectedProduct);
      }
      outcome := Done;
    }

    /** `searchAction` as written: when nothing matches it raises this
        screen's alert 1, "Product Could Not Be Modified ... invalid values",
        instead of its "Part Not Found". */
    method SearchActionAsWritten(inv: Inventory, searchString: string) returns (partsFound: seq<Part>, alert: Option<Alert>)
      ensures partsFound == Filtering.SelectParts(inv.allParts, Filtering.IdOrNameContains(searchString))
      ensures alert == (if partsFound == [] then Some(FormInvalid) else None)
    {
      partsFound, alert := MainScreen.PartSearchAction(inv, searchString);
      if alert.Some? {
        alert := Some(FormInvalid);
      }
    }

    /** `searchAction` as intended: the fragment search over the store's
        parts, and "Part Not Found" iff nothing matches. */
    method SearchAction(inv: Inventory, searchString: string) returns (partsFound: seq<Part>, alert: Option<Alert>)
      ensures partsFound == Filtering.SelectParts(inv.allParts, Filtering.IdOrNameContains(searchString))
      ensures alert == (if partsFound == [] then Some(PartNotFound) else None)
    {
      partsFound, alert := MainScreen.PartSearchAction(inv, searchString);
    }
  }
}
