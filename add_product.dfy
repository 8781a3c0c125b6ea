// The Add Product screen (AddProductController.java): a pending list of
// associated parts that the add and remove buttons edit, the save handler
// that turns the form into a new product, and the part search.
module AddProduct {
  import opened Basics
  import opened PartModel
  import opened ProductModel
  import opened InventoryModel
  import opened Validation
  import Filtering
  import MainScreen
  import Seqs

  class AddProductController {
    /** `aParts`: the screen's own, initially empty, list. */
    const aParts: PartList

    constructor ()
      ensures fresh(aParts) && aParts.items == []
    {
      aParts := new PartList();
    }

    /** `onClickAdd`: appends the selected part; duplicates are allowed. */
    method OnClickAdd(selectedPart: Part?) returns (outcome: Outcome)
      modifies aParts
      ensures selectedPart == null ==> outcome == Failed(NoPartSelected) && aParts.items == old(aParts.items)
      ensures selectedPart != null ==> outcome == Done && aParts.items == old(aParts.items) + [selectedPart]
    {
      if selectedPart == null {
        return Failed(NoPartSelected);
      }
      aParts.Add(selectedPart);
      outcome := Done;
    }

    /** `onClickRemove`: after confirmation, removes one occurrence of the
        selected part from the pending list. */
    method OnClickRemove(selectedPart: Part?, confirmed: bool) returns (outcome: Outcome)
      modifies aParts
      ensures selectedPart == null ==> outcome == Failed(NoPartSelected)
      ensures selectedPart != null ==> outcome == (if confirmed then Done else Declined)
      ensures outcome == Done ==>
        selectedPart != null && aParts.items == Seqs.RemoveFirst<Part>(old(aParts.items), selectedPart)
      ensures outcome != Done ==> aParts.items == old(aParts.items)
    {
      if selectedPart == null {
        return Failed(NoPartSelected);
      }
      if !confirmed {
        return Declined;
      }
      var _ := aParts.Remove(selectedPart);
      outcome := Done;
    }

    /** `onClickSave`: name, then the min rule, then the stock rule. On
        success a product with the pending parts, in order, and a freshly
        allocated product id is appended; otherwise nothing changes and no
        id is allocated. */
    method OnClickSave(inv: Inventory, name: string, price: Price, stock: int32, min: int32, max: int32)
      returns (outcome: Outcome)
      modifies inv
      ensures name == [] ==> outcome == Failed(NameEmpty)
      ensures name != [] && RangeError(min, max, stock).Some? ==>
        outcome == Failed(RangeError(min, max, stock).value)
      ensures outcome == Done <==> name != [] && RangeError(min, max, stock) == None
      ensures outcome != Done ==> inv.allProducts == old(inv.allProducts) && inv.productId == old(inv.productId)
      ensures outcome == Done ==>
        inv.productId == Increment(old(inv.productId)) &&
        |inv.allProducts| == |old(inv.allProducts)| + 1 &&
        inv.allProducts[..|old(inv.allProducts)|] == old(inv.allProducts) &&
        var added := inv.allProducts[|old(inv.allProducts)|];
        fresh(added) && fresh(added.associatedParts) &&
        added.Record() == ItemRecord(inv.productId, name, price, stock, min, max) &&
        added.associatedParts.items == aParts.items
      ensures aParts.items == old(aParts.items)
      ensures inv.allParts == old(inv.allParts) && inv.partId == old(inv.partId)
    {
      var id: int32 := 0;
      if name == [] {
        return Failed(NameEmpty);
      }
      var rangeError := RangeError(min, max, stock);
      if rangeError.Some? {
        return Failed(rangeError.value);
      }
      var newProduct := new Product(id, name, price, stock, min, max);
      for i := 0 to |aParts.items|
        invariant fresh(newProduct) && fresh(newProduct.associatedParts)
        invariant newProduct.associatedParts.items == aParts.items[..i]
        invariant newProduct.Record() == ItemRecord(id, name, price, stock, min, max)
        modifies newProduct.associatedParts
      {
        newProduct.AddAssociatedPart(aParts.items[i]);
        assert aParts.items[..i + 1] == aParts.items[..i] + [aParts.items[i]];
      }
      assert aParts.items[..|aParts.items|] == aParts.items;
      var newId := inv.GetNewProductId();
      newProduct.SetId(newId);
      inv.AddProduct(newProduct);
      outcome := Done;
    }

    /** `searchAction` as written: the shared fragment search, but when
        nothing matches it raises this screen's alert 1, the "Product Not
        Added! ... blank fields" error, instead of its "Part Not Found". */
    method SearchActionAsWritten(inv: Inventory, searchString: string) returns (partsFound: seq<Part>, alert: Option<Alert>)
      ensures partsFound == Filtering.SelectParts(inv.allParts, Filtering.IdOrNameContains(searchString))
      ensures alert == (if partsFound == [] then Some(FormInvalid) else None)
    {
      partsFound, alert := MainScreen.PartSearchAction(inv, searchString);
      if alert.Some? {
        alert := Some(FormInvalid);
      }
    }

    /** `searchAction` as intended: the main screen's id-or-name fragment
        rule over the store's parts, and "Part Not Found" iff nothing
        matches. */
    method SearchAction(inv: Inventory, searchString: string) returns (partsFound: seq<Part>, alert: Option<Alert>)
      ensures partsFound == Filtering.SelectParts(inv.allParts, Filtering.IdOrNameContains(searchString))
      ensures alert == (if partsFound == [] then Some(PartNotFound) else None)
    {
      partsFound, alert := MainScreen.PartSearchAction(inv, searchString);
    }
  }
}
