// The list work of the main screen's handlers (MainScreenController.java).
// The table's current selection is a parameter (null when nothing is
// selected), the answer to the confirmation dialog is `confirmed`, and the
// alert the screen would show is the returned outcome.
module MainScreen {
  import opened Basics
  import opened PartModel
  import opened ProductModel
  import opened InventoryModel
  import opened Validation
  import Filtering
  import Seqs

  /** `partSearchAction`: a fresh list of the parts whose id's decimal form
      or whose name contains the query, in store order; "Part Not Found"
      iff that list is empty. The store is only read. */
  method PartSearchAction(inv: Inventory, searchString: string) returns (partsFound: seq<Part>, alert: Option<Alert>)
    ensures partsFound == Filtering.SelectParts(inv.allParts, Filtering.IdOrNameContains(searchString))
    ensures forall p :: p in partsFound <==> p in inv.allParts && Filtering.PartAccepted(Filtering.IdOrNameContains(searchString), p)
    ensures alert == (if partsFound == [] then Some(PartNotFound) else None)
    ensures partsFound == [] <==>
      forall i :: 0 <= i < |inv.allParts| ==> !Filtering.PartAccepted(Filtering.IdOrNameContains(searchString), inv.allParts[i])
  {
    var c := Filtering.IdOrNameContains(searchString);
    partsFound := Filtering.FilterParts(inv.allParts, c);
    forall p ensures p in partsFound <==> p in inv.allParts && Filtering.PartAccepted(c, p) {
      Filtering.SelectPartsMembers(inv.allParts, c, p);
    }
    Filtering.SelectPartsEmpty(inv.allParts, c);
    alert := if |partsFound| == 0 then Some(PartNotFound) else None;
  }

  /** `productSearchAction`: the same id-or-name fragment rule over the
      products; "Product Not Found" iff nothing matches. */
  method ProductSearchAction(inv: Inventory, searchString: string) returns (productsFound: seq<Product>, alert: Option<Alert>)
    ensures productsFound == Filtering.SelectProducts(inv.allProducts, Filtering.IdOrNameContains(searchString))
    ensures forall p :: p in productsFound <==> p in inv.allProducts && Filtering.ProductAccepted(Filtering.IdOrNameContains(searchString), p)
    ensures alert == (if productsFound == [] then Some(ProductNotFound) else None)
    ensures productsFound == [] <==>
      forall i :: 0 <= i < |inv.allProducts| ==> !Filtering.ProductAccepted(Filtering.IdOrNameContains(searchString), inv.allProducts[i])
  {
    var c := Filtering.IdOrNameContains(searchString);
    productsFound := Filtering.FilterProducts(inv.allProducts, c);
    forall p ensures p in productsFound <==> p in inv.allProducts && Filtering.ProductAccepted(c, p) {
      Filtering.SelectProductsMembers(inv.allProducts, c, p);
    }
    Filtering.SelectProductsEmpty(inv.allProducts, c);
    alert := if |productsFound| == 0 then Some(ProductNotFound) else None;
  }

  /** `onClickProductDelete`: a confirmed delete removes the product iff it
      has no associated parts; otherwise the store is left as it was. */
  method OnClickProductDelete(inv: Inventory, selectedProduct: Product?, confirmed: bool) returns (outcome: Outcome)
    modifies inv
    ensures selectedProduct == null ==> outcome == Failed(NoProductSelected)
    ensures selectedProduct != null && !confirmed ==> outcome == Declined
    ensures selectedProduct != null && confirmed && |selectedProduct.associatedParts.items| >= 1 ==>
      outcome == Failed(PartsAssociated)
    ensures selectedProduct != null && confirmed && selectedProduct.associatedParts.items == [] ==>
      outcome == Done
    ensures outcome == Done ==>
      selectedProduct != null && inv.allProducts == Seqs.RemoveFirst<Product>(old(inv.allProducts), selectedProduct)
    ensures outcome != Done ==> inv.allProducts == old(inv.allProducts)
    ensures inv.allParts == old(inv.allParts)
    ensures inv.partId == old(inv.partId) && inv.productId == old(inv.productId)
  {
    if selectedProduct == null {
      return Failed(NoProductSelected);
    }
    if !confirmed {
      return Declined;
    }
    var assocParts := selectedProduct.AllAssociatedParts();
    if |assocParts.items| >= 1 {
      outcome := Failed(PartsAssociated);
    } else {
      var _ := inv.DeleteProduct(selectedProduct);
      outcome := Done;
    }
  }

  /** `onClickPartDelete`: a confirmed delete removes the part from the
      store without looking at any product, so a part that a product still
      lists is removed all the same (the product keeps its reference). */
  method OnClickPartDelete(inv: Inventory, selectedPart: Part?, confirmed: bool) returns (outcome: Outcome)
    modifies inv
    ensures selectedPart == null ==> outcome == Failed(NoPartSelected)
    ensures selectedPart != null ==> outcome == (if confirmed then Done else Declined)
    ensures outcome == Done ==>
      selectedPart != null && inv.allParts == Seqs.RemoveFirst<Part>(old(inv.allParts), selectedPart)
    ensures outcome != Done ==> inv.allParts == old(inv.allParts)
    ensures inv.allProducts == old(inv.allProducts)
    ensures inv.partId == old(inv.partId) && inv.productId == old(inv.productId)
  {
    if selectedPart == null {
      return Failed(NoPartSelected);
    }
    if !confirmed {
      return Declined;
    }
    var _ := inv.DeletePart(selectedPart);
    outcome := Done;
  }
}
