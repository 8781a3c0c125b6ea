// The store of Inventory.java: the ordered lists of all parts and all
// products and the two id counters. In the application these are static
// (process-wide); here they are the fields of one explicit Inventory object
// that every handler receives.
module InventoryModel {
  import opened Basics
  import opened PartModel
  import opened ProductModel
  import Seqs
  import Filtering

  class Inventory {
    var allParts: seq<Part>
    var allProducts: seq<Product>
    /** The last part id handed out (0 before the first). */
    var partId: int32
    /** The last product id handed out (0 before the first). */
    var productId: int32

    /** The store at start-up: both lists empty, both counters at 0. */
    constructor ()
      ensures allParts == [] && allProducts == []
      ensures partId == 0 && productId == 0
    {
      allParts, allProducts := [], [];
      partId, productId := 0, 0;
    }

    /** `addPart`: appends; no check against the ids already present. */
    method AddPart(newPart: Part)
      modifies this
      ensures allParts == old(allParts) + [newPart]
      ensures allProducts == old(allProducts)
      ensures partId == old(partId) && productId == old(productId)
    {
      allParts := allParts + [newPart];
    }

    /** `addProduct`: appends; no check against the ids already present. */
    method AddProduct(newProduct: Product)
      modifies this
      ensures allProducts == old(allProducts) + [newProduct]
      ensures allParts == old(allParts)
      ensures partId == old(partId) && productId == old(productId)
    {
      allProducts := allProducts + [newProduct];
    }

    /** `getNewPartId`: `++partId`; the product counter is not touched. */
    method GetNewPartId() returns (id: int32)
      modifies this
      ensures id == Increment(old(partId)) && partId == id
      ensures productId == old(productId)
      ensures allParts == old(allParts) && allProducts == old(allProducts)
    {
      partId := Increment(partId);
      id := partId;
    }

    /** `getNewProductId`: `++productId`; the part counter is not touched. */
    method GetNewProductId() returns (id: int32)
      modifies this
      ensures id == Increment(old(productId)) && productId == id
      ensures partId == old(partId)
      ensures allParts == old(allParts) && allProducts == old(allProducts)
    {
      productId := Increment(productId);
      id := productId;
    }

    /** `lookupPart(int)`: null iff no part has the id; otherwise the LAST
        part in list order that has it (the loop keeps overwriting). */
    method LookupPartById(partId: int32) returns (partFound: Part?)
      ensures partFound == null <==> forall i :: 0 <= i < |allParts| ==> allParts[i].id != partId
      ensures partFound != null ==>
        exists i :: 0 <= i < |allParts| && allParts[i] == partFound && partFound.id == partId &&
          forall j :: i < j < |allParts| ==> allParts[j].id != partId
    {
      partFound := null;
      ghost var at := -1;
      for k := 0 to |allParts|
        invariant -1 <= at < k
        invariant at == -1 <==> partFound == null
        invariant at == -1 ==> forall i :: 0 <= i < k ==> allParts[i].id != partId
        invariant at >= 0 ==> allParts[at] == partFound && partFound.id == partId
        invariant forall j :: at < j < k ==> allParts[j].id != partId
      {
        if allParts[k].id == partId {
          partFound := allParts[k];
          at := k;
        }
      }
    }

    /** `lookupProduct(int)`: null iff no product has the id; otherwise the
        LAST product in list order that has it. */
    method LookupProductById(productId: int32) returns (productFound: Product?)
      ensures productFound == null <==> forall i :: 0 <= i < |allProducts| ==> allProducts[i].id != productId
      ensures productFound != null ==>
        exists i :: 0 <= i < |allProducts| && allProducts[i] == productFound && productFound.id == productId &&
          forall j :: i < j < |allProducts| ==> allProducts[j].id != productId
    {
      productFound := null;
      ghost var at := -1;
      for k := 0 to |allProducts|
        invariant -1 <= at < k
        invariant at == -1 <==> productFound == null
        invariant at == -1 ==> forall i :: 0 <= i < k ==> allProducts[i].id != productId
        invariant at >= 0 ==> allProducts[at] == productFound && productFound.id == productId
        invariant forall j :: at < j < k ==> allProducts[j].id != productId
      {
        if allProducts[k].id == productId {
          productFound := allProducts[k];
          at := k;
        }
      }
    }

    /** `lookupPart(String)`: a fresh list of exactly the parts whose name
        equals the argument (case-sensitive), in list order. */
    method LookupPartByName(partName: string) returns (partsFound: seq<Part>)
      ensures partsFound == Filtering.SelectParts(allParts, Filtering.NameEquals(partName))
      ensures forall p :: p in partsFound <==> p in allParts && p.name == partName
    {
      partsFound := Filtering.FilterParts(allParts, Filtering.NameEquals(partName));
      forall p ensures p in partsFound <==> p in allParts && p.name == partName {
        Filtering.SelectPartsMembers(allParts, Filtering.NameEquals(partName), p);
      }
    }

    /** `lookupProduct(String)`: a fresh list of exactly the products whose
        name equals the argument (case-sensitive), in list order. */
    method LookupProductByName(productName: string) returns (productsFound: seq<Product>)
      ensures productsFound == Filtering.SelectProducts(allProducts, Filtering.NameEquals(productName))
      ensures forall p :: p in productsFound <==> p in allProducts && p.name == productName
    {
      productsFound := Filtering.FilterProducts(allProducts, Filtering.NameEquals(productName));
      forall p ensures p in productsFound <==> p in allProducts && p.name == productName {
        Filtering.SelectProductsMembers(allProducts, Filtering.NameEquals(productName), p);
      }
    }

    /** `updatePart`: `List.set`, whose index must be in range. */
    method UpdatePart(index: int32, selectedPart: Part)
      requires 0 <= index as int < |allParts|
      modifies this
      ensures allParts == old(allParts)[index as int := selectedPart]
      ensures allProducts == old(allProducts)
      ensures partId == old(partId) && productId == old(productId)
    {
      allParts := allParts[index as int := selectedPart];
    }

    /** `updateProduct`: `List.set`, whose index must be in range. */
    method UpdateProduct(index: int32, selectedProduct: Product)
      requires 0 <= index as int < |allProducts|
      modifies this
      ensures allProducts == old(allProducts)[index as int := selectedProduct]
      ensures allParts == old(allParts)
      ensures partId == old(partId) && productId == old(productId)
    {
      allProducts := allProducts[index as int := selectedProduct];
    }

    /** `deletePart`: true iff the part (by reference) is in the list; then
        its first occurrence is removed. No product is looked at. */
    method DeletePart(selectedPart: Part) returns (deleted: bool)
      modifies this
      ensures deleted == (selectedPart in old(allParts))
      ensures allParts == Seqs.RemoveFirst(old(allParts), selectedPart)
      ensures deleted ==> |allParts| == |old(allParts)| - 1
      ensures !deleted ==> allParts == old(allParts)
      ensures allProducts == old(allProducts)
      ensures partId == old(partId) && productId == old(productId)
    {
      var i := Seqs.IndexOf(allParts, selectedPart);
      if i >= 0 {
        Seqs.RemoveFirstAt(allParts, selectedPart, i);
        Seqs.RemoveFirstPresent(allParts, selectedPart);
        allParts := allParts[..i] + allParts[i + 1..];
        deleted := true;
      } else {
        Seqs.RemoveFirstAbsent(allParts, selectedPart);
        deleted := false;
      }
    }

    /** `deleteProduct`: true iff the product (by reference) is in the list;
        then its first occurrence is removed. No part is looked at. */
    method DeleteProduct(selectedProduct: Product) returns (deleted: bool)
      modifies this
      ensures deleted == (selectedProduct in old(allProducts))
      ensures allProducts == Seqs.RemoveFirst(old(allProducts), selectedProduct)
      ensures deleted ==> |allProducts| == |old(allProducts)| - 1
      ensures !deleted ==> allProducts == old(allProducts)
      ensures allParts == old(allParts)
      ensures partId == old(partId) && productId == old(productId)
    {
      var i := Seqs.IndexOf(allProducts, selectedProduct);
      if i >= 0 {
        Seqs.RemoveFirstAt(allProducts, selectedProduct, i);
        Seqs.RemoveFirstPresent(allProducts, selectedProduct);
        allProducts := allProducts[..i] + allProducts[i + 1..];
        deleted := true;
      } else {
        Seqs.RemoveFirstAbsent(allProducts, selectedProduct);
        deleted := false;
      }
    }
  }

  /** `n` successive `getNewPartId` calls hand out `Allocations` of the
      counter they start from, and leave the counter at the last id. */
  method AllocatePartIds(inv: Inventory, n: nat) returns (ids: seq<int32>)
    modifies inv
    ensures ids == Allocations(old(inv.partId), n) && |ids| == n
    ensures n > 0 ==> inv.partId == ids[n - 1]
    ensures n == 0 ==> inv.partId == old(inv.partId)
    ensures inv.productId == old(inv.productId)
    ensures inv.allParts == old(inv.allParts) && inv.allProducts == old(inv.allProducts)
  {
    ids := [];
    for k := 0 to n
      invariant |ids| == k
      invariant ids + Allocations(inv.partId, n - k) == Allocations(old(inv.partId), n)
      invariant k > 0 ==> inv.partId == ids[k - 1]
      invariant k == 0 ==> inv.partId == old(inv.partId)
      invariant inv.productId == old(inv.productId)
      invariant inv.allParts == old(inv.allParts) && inv.allProducts == old(inv.allProducts)
    {
      ghost var before := inv.partId;
      var id := inv.GetNewPartId();
      assert Allocations(before, n - k) == [id] + Allocations(id, n - k - 1);
      assert ids + Allocations(before, n - k) == (ids + [id]) + Allocations(id, n - k - 1);
      ids := ids + [id];
    }
  }

  /** `n` successive `getNewProductId` calls hand out `Allocations` of the
      counter they start from, and leave the counter at the last id. */
  method AllocateProductIds(inv: Inventory, n: nat) returns (ids: seq<int32>)
    modifies inv
    ensures ids == Allocations(old(inv.productId), n) && |ids| == n
    ensures n > 0 ==> inv.productId == ids[n - 1]
    ensures n == 0 ==> inv.productId == old(inv.productId)
    ensures inv.partId == old(inv.partId)
    ensures inv.allParts == old(inv.allParts) && inv.allProducts == old(inv.allProducts)
  {
    ids := [];
    for k := 0 to n
      invariant |ids| == k
      invariant ids + Allocations(inv.productId, n - k) == Allocations(old(inv.productId), n)
      invariant k > 0 ==> inv.productId == ids[k - 1]
      invariant k == 0 ==> inv.productId == old(inv.productId)
      invariant inv.partId == old(inv.partId)
      invariant inv.allParts == old(inv.allParts) && inv.allProducts == old(inv.allProducts)
    {
      ghost var before := inv.productId;
      var id := inv.GetNewProductId();
      assert Allocations(before, n - k) == [id] + Allocations(id, n - k - 1);
      assert ids + Allocations(before, n - k) == (ids + [id]) + Allocations(id, n - k - 1);
      ids := ids + [id];
    }
  }

  /** On a new store, the first `n` part ids are 1, 2, ..., n, none
      handed out twice. */
  method FreshPartIds(n: nat) returns (inv: Inventory, ids: seq<int32>)
    requires n <= MaxInt as int
    ensures fresh(inv) && inv.allParts == [] && inv.allProducts == []
    ensures |ids| == n && forall k :: 0 <= k < n ==> ids[k] as int == k + 1
    ensures forall j, k :: 0 <= j < k < n ==> ids[j] != ids[k]
    ensures inv.partId as int == n && inv.productId == 0
  {
    inv := new Inventory();
    ids := AllocatePartIds(inv, n);
    AllocationsFromZero(n);
  }

  /** On a new store, the first `n` product ids are 1, 2, ..., n, none
      handed out twice. */
  method FreshProductIds(n: nat) returns (inv: Inventory, ids: seq<int32>)
    requires n <= MaxInt as int
    ensures fresh(inv) && inv.allParts == [] && inv.allProducts == []
    ensures |ids| == n && forall k :: 0 <= k < n ==> ids[k] as int == k + 1
    ensures forall j, k :: 0 <= j < k < n ==> ids[j] != ids[k]
    ensures inv.productId as int == n && inv.partId == 0
  {
    inv := new Inventory();
    ids := AllocateProductIds(inv, n);
    AllocationsFromZero(n);
  }
}
