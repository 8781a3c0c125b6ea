// The product entity of Product.java and the observable list of part
// references it owns. The list is an object of its own, because
// `getAllAssociatedParts` hands out the product's list itself: whoever holds
// that reference changes the product when it changes the list.
module ProductModel {
  import opened Basics
  import opened PartModel
  import Seqs

  /** A mutable list of part references (`ObservableList<Part>`). */
  class PartList {
    var items: seq<Part>

    constructor ()
      ensures items == []
    {
      items := [];
    }

    /** `add`: appends at the end; the same part may appear several times. */
    method Add(p: Part)
      modifies this
      ensures items == old(items) + [p]
    {
      items := items + [p];
    }

    /** `remove(Object)`: takes out the first occurrence by reference and
        says whether there was one. */
    method Remove(p: Part) returns (removed: bool)
      modifies this
      ensures removed == (p in old(items))
      ensures items == Seqs.RemoveFirst(old(items), p)
    {
      var i := Seqs.IndexOf(items, p);
      if i < 0 {
        Seqs.RemoveFirstAbsent(items, p);
        removed := false;
      } else {
        Seqs.RemoveFirstAt(items, p, i);
        items := items[..i] + items[i + 1..];
        removed := true;
      }
    }
  }

  class Product {
    var id: int32
    var name: string
    var price: Price
    var stock: int32
    var min: int32
    var max: int32
    /** Never reassigned; its contents change. */
    const associatedParts: PartList

    function Record(): (r: ItemRecord)
      reads this
    {
      ItemRecord(id, name, price, stock, min, max)
    }

    /** `new Product(...)`: stores the six fields as given and starts with
        a new, empty associated-parts list. */
    constructor (id: int32, name: string, price: Price, stock: int32, min: int32, max: int32)
      ensures Record() == ItemRecord(id, name, price, stock, min, max)
      ensures fresh(associatedParts) && associatedParts.items == []
    {
      this.id := id;
      this.name := name;
      this.price := price;
      this.stock := stock;
      this.min := min;
      this.max := max;
      associatedParts := new PartList();
    }

    // Each setter assigns its one field, accepts any value (no
    // min <= stock <= max rule), and leaves the associated parts alone.

    method SetId(id: int32)
      modifies this
      ensures Record() == old(Record()).(id := id) && unchanged(associatedParts)
    {
      this.id := id;
    }

    method SetName(name: string)
      modifies this
      ensures Record() == old(Record()).(name := name) && unchanged(associatedParts)
    {
      this.name := name;
    }

    method SetPrice(price: Price)
      modifies this
      ensures Record() == old(Record()).(price := price) && unchanged(associatedParts)
    {
      this.price := price;
    }

    method SetStock(stock: int32)
      modifies this
      ensures Record() == old(Record()).(stock := stock) && unchanged(associatedParts)
    {
      this.stock := stock;
    }

    method SetMin(min: int32)
      modifies this
      ensures Record() == old(Record()).(min := min) && unchanged(associatedParts)
    {
      this.min := min;
    }

    method SetMax(max: int32)
      modifies this
      ensures Record() == old(Record()).(max := max) && unchanged(associatedParts)
    {
      this.max := max;
    }

    /** `addAssociatedPart`: appends; duplicates are allowed. */
    method AddAssociatedPart(part: Part)
      modifies associatedParts
      ensures associatedParts.items == old(associatedParts.items) + [part]
      ensures Record() == old(Record())
    {
      associatedParts.Add(part);
    }

    /** `deleteAssociatedPart`: true iff the part was associated; then one
        occurrence (the first) is gone, otherwise nothing changes. */
    method DeleteAssociatedPart(selectedAssociatedPart: Part) returns (deleted: bool)
      modifies associatedParts
      ensures deleted == (selectedAssociatedPart in old(associatedParts.items))
      ensures associatedParts.items == Seqs.RemoveFirst(old(associatedParts.items), selectedAssociatedPart)
      ensures deleted ==> |associatedParts.items| == |old(associatedParts.items)| - 1
      ensures !deleted ==> associatedParts.items == old(associatedParts.items)
      ensures Record() == old(Record())
    {
      if selectedAssociatedPart in associatedParts.items {
        Seqs.RemoveFirstPresent(associatedParts.items, selectedAssociatedPart);
        var _ := associatedParts.Remove(selectedAssociatedPart);
        deleted := true;
      } else {
        Seqs.RemoveFirstAbsent(associatedParts.items, selectedAssociatedPart);
        deleted := false;
      }
    }

    /** `getAllAssociatedParts`: the product's own list, not a copy. */
    function AllAssociatedParts(): (l: PartList)
      ensures l == associatedParts
    {
      associatedParts
    }
  }
}
