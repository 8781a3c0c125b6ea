// The part entity: the mutable base record of Part.java and its two
// subclasses InHouse.java (machine id) and Outsourced.java (company name).
// A part is an object: the store and the products hold references to it and
// compare them by identity. The subclass becomes a tag, `kind`, that says
// which variant the object was built as and carries the variant's own field.
module PartModel {
  import opened Basics

  /** The six fields a part and a product both have. */
  datatype ItemRecord = ItemRecord(id: int32, name: string, price: Price, stock: int32, min: int32, max: int32)

  /** Which class the part was constructed as. `Plain` is a bare `Part`. */
  datatype PartKind = Plain | InHouse(machineId: int32) | Outsourced(companyName: string)

  class Part {
    var id: int32
    var name: string
    var price: Price
    var stock: int32
    var min: int32
    var max: int32
    var kind: PartKind

    /** The six base fields, as the getters return them. */
    function Record(): (r: ItemRecord)
      reads this
    {
      ItemRecord(id, name, price, stock, min, max)
    }

    /** `new Part(...)`: stores the six fields as given; no range check. */
    constructor (id: int32, name: string, price: Price, stock: int32, min: int32, max: int32)
      ensures Record() == ItemRecord(id, name, price, stock, min, max)
      ensures kind == Plain
    {
      this.id := id;
      this.name := name;
      this.price := price;
      this.stock := stock;
      this.min := min;
      this.max := max;
      this.kind := Plain;
    }

    /** `new InHouse(...)`: the six base fields and the machine id. */
    constructor InHouse(id: int32, name: string, price: Price, stock: int32, min: int32, max: int32, machineId: int32)
      ensures Record() == ItemRecord(id, name, price, stock, min, max)
      ensures kind == PartKind.InHouse(machineId)
    {
      this.id := id;
      this.name := name;
      this.price := price;
      this.stock := stock;
      this.min := min;
      this.max := max;
      this.kind := PartKind.InHouse(machineId);
    }

    /** `new Outsourced(...)`: the six base fields and the company name. */
    constructor Outsourced(id: int32, name: string, price: Price, stock: int32, min: int32, max: int32, companyName: string)
      ensures Record() == ItemRecord(id, name, price, stock, min, max)
      ensures kind == PartKind.Outsourced(companyName)
    {
      this.id := id;
      this.name := name;
      this.price := price;
      this.stock := stock;
      this.min := min;
      this.max := max;
      this.kind := PartKind.Outsourced(companyName);
    }

    /** `InHouse.getMachineId`: only an in-house part has one. */
    function MachineId(): (m: int32)
      reads this
      requires kind.InHouse?
      ensures kind == PartKind.InHouse(m)
    {
      kind.machineId
    }

    /** `Outsourced.getCompanyName`: only an outsourced part has one. */
    function CompanyName(): (c: string)
      reads this
      requires kind.Outsourced?
      ensures kind == PartKind.Outsourced(c)
    {
      kind.companyName
    }

    // Each setter assigns its one field, accepts any value, and leaves the
    // other base fields and the variant's own field alone.

    method SetId(id: int32)
      modifies this
      ensures Record() == old(Record()).(id := id) && kind == old(kind)
    {
      this.id := id;
    }

    method SetName(name: string)
      modifies this
      ensures Record() == old(Record()).(name := name) && kind == old(kind)
    {
      this.name := name;
    }

    method SetPrice(price: Price)
      modifies this
      ensures Record() == old(Record()).(price := price) && kind == old(kind)
    {
      this.price := price;
    }

    method SetStock(stock: int32)
      modifies this
      ensures Record() == old(Record()).(stock := stock) && kind == old(kind)
    {
      this.stock := stock;
    }

    method SetMin(min: int32)
      modifies this
      ensures Record() == old(Record()).(min := min) && kind == old(kind)
    {
      this.min := min;
    }

    method SetMax(max: int32)
      modifies this
      ensures Record() == old(Record()).(max := max) && kind == old(kind)
    {
      this.max := max;
    }

    /** `InHouse.setMachineId`: callable on an in-house part only. */
    method SetMachineId(machineId: int32)
      requires kind.InHouse?
      modifies this
      ensures Record() == old(Record()) && kind == PartKind.InHouse(machineId)
    {
      kind := PartKind.InHouse(machineId);
    }

    /** `Outsourced.setCompanyName`: callable on an outsourced part only. */
    method SetCompanyName(companyName: string)
      requires kind.Outsourced?
      modifies this
      ensures Record() == old(Record()) && kind == PartKind.Outsourced(companyName)
    {
      kind := PartKind.Outsourced(companyName);
    }
  }
}
