// The start-up data of Main.java (five parts, one product made of all
// five), and client code that drives the handlers on it and checks, from
// their contracts alone, what the application does.
module Seed {
  import opened Basics
  import opened Decimal
  import opened PartModel
  import opened ProductModel
  import opened InventoryModel
  import opened Validation
  import Filtering
  import MainScreen
  import AddPart
  import ModifyProduct

  /** One `partId = Inventory.getNewPartId()` of `main` and the
      `new InHouse(partId, ...)` after it. */
  method NewInHousePart(inv: Inventory, name: string, price: Price, stock: int32, min: int32, max: int32, machineId: int32)
    returns (p: Part)
    requires inv.partId < MaxInt
    modifies inv
    ensures fresh(p) && inv.partId as int == old(inv.partId) as int + 1
    ensures p.Record() == ItemRecord(inv.partId, name, price, stock, min, max) && p.kind == PartKind.InHouse(machineId)
    ensures inv.allParts == old(inv.allParts)
    ensures inv.allProducts == old(inv.allProducts) && inv.productId == old(inv.productId)
  {
    var partId := inv.GetNewPartId();
    p := new Part.InHouse(partId, name, price, stock, min, max, machineId);
  }

  /** One `partId = Inventory.getNewPartId()` of `main` and the
      `new Outsourced(partId, ...)` after it. */
  method NewOutsourcedPart(inv: Inventory, name: string, price: Price, stock: int32, min: int32, max: int32, companyName: string)
    returns (p: Part)
    requires inv.partId < MaxInt
    modifies inv
    ensures fresh(p) && inv.partId as int == old(inv.partId) as int + 1
    ensures p.Record() == ItemRecord(inv.partId, name, price, stock, min, max) && p.kind == PartKind.Outsourced(companyName)
    ensures inv.allParts == old(inv.allParts)
    ensures inv.allProducts == old(inv.allProducts) && inv.productId == old(inv.productId)
  {
    var partId := inv.GetNewPartId();
    p := new Part.Outsourced(partId, name, price, stock, min, max, companyName);
  }

  /** The five `getNewPartId` calls of `main` and the part built after
      each: keyboard, mouse, power cord (in-house, machine 101), then
      monitor and PC (outsourced from DELL). */
  method BuildSeedParts(inv: Inventory) returns (keyboard: Part, mouse: Part, powerCord: Part, monitor: Part, pc: Part)
    requires inv.partId == 0
    modifies inv
    ensures fresh(keyboard) && fresh(mouse) && fresh(powerCord) && fresh(monitor) && fresh(pc)
    ensures keyboard.Record() == ItemRecord(1, "Keyboard", 0x403e000000000000, 10, 1, 25)
    ensures keyboard.kind == PartKind.InHouse(101)
    ensures mouse.id == 2 && |mouse.name| <= 10 && powerCord.id == 3 && |powerCord.name| <= 10
    ensures monitor.Record() == ItemRecord(4, "Monitor", 0x406f3fae147ae148, 40, 10, 100)
    ensures monitor.kind == PartKind.Outsourced("DELL")
    ensures pc.id == 5 && |pc.name| <= 10
    ensures inv.allParts == old(inv.allParts) && inv.allProducts == old(inv.allProducts)
    ensures inv.partId == 5 && inv.productId == old(inv.productId)
  {
    keyboard := NewInHousePart(inv, "Keyboard", 0x403e000000000000, 10, 1, 25, 101);
    mouse := NewInHousePart(inv, "Mouse", 0x4039000000000000, 20, 1, 50, 101);
    powerCord := NewInHousePart(inv, "Power Cord", 0x4017f5c28f5c28f6, 35, 1, 65, 101);
    monitor := NewOutsourcedPart(inv, "Monitor", 0x406f3fae147ae148, 40, 10, 100, "DELL");
    pc := NewOutsourcedPart(inv, "PC", 0x408c1feb851eb852, 60, 30, 150, "DELL");
  }

  /** The five parts of `main`, built with ids 1..5 and then added in the
      same order. */
  method SeedParts() returns (inv: Inventory, parts: seq<Part>)
    ensures fresh(inv) && |parts| == 5 && inv.allParts == parts
    ensures forall i :: 0 <= i < 5 ==> fresh(parts[i]) && parts[i].id as int == i + 1 && |parts[i].name| <= 10
    ensures parts[0].Record() == ItemRecord(1, "Keyboard", 0x403e000000000000, 10, 1, 25)
    ensures parts[0].kind == PartKind.InHouse(101)
    ensures parts[3].Record() == ItemRecord(4, "Monitor", 0x406f3fae147ae148, 40, 10, 100)
    ensures parts[3].kind == PartKind.Outsourced("DELL")
    ensures inv.allProducts == [] && inv.partId == 5 && inv.productId == 0
  {
    inv := new Inventory();
    var keyboard, mouse, powerCord, monitor, pc := BuildSeedParts(inv);
    inv.AddPart(keyboard);
    inv.AddPart(mouse);
    inv.AddPart(powerCord);
    inv.AddPart(monitor);
    inv.AddPart(pc);
    parts := [keyboard, mouse, powerCord, monitor, pc];
  }

  /** `main`: the parts, then one product id and the desktop, which lists
      keyboard, mouse, monitor, power cord and PC. */
  method SeedInventory() returns (inv: Inventory)
    ensures fresh(inv) && |inv.allParts| == 5 && |inv.allProducts| == 1
    ensures forall i :: 0 <= i < 5 ==> fresh(inv.allParts[i]) && inv.allParts[i].id as int == i + 1 && |inv.allParts[i].name| <= 10
    ensures inv.allParts[0].Record() == ItemRecord(1, "Keyboard", 0x403e000000000000, 10, 1, 25)
    ensures inv.partId == 5 && inv.productId == 1
    ensures fresh(inv.allProducts[0]) && fresh(inv.allProducts[0].associatedParts)
    ensures inv.allProducts[0].Record() == ItemRecord(1, "DELL Desktop Computer", 0x4092ebe147ae147b, 10, 5, 50)
    ensures inv.allProducts[0].associatedParts.items ==
      [inv.allParts[0], inv.allParts[1], inv.allParts[3], inv.allParts[2], inv.allParts[4]]
  {
    var parts;
    inv, parts := SeedParts();
    var productId := inv.GetNewProductId();
    var desktop := new Product(productId, "DELL Desktop Computer", 0x4092ebe147ae147b, 10, 5, 50);
    desktop.AddAssociatedPart(parts[0]);
    desktop.AddAssociatedPart(parts[1]);
    desktop.AddAssociatedPart(parts[3]);
    desktop.AddAssociatedPart(parts[2]);
    desktop.AddAssociatedPart(parts[4]);
    inv.AddProduct(desktop);
  }

  /** What the handlers do to the start-up data. */
  method Walkthrough()
  {
    var inv := SeedInventory();
    var keyboard, desktop := inv.allParts[0], inv.allProducts[0];

    // Lookup by id finds the part with that id.
    var found := inv.LookupPartById(1);
    assert found == keyboard;

    // The desktop has parts, so a confirmed delete is refused.
    var outcome := MainScreen.OnClickProductDelete(inv, desktop, true);
    assert outcome == Failed(PartsAssociated) && inv.allProducts == [desktop];

    // A new part: the min rule is checked before the stock rule.
    outcome := AddPart.OnClickSave(inv, "Cable", 0, 99, 0, 10, InHouseOption, "7", Some(7));
    assert outcome == Failed(MinInvalid) && |inv.allParts| == 5 && inv.partId == 5;
    // A non-numeric machine id adds nothing and allocates no id.
    outcome := AddPart.OnClickSave(inv, "Cable", 0, 5, 1, 10, InHouseOption, "x7", None);
    assert outcome == Failed(MachineIdInvalid) && |inv.allParts| == 5 && inv.partId == 5;
    // Valid input: the sixth part gets id 6.
    outcome := AddPart.OnClickSave(inv, "Cable", 0, 5, 1, 10, OutsourcedOption, "ACME", None);
    assert outcome == Done && inv.partId == 6 && |inv.allParts| == 6 && inv.allParts[5].id == 6;

    // Deleting the keyboard is allowed although the desktop lists it; the
    // desktop keeps its reference.
    outcome := MainScreen.OnClickPartDelete(inv, keyboard, true);
    assert outcome == Done && keyboard !in inv.allParts[1..] && |inv.allParts| == 5;
    assert desktop.associatedParts.items[0] == keyboard;

    // Editing the desktop's parts changes the desktop before any save.
    var screen := new ModifyProduct.ModifyProductController(desktop);
    var cable := inv.allParts[4];
    outcome := screen.OnClickAdd(cable);
    assert |desktop.associatedParts.items| == 6 && desktop.associatedParts.items[5] == cable;
  }

  /** A one-digit id and a name shorter than the query cannot contain it. */
  lemma LongQueryMisses(p: Part, query: string)
    requires 0 <= p.id <= 9 && |p.name| < |query| && 2 <= |query|
    ensures !Filtering.PartAccepted(Filtering.IdOrNameContains(query), p)
  {
    assert IntToString(p.id) == [DigitChar(p.id as int)];
    if Contains(IntToString(p.id), query) { ContainsShorter(IntToString(p.id), query); }
    if Contains(p.name, query) { ContainsShorter(p.name, query); }
  }

  /** A query longer than every id and name finds nothing: the main screen
      says "Part Not Found", the product screens' search as written raises
      their form error instead. */
  method SearchNotFound()
  {
    var inv := SeedInventory();
    var query := "Graphics Card Deluxe";
    forall i | 0 <= i < |inv.allParts|
      ensures !Filtering.PartAccepted(Filtering.IdOrNameContains(query), inv.allParts[i])
    {
      LongQueryMisses(inv.allParts[i], query);
    }
    var found, alert := MainScreen.PartSearchAction(inv, query);
    assert found == [] && alert == Some(PartNotFound);
    var screen := new ModifyProduct.ModifyProductController(inv.allProducts[0]);
    found, alert := screen.SearchActionAsWritten(inv, query);
    assert alert == Some(FormInvalid);
  }
}
