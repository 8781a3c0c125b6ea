# Inventory management system — a Dafny model

A model of a desktop inventory application (Java/JavaFX, written for a
software course). The application keeps one store of parts and products.
A part is plain, in-house (it carries a machine id) or outsourced (it
carries a company name). A product has its own list of associated parts.
Five screens edit the store: the main screen (search, delete), Add Part,
Modify Part, Add Product and Modify Product.

The model follows the Java code object by object:

- `Part` and `Product` are classes whose setters update fields in place.
- A product's associated-parts list is a `PartList` object. `getAllAssociatedParts` hands out that object itself, and the model keeps this aliasing.
- The static store becomes an `Inventory` object. It holds the two lists and the two id counters.
- Each screen's handler is a method of that screen's module (or of its controller class) that takes the store as a parameter, with the text fields already parsed.
- The two product screens keep their working list `aParts` in a controller class.

Modules, one per source concern:

| module | file | models |
|---|---|---|
| `Basics` | basics.dfy | Java `int` (32-bit, wrapping `++`), `double` prices as opaque 64-bit patterns, `Option` |
| `Decimal` | decimal.dfy | `String.valueOf(int)` and `String.contains` as used by search |
| `Seqs` | seqs.dfy | `ObservableList.remove(Object)`: removal of the first occurrence, by reference |
| `PartModel` | part.dfy | Part.java, InHouse.java, Outsourced.java |
| `ProductModel` | product.dfy | Product.java and its associated-parts list |
| `Filtering` | filtering.dfy | the shared loop "keep the items whose id or name matches" |
| `InventoryModel` | inventory.dfy | Inventory.java |
| `Validation` | validation.dfy | the min/stock rules every save handler applies, alerts, outcomes |
| `MainScreen` | main_screen.dfy | MainScreenController.java: search and delete |
| `AddPart`, `ModifyPart` | add_part.dfy, modify_part.dfy | the part screens' save handlers |
| `AddProduct`, `ModifyProduct` | add_product.dfy, modify_product.dfy | the product screens |
| `Seed` | seed.dfy | the start-up data of Main.java, and client code driving the handlers on it |

How the model represents the source:

- **A handler's dialogs and fields.** The confirmation dialog's answer is a `confirmed` parameter. The table selection is a nullable parameter. The in-house machine id is an `Option<int32>`, which is `None` when that field does not parse as an `int`.
- **A handler's result.** Every handler returns an `Outcome`:
  - `Done` when the change is made;
  - `Declined` when the dialog is cancelled;
  - `Failed(alert)` naming the alert the screen shows.
- **Search** matches a fragment against the decimal form of an id, so "1" selects ids 1, 10 and also 21. `Decimal.FragmentOneExamples` shows this.

Behaviour of the code that the model keeps and states:

- **Add Part and Modify Part.** Both check the rules in a fixed order: name (Add Part only), min, stock, then machine id. Modify Part has no empty-name check.
- **Failed saves.** A failed save changes nothing and allocates no id.
- **Modify saves.** The two modify screens do not update in place. They append a new object with the old id and then delete the selected one, so the edited item moves to the end of its list.
- **Deleting a part.** The part leaves the store but stays in every product that lists it.
- **Deleting a product.** This is refused while its associated-parts list is non-empty.
- **The Modify Product working list.** The list the screen edits is the selected product's own list. Add and remove change the product at once, even if the form is never saved.
- **Id counters.** Allocation 2^31 wraps a counter from the largest `int` to the smallest, as Java's `++` does.

## Model

| member | source | states |
|---|---|---|
| Basics.Increment | src/model/Inventory.java:61 | `++counter` on a Java `int`: one more, except that the largest value wraps to the smallest |
| Basics.AllocationsCount | src/model/Inventory.java:61 | without wrap-around, the k-th of n successive allocations from a counter at `start` is `start + k + 1` |
| Basics.AllocationsFromZero | src/model/Inventory.java:16 | from the initial counter 0, n allocations hand out exactly 1..n, with no id handed out twice |
| Decimal.NatToDecimal | src/controller/MainScreenController.java:302 | `String.valueOf` of a non-negative id: a non-empty string of digits, with a leading zero only for 0 |
| Decimal.DecimalRoundTrip | src/controller/MainScreenController.java:302 | reading back the decimal form of n gives n |
| Decimal.IntToStringRoundTrip | src/controller/MainScreenController.java:302 | the decimal form of any `int`, negative ones included, parses back to the same value |
| Decimal.IntToStringInjective | src/controller/MainScreenController.java:302 | distinct ids have distinct decimal forms |
| Decimal.ContainsEmpty | src/controller/MainScreenController.java:302-303 | every id and name contains the empty fragment, so an empty search matches everything |
| Decimal.ContainsSelf | src/controller/MainScreenController.java:302-303 | searching for a whole name matches that name |
| Decimal.ContainsShorter | src/controller/MainScreenController.java:302-303 | a fragment longer than the string never matches |
| Decimal.FragmentOneExamples | src/controller/MainScreenController.java:302 | fragment "1" matches ids 1, 10 and 21 but not 5 |
| Seqs.IndexOf | src/model/Inventory.java:149-150 | the position of the first occurrence of x by reference, or -1 exactly when x is absent |
| Seqs.RemoveFirstAt | src/model/Inventory.java:150 | removal cuts out exactly the first occurrence, keeping the rest in order |
| Seqs.RemoveFirstAbsent | src/model/Inventory.java:149-154 | removing an absent element leaves the list as it was |
| Seqs.RemoveFirstPresent | src/model/Inventory.java:149-151 | removing a present element shortens the list by one and takes one copy out of its multiset |
| Seqs.RemoveFirstAppend | src/controller/ModifyPartController.java:123-137 | append-then-delete of a different object equals delete-then-append |
| Seqs.RemoveFirstSubset | src/model/Inventory.java:150 | removal adds no element |
| PartModel.Part.constructor | src/model/Part.java:27-34 | the new part holds exactly the six given fields (plain kind) |
| PartModel.Part.InHouse | src/model/InHouse.java:24-27 | an in-house part with the six fields and the machine id |
| PartModel.Part.Outsourced | src/model/Outsourced.java:25-28 | an outsourced part with the six fields and the company name |
| PartModel.Part.MachineId | src/model/InHouse.java:33 | the machine id an in-house part carries |
| PartModel.Part.CompanyName | src/model/Outsourced.java:34 | the company name an outsourced part carries |
| PartModel.Part.SetId | src/model/Part.java:46 | the id becomes the given value; every other field is unchanged |
| PartModel.Part.SetName | src/model/Part.java:58 | the name becomes the given value; every other field is unchanged |
| PartModel.Part.SetPrice | src/model/Part.java:70 | the price becomes the given value; every other field is unchanged |
| PartModel.Part.SetStock | src/model/Part.java:82 | the stock becomes the given value; every other field is unchanged |
| PartModel.Part.SetMin | src/model/Part.java:94 | min becomes the given value; every other field is unchanged |
| PartModel.Part.SetMax | src/model/Part.java:106 | max becomes the given value; every other field is unchanged |
| PartModel.Part.SetMachineId | src/model/InHouse.java:39 | an in-house part's machine id becomes the given value; the six common fields are unchanged |
| PartModel.Part.SetCompanyName | src/model/Outsourced.java:40 | an outsourced part's company name becomes the given value; the six common fields are unchanged |
| ProductModel.PartList.constructor | src/model/Product.java:41 | a fresh, empty list |
| ProductModel.PartList.Add | src/model/Product.java:138 | the part is appended to the end |
| ProductModel.PartList.Remove | src/model/Product.java:146-151 | reports whether the part was present, and removes its first occurrence (by reference) |
| ProductModel.Product.constructor | src/model/Product.java:53-60 | the six given fields, and a fresh, empty associated-parts list |
| ProductModel.Product.SetId | src/model/Product.java:72 | the id becomes the given value; the other fields and the parts list are unchanged |
| ProductModel.Product.SetName | src/model/Product.java:84 | the name becomes the given value; the other fields and the parts list are unchanged |
| ProductModel.Product.SetPrice | src/model/Product.java:96 | the price becomes the given value; the other fields and the parts list are unchanged |
| ProductModel.Product.SetStock | src/model/Product.java:108 | the stock becomes the given value; the other fields and the parts list are unchanged |
| ProductModel.Product.SetMin | src/model/Product.java:120 | min becomes the given value; the other fields and the parts list are unchanged |
| ProductModel.Product.SetMax | src/model/Product.java:132 | max becomes the given value; the other fields and the parts list are unchanged |
| ProductModel.Product.AddAssociatedPart | src/model/Product.java:138 | the part is appended to the product's list, duplicates allowed |
| ProductModel.Product.DeleteAssociatedPart | src/model/Product.java:145-152 | true iff the part was listed; then its first occurrence is removed and the list is one shorter; otherwise the list is unchanged |
| ProductModel.Product.AllAssociatedParts | src/model/Product.java:158 | the product's own list object, not a copy |
| Filtering.FilterParts | src/controller/MainScreenController.java:301-306 | the loop keeps exactly the parts the criterion accepts, in store order |
| Filtering.FilterProducts | src/controller/MainScreenController.java:323-328 | the loop keeps exactly the products the criterion accepts, in store order |
| Filtering.SelectPartsMembers | src/controller/MainScreenController.java:301-306 | a part is in the result iff it is in the list and accepted |
| Filtering.SelectProductsMembers | src/controller/MainScreenController.java:323-328 | a product is in the result iff it is in the list and accepted |
| Filtering.SelectPartsAppend | src/controller/MainScreenController.java:301-306 | filtering a concatenation is filtering each list and concatenating |
| Filtering.SelectProductsAppend | src/controller/MainScreenController.java:323-328 | filtering a concatenation is filtering each list and concatenating |
| Filtering.SelectPartsAll | src/controller/MainScreenController.java:301-306 | when every part is accepted, the result is the whole list |
| Filtering.SelectProductsAll | src/controller/MainScreenController.java:323-328 | when every product is accepted, the result is the whole list |
| Filtering.EmptyQuerySelectsAllParts | src/controller/MainScreenController.java:299-306 | an empty search string shows every part |
| Filtering.EmptyQuerySelectsAllProducts | src/controller/MainScreenController.java:321-328 | an empty search string shows every product |
| Filtering.SelectPartsEmpty | src/controller/MainScreenController.java:308 | nothing is found iff no part is accepted |
| Filtering.SelectProductsEmpty | src/controller/MainScreenController.java:330 | nothing is found iff no product is accepted |
| Filtering.NameLookupIsExact | src/model/Inventory.java:92 | every part a name lookup returns has exactly that name |
| Filtering.NameLookupCaseSensitive | src/model/Inventory.java:92 | name lookup is case-sensitive: "mouse" does not find "Mouse" |
| InventoryModel.Inventory.constructor | src/model/Inventory.java:16-31 | both lists empty and both counters at 0 |
| InventoryModel.Inventory.AddPart | src/model/Inventory.java:49 | the part is appended; products and counters are unchanged |
| InventoryModel.Inventory.AddProduct | src/model/Inventory.java:55 | the product is appended; parts and counters are unchanged |
| InventoryModel.Inventory.GetNewPartId | src/model/Inventory.java:61 | the part counter is incremented (wrapping) and its new value returned; nothing else changes |
| InventoryModel.Inventory.GetNewProductId | src/model/Inventory.java:67 | the product counter is incremented (wrapping) and its new value returned; nothing else changes |
| InventoryModel.AllocatePartIds | src/model/Inventory.java:61 | n successive `getNewPartId` calls return exactly `Allocations` of the starting counter, which is left at the last id; nothing else changes |
| InventoryModel.AllocateProductIds | src/model/Inventory.java:67 | n successive `getNewProductId` calls return exactly `Allocations` of the starting counter, which is left at the last id; nothing else changes |
| InventoryModel.FreshPartIds | src/model/Inventory.java:16 | on a new store the first n part ids handed out are 1, 2, ..., n, with no repeats |
| InventoryModel.FreshProductIds | src/model/Inventory.java:21 | on a new store the first n product ids handed out are 1, 2, ..., n, with no repeats |
| InventoryModel.Inventory.LookupPartById | src/model/Inventory.java:74-82 | null iff no part has the id; otherwise the LAST part in the store with that id |
| InventoryModel.Inventory.LookupProductById | src/model/Inventory.java:104-112 | null iff no product has the id; otherwise the last product with that id |
| InventoryModel.Inventory.LookupPartByName | src/model/Inventory.java:89-97 | the parts whose name equals the argument exactly, in store order |
| InventoryModel.Inventory.LookupProductByName | src/model/Inventory.java:119-127 | the products whose name equals the argument exactly, in store order |
| InventoryModel.Inventory.UpdatePart | src/model/Inventory.java:134 | the part at the index is replaced; nothing else changes |
| InventoryModel.Inventory.UpdateProduct | src/model/Inventory.java:141 | the product at the index is replaced; nothing else changes |
| InventoryModel.Inventory.DeletePart | src/model/Inventory.java:148-156 | true iff the part was in the store; then its first occurrence is removed; otherwise the store is unchanged |
| InventoryModel.Inventory.DeleteProduct | src/model/Inventory.java:163-171 | true iff the product was in the store; then its first occurrence is removed; otherwise the store is unchanged |
| Validation.MinValidationCheck | src/controller/AddPartController.java:252-256 | min is valid iff 0 < min < max |
| Validation.InventoryValidationCheck | src/controller/AddPartController.java:235-239 | stock is valid iff min <= stock <= max |
| Validation.RangeError | src/controller/AddPartController.java:114 | the min alert iff the min rule fails; the stock alert iff min passes and stock fails; none iff both pass |
| MainScreen.PartSearchAction | src/controller/MainScreenController.java:296-311 | the parts whose id or name contains the fragment, in store order; "Part Not Found" iff that list is empty, i.e. iff no part matches |
| MainScreen.ProductSearchAction | src/controller/MainScreenController.java:319-333 | the products whose id or name contains the fragment; "Product Not Found" iff none matches |
| MainScreen.OnClickProductDelete | src/controller/MainScreenController.java:174-196 | no selection: alert; declined: nothing; product with parts: refused; otherwise deleted; parts and counters never change |
| MainScreen.OnClickPartDelete | src/controller/MainScreenController.java:235-250 | no selection: alert; declined: nothing; otherwise the part is deleted, products untouched |
| AddPart.OnClickSave | src/controller/AddPartController.java:99-145 | the alerts in order name, min, stock, machine id; on success exactly one fresh part with the next id and the chosen kind is appended; on failure nothing changes and no id is spent |
| ModifyPart.OnClickSave | src/controller/ModifyPartController.java:106-144 | min, stock, machine id (no name check); on success the store is the old one minus the selected part plus a fresh part with its id at the end, with the same length and multiset up to that swap |
| AddProduct.AddProductController.constructor | src/controller/AddProductController.java:136 | the screen starts with a fresh, empty working list |
| AddProduct.AddProductController.OnClickAdd | src/controller/AddProductController.java:191-200 | no selection: alert and no change; otherwise the part is appended |
| AddProduct.AddProductController.OnClickRemove | src/controller/AddProductController.java:208-225 | no selection: alert; declined: no change; confirmed: first occurrence removed |
| AddProduct.AddProductController.OnClickSave | src/controller/AddProductController.java:233-259 | name, min, stock alerts in order; on success one fresh product with the next product id and a fresh copy of the working list is appended; on failure nothing changes |
| AddProduct.AddProductController.SearchActionAsWritten | src/controller/AddProductController.java:283-300 | the fragment search over the store's parts, raising the form-invalid alert when nothing matches |
| AddProduct.AddProductController.SearchAction | src/controller/AddProductController.java:154-158 | the same search, raising "Part Not Found" iff nothing matches |
| ModifyProduct.ModifyProductController.constructor | src/controller/ModifyProductController.java:355 | the working list is the selected product's own list |
| ModifyProduct.ModifyProductController.OnClickAdd | src/controller/ModifyProductController.java:148-157 | no selection: alert; otherwise the part is appended to the selected product's own list |
| ModifyProduct.ModifyProductController.OnClickRemove | src/controller/ModifyProductController.java:166-183 | confirmed removal takes the first occurrence out of the selected product's own list |
| ModifyProduct.ModifyProductController.OnClickSave | src/controller/ModifyProductController.java:191-215 | name, min, stock alerts; on success the old product is replaced by a fresh product with its id at the end of the list, holding a copy of the working list; no id is allocated |
| ModifyProduct.ModifyProductController.SearchActionAsWritten | src/controller/ModifyProductController.java:239-253 | the fragment search, raising the form-invalid alert when nothing matches |
| ModifyProduct.ModifyProductController.SearchAction | src/controller/ModifyProductController.java:315-319 | the same search, raising "Part Not Found" iff nothing matches |
| Seed.BuildSeedParts | src/main/Main.java:44-53 | the five part ids allocated in turn are 1..5: the in-house keyboard gets 1 and the outsourced monitor 4, with the fields given in `main` |
| Seed.SeedParts | src/main/Main.java:44-58 | five parts with ids 1..5 in allocation order, the in-house keyboard first, the outsourced monitor fourth |
| Seed.SeedInventory | src/main/Main.java:43-68 | the start-up store: part ids 1..5, one product with id 1 listing keyboard, mouse, monitor, power cord and PC |

## Left out

- JavaFX: screens, table views, cell factories, navigation between screens (`mainScreen`, `onClickPartAdd`, `onClickProductAdd`, `onClickInHouse`, `onClickOutsourced`, `onClickExit`), cancel dialogs (`onClickCancel`), and the alerts' texts. A handler's alert is reported as an `Outcome`.
- `onClickPartModify` and `onClickProductModify` on the main screen: they only store the selection in a static field for the next screen (`getSelectedPart`, `getSelectedProduct`), or show the no-selection alert. The next screen's selection is a constructor or method argument instead.
- Modify Part's `initialize`, which fills the form and the radio buttons from the selected part: display only.
- Parsing of the text fields. The handlers take the parsed `int`s. The "blank fields / invalid values" alert 1 that a parse failure raises in every save handler is not modelled, apart from the in-house machine id, which is an `Option`.
- Prices: `double` is carried as its 64-bit pattern (`bv64`). The code never computes with prices, so no floating-point arithmetic is modelled.
- `getAllParts`, `getAllProducts` and the plain getters are direct field reads of the model's objects.
- The store is one `Inventory` object passed to every handler, rather than static state.
- Observable-list change notifications: only the contents of the lists are modelled.
- InventoryModel.Inventory.UpdatePart, InventoryModel.Inventory.UpdateProduct: require the index to be in range. `ObservableList.set` throws out of range, and that exception path is not modelled.
- AddPart.OnClickSave, AddProduct.AddProductController.OnClickSave: the contracts give each new id as `Increment` of the counter, wrap-around included, but prove ids distinct only for the first 2^31 − 1 allocations (`Basics.AllocationsFromZero`, `InventoryModel.FreshPartIds`). From 0, allocation 2^31 wraps to the smallest `int`, the negative ids after it and the 0 at allocation 2^32 are still new, and the first repeated id (1) comes at allocation 2^32 + 1. That longer range is not proved.

## Findings

| source | as written | input that shows it | evidently intended | confidence | as-written member | corrected member |
|---|---|---|---|---|---|---|
| src/controller/AddProductController.java:297-298 | a part search that finds nothing shows alert 1, "Product Not Added! This form contains blank fields/missing values."; alert 2, "Part Not Found", is defined at lines 154-158 and never used | in the start-up data, search for "Graphics Card Deluxe" (longer than every id and name) | show "Part Not Found", as the main screen does | high (not executed) | AddProduct.AddProductController.SearchActionAsWritten | AddProduct.AddProductController.SearchAction |
| src/controller/ModifyProductController.java:250-251 | a part search that finds nothing shows alert 1, "Product Could Not Be Modified"; alert 2, "Part Not Found", at lines 315-319 is never used | the same query on the Modify Product screen (`Seed.SearchNotFound`) | show "Part Not Found" | high (not executed) | ModifyProduct.ModifyProductController.SearchActionAsWritten | ModifyProduct.ModifyProductController.SearchAction |
