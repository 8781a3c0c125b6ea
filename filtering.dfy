// The two ways the application picks items out of a list, in original order:
// the store's exact-name lookup (`lookupPart(String)`,
// `lookupProduct(String)`) and the screens' search by fragment, where an item
// matches if the decimal form of its id or its name contains the query.
module Filtering {
  import opened Basics
  import opened Decimal
  import opened PartModel
  import opened ProductModel

  datatype Criterion =
    | NameEquals(name: string)     // `getName().equals(name)`
    | IdOrNameContains(query: string) // `String.valueOf(getId()).contains(q) || getName().contains(q)`

  predicate Accepts(c: Criterion, id: int32, name: string)
  {
    match c
    case NameEquals(n) => name == n
    case IdOrNameContains(q) => Contains(IntToString(id), q) || Contains(name, q)
  }

  predicate PartAccepted(c: Criterion, p: Part)
    reads p
  {
    Accepts(c, p.id, p.name)
  }

  predicate ProductAccepted(c: Criterion, p: Product)
    reads p
  {
    Accepts(c, p.id, p.name)
  }

  /** The accepted parts of `ps`, in their order in `ps`. */
  function SelectParts(ps: seq<Part>, c: Criterion): (selected: seq<Part>)
    reads set p | p in ps
  {
    if ps == [] then []
    else SelectParts(ps[..|ps| - 1], c) + (if PartAccepted(c, ps[|ps| - 1]) then [ps[|ps| - 1]] else [])
  }

  /** The accepted products of `ps`, in their order in `ps`. */
  function SelectProducts(ps: seq<Product>, c: Criterion): (selected: seq<Product>)
    reads set p | p in ps
  {
    if ps == [] then []
    else SelectProducts(ps[..|ps| - 1], c) + (if ProductAccepted(c, ps[|ps| - 1]) then [ps[|ps| - 1]] else [])
  }

  /** The search loop: walks the list and appends every accepted part to a
      fresh result list. */
  method FilterParts(parts: seq<Part>, c: Criterion) returns (found: seq<Part>)
    ensures found == SelectParts(parts, c)
  {
    found := [];
    for i := 0 to |parts|
      invariant found == SelectParts(parts[..i], c)
    {
      assert parts[..i + 1][..i] == parts[..i];
      if Accepts(c, parts[i].id, parts[i].name) {
        found := found + [parts[i]];
      }
    }
    assert parts[..|parts|] == parts;
  }

  method FilterProducts(products: seq<Product>, c: Criterion) returns (found: seq<Product>)
    ensures found == SelectProducts(products, c)
  {
    found := [];
    for i := 0 to |products|
      invariant found == SelectProducts(products[..i], c)
    {
      assert products[..i + 1][..i] == products[..i];
      if Accepts(c, products[i].id, products[i].name) {
        found := found + [products[i]];
      }
    }
    assert products[..|products|] == products;
  }

  // What a selection contains.

  /** A part is selected iff it is in the list and accepted. */
  lemma {:induction false} SelectPartsMembers(ps: seq<Part>, c: Criterion, p: Part)
    ensures p in SelectParts(ps, c) <==> p in ps && PartAccepted(c, p)
  {
    if ps != [] {
      var init := ps[..|ps| - 1];
      SelectPartsMembers(init, c, p);
      assert ps == init + [ps[|ps| - 1]];
    }
  }

  lemma {:induction false} SelectProductsMembers(ps: seq<Product>, c: Criterion, p: Product)
    ensures p in SelectProducts(ps, c) <==> p in ps && ProductAccepted(c, p)
  {
    if ps != [] {
      var init := ps[..|ps| - 1];
      SelectProductsMembers(init, c, p);
      assert ps == init + [ps[|ps| - 1]];
    }
  }

  /** Selection keeps order: selecting from two lists joined is joining the
      two selections. */
  lemma {:induction false} SelectPartsAppend(xs: seq<Part>, ys: seq<Part>, c: Criterion)
    ensures SelectParts(xs + ys, c) == SelectParts(xs, c) + SelectParts(ys, c)
    decreases |ys|
  {
    if ys == [] {
      assert xs + ys == xs;
    } else {
      var init := ys[..|ys| - 1];
      assert (xs + ys)[..|xs + ys| - 1] == xs + init;
      SelectPartsAppend(xs, init, c);
    }
  }

  lemma {:induction false} SelectProductsAppend(xs: seq<Product>, ys: seq<Product>, c: Criterion)
    ensures SelectProducts(xs + ys, c) == SelectProducts(xs, c) + SelectProducts(ys, c)
    decreases |ys|
  {
    if ys == [] {
      assert xs + ys == xs;
    } else {
      var init := ys[..|ys| - 1];
      assert (xs + ys)[..|xs + ys| - 1] == xs + init;
      SelectProductsAppend(xs, init, c);
    }
  }

  /** When every item is accepted the selection is the whole list, in order. */
  lemma {:induction false} SelectPartsAll(ps: seq<Part>, c: Criterion)
    requires forall i :: 0 <= i < |ps| ==> PartAccepted(c, ps[i])
    ensures SelectParts(ps, c) == ps
  {
    if ps != [] {
      var init, last := ps[..|ps| - 1], ps[|ps| - 1];
      assert forall i :: 0 <= i < |init| ==> PartAccepted(c, init[i]) by {
        forall i | 0 <= i < |init| ensures PartAccepted(c, init[i]) {
          assert init[i] == ps[i];
        }
      }
      SelectPartsAll(init, c);
      assert PartAccepted(c, last);
      assert init + [last] == ps;
    }
  }

  lemma {:induction false} SelectProductsAll(ps: seq<Product>, c: Criterion)
    requires forall i :: 0 <= i < |ps| ==> ProductAccepted(c, ps[i])
    ensures SelectProducts(ps, c) == ps
  {
    if ps != [] {
      var init, last := ps[..|ps| - 1], ps[|ps| - 1];
      assert forall i :: 0 <= i < |init| ==> ProductAccepted(c, init[i]) by {
        forall i | 0 <= i < |init| ensures ProductAccepted(c, init[i]) {
          assert init[i] == ps[i];
        }
      }
      SelectProductsAll(init, c);
      assert ProductAccepted(c, last);
      assert init + [last] == ps;
    }
  }

  /** An empty search query matches every part; the result is the list. */
  lemma EmptyQuerySelectsAllParts(ps: seq<Part>)
    ensures SelectParts(ps, IdOrNameContains("")) == ps
  {
    forall i | 0 <= i < |ps| ensures PartAccepted(IdOrNameContains(""), ps[i]) {
      ContainsEmpty(ps[i].name);
    }
    SelectPartsAll(ps, IdOrNameContains(""));
  }

  lemma EmptyQuerySelectsAllProducts(ps: seq<Product>)
    ensures SelectProducts(ps, IdOrNameContains("")) == ps
  {
    forall i | 0 <= i < |ps| ensures ProductAccepted(IdOrNameContains(""), ps[i]) {
      ContainsEmpty(ps[i].name);
    }
    SelectProductsAll(ps, IdOrNameContains(""));
  }

  /** The "not found" alert is raised exactly when nothing in the list
      matches. */
  lemma SelectPartsEmpty(ps: seq<Part>, c: Criterion)
    ensures SelectParts(ps, c) == [] <==> forall i :: 0 <= i < |ps| ==> !PartAccepted(c, ps[i])
  {
    if SelectParts(ps, c) == [] {
      forall i | 0 <= i < |ps| ensures !PartAccepted(c, ps[i]) {
        SelectPartsMembers(ps, c, ps[i]);
      }
    } else {
      var p := SelectParts(ps, c)[0];
      SelectPartsMembers(ps, c, p);
    }
  }

  lemma SelectProductsEmpty(ps: seq<Product>, c: Criterion)
    ensures SelectProducts(ps, c) == [] <==> forall i :: 0 <= i < |ps| ==> !ProductAccepted(c, ps[i])
  {
    if SelectProducts(ps, c) == [] {
      forall i | 0 <= i < |ps| ensures !ProductAccepted(c, ps[i]) {
        SelectProductsMembers(ps, c, ps[i]);
      }
    } else {
      var p := SelectProducts(ps, c)[0];
      SelectProductsMembers(ps, c, p);
    }
  }

  /** Exact-name lookup never returns a part with a different name; in
      particular it is case-sensitive ("Mouse" is not found by "mouse"). */
  lemma NameLookupIsExact(ps: seq<Part>, name: string, p: Part)
    requires p in SelectParts(ps, NameEquals(name))
    ensures p.name == name
  {
    SelectPartsMembers(ps, NameEquals(name), p);
  }

  lemma NameLookupCaseSensitive()
    ensures !Accepts(NameEquals("mouse"), 2, "Mouse")
  {
    assert "Mouse"[0] != "mouse"[0];
  }
}
