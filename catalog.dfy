/**
 * The product records of the catalogue file and lookup by identifier, shared
 * by the list page (`getProductById`) and the detail page (`products.find`).
 */
module Catalog {
  import opened Wrappers

  datatype Image = Image(url: string, alt: string)

  /** The `model` field: absent, a single name (legacy data) or a list of names. */
  datatype ModelField = NoModel | ModelName(name: string) | ModelList(names: seq<string>)

  /**
   * One catalogue entry. Optional string fields that are absent are `""`
   * (both are falsy to the scripts); an absent `stock` is 0.
   */
  datatype Product = Product(
    id: string,
    name: string,
    partNumber: string,
    oemNumber: string,
    brand: string,
    model: ModelField,
    category: string,
    stock: nat,
    stockStatus: string,
    images: seq<Image>,
    specifications: map<string, string>,
    price: string,
    hasPrice: bool)

  /** Position of the first product whose id is `id`, searching from `from`; -1 if none. */
  function FirstWithId(products: seq<Product>, id: string, from: nat): (k: int)
    requires from <= |products|
    ensures k == -1 || (from <= k < |products| && products[k].id == id)
    ensures forall j :: from <= j < |products| && (k == -1 || j < k) ==> products[j].id != id
    decreases |products| - from
  {
    if from == |products| then -1
    else if products[from].id == id then from
    else FirstWithId(products, id, from + 1)
  }

  /** `products.find(p => p.id === id)`: the first product with that id, if any. */
  function FindById(products: seq<Product>, id: string): (r: Option<Product>)
    ensures r.None? <==> forall j :: 0 <= j < |products| ==> products[j].id != id
    ensures r.Some? ==> r.value.id == id && r.value in products
    ensures r.Some? ==> exists k :: 0 <= k < |products| && products[k] == r.value
                                   && forall j :: 0 <= j < k ==> products[j].id != id
  {
    var k := FirstWithId(products, id, 0);
    if k == -1 then None else Some(products[k])
  }

  predicate UniqueIds(products: seq<Product>) {
    forall i, j :: 0 <= i < j < |products| ==> products[i].id != products[j].id
  }

  /**
   * With unique identifiers, looking up a product's own id finds that very
   * product: the `?id=` link on each card leads back to it.
   */
  lemma FindOwnId(products: seq<Product>, i: nat)
    requires UniqueIds(products)
    requires i < |products|
    ensures FindById(products, products[i].id) == Some(products[i])
  {
    var r := FindById(products, products[i].id);
    var k :| 0 <= k < |products| && products[k] == r.value
              && forall j :: 0 <= j < k ==> products[j].id != products[i].id;
    if k != i {
      assert products[k].id == products[i].id;
    }
  }
}
