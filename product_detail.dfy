/** The product page: the product the route names, whether it is already in
    the cart, the related products shown beneath it, and the Add to Cart
    button, which is disabled once the product is in the cart. */
module ProductDetail {
  import opened Seqs
  import opened Catalog

  /** `p.id === id`, where the route parameter may be missing; no product
      id is `undefined`, so a missing parameter matches nothing. */
  function HasId(routeId: Option<string>): Product -> bool {
    (p: Product) => routeId.Some? && p.id == routeId.value
  }

  /** `products.find((p) => p.id === id)`. */
  function Lookup(products: seq<Product>, routeId: Option<string>): (r: Option<Product>)
    ensures r.None? <==>
              routeId.None? || forall i :: 0 <= i < |products| ==> products[i].id != routeId.value
    ensures r.Some? ==>
              routeId.Some? && r.value.id == routeId.value &&
              exists k :: 0 <= k < |products| && products[k] == r.value &&
                          forall j :: 0 <= j < k ==> products[j].id != routeId.value
  {
    Find(products, HasId(routeId))
  }

  /** No two products of the catalog share an id. */
  predicate UniqueIds(products: seq<Product>) {
    forall i, j :: 0 <= i < j < |products| ==> products[i].id != products[j].id
  }

  /** In a catalog with unique ids, the route of a product's own id finds it. */
  lemma LookupOwnId(products: seq<Product>, k: int)
    requires UniqueIds(products) && 0 <= k < |products|
    ensures Lookup(products, Some(products[k].id)) == Some(products[k])
  {
    var r := Lookup(products, Some(products[k].id));
    assert !(forall i :: 0 <= i < |products| ==> products[i].id != products[k].id);
    var m :| 0 <= m < |products| && products[m] == r.value &&
             forall j :: 0 <= j < m ==> products[j].id != products[k].id;
  }

  /** `(i) => i.product.id === id`. */
  function LineOf(id: string): CartItem -> bool {
    (i: CartItem) => i.product.id == id
  }

  /** `product ? items.some((i) => i.product.id === product.id) : false`. */
  function InCart(product: Option<Product>, items: seq<CartItem>): (r: bool)
    ensures r <==> product.Some? &&
                   exists i :: 0 <= i < |items| && items[i].product.id == product.value.id
  {
    if product.Some? then Any(items, LineOf(product.value.id)) else false
  }

  /** A cart holding a line for the product, at the end or anywhere else,
      counts it as in the cart, whatever the line's quantity. */
  lemma InCartWithLine(p: Product, items: seq<CartItem>, q: int)
    ensures InCart(Some(p), items + [CartItem(p, q)])
    ensures InCart(Some(p), [CartItem(p, q)] + items)
  {
    var back := items + [CartItem(p, q)];
    assert back[|items|].product.id == p.id;
    var front := [CartItem(p, q)] + items;
    assert front[0].product.id == p.id;
  }

  /** Being in the cart goes by id alone: two records with the same id are
      in the cart together. */
  lemma InCartById(p: Product, p': Product, items: seq<CartItem>)
    requires p.id == p'.id
    ensures InCart(Some(p), items) == InCart(Some(p'), items)
  {
  }

  /** `(p) => p.category === product.category && p.id !== product.id`. */
  function RelatedTest(product: Product): Product -> bool {
    (p: Product) => p.category == product.category && p.id != product.id
  }

  /** The related products: `products.filter(...).slice(0, 4)`. */
  function Related(products: seq<Product>, product: Product): (r: seq<Product>)
    ensures |r| <= 4
    ensures forall i :: 0 <= i < |r| ==>
              r[i].category == product.category && r[i].id != product.id
  {
    Take(Filter(products, RelatedTest(product)), 4)
  }

  /** The related products are the first four products of the catalog, in
      catalog order, that share the category and are not the product itself;
      when there are at most four such products, all of them are shown. */
  lemma RelatedAreFirstFour(products: seq<Product>, product: Product)
    ensures Related(products, product) <= Filter(products, RelatedTest(product))
    ensures |Filter(products, RelatedTest(product))| >= 4 ==> |Related(products, product)| == 4
    ensures |Filter(products, RelatedTest(product))| <= 4 ==>
              forall p :: p in Related(products, product) <==>
                          p in products && p.category == product.category && p.id != product.id
    ensures |Filter(products, RelatedTest(product))| <= 4 ==>
              Related(products, product) == Filter(products, RelatedTest(product))
  {
    FilterMembership(products, RelatedTest(product));
  }

  /** Every related product comes from the catalog, and the product never
      relates to itself. */
  lemma RelatedFromCatalog(products: seq<Product>, product: Product)
    ensures forall p :: p in Related(products, product) ==> p in products
    ensures product !in Related(products, product)
  {
    var f := Filter(products, RelatedTest(product));
    FilterMembership(products, RelatedTest(product));
    forall p | p in Related(products, product)
      ensures p in products
    {
      var i :| 0 <= i < |Related(products, product)| && Related(products, product)[i] == p;
      assert f[i] == p;
    }
  }

  /** What the page renders: "Product not found", or the product with its
      cart status and its related products. */
  datatype Page =
    | NotFound
    | Found(product: Product, inCart: bool, related: seq<Product>)

  function Render(products: seq<Product>, routeId: Option<string>, items: seq<CartItem>): (r: Page)
    ensures r.NotFound? <==> Lookup(products, routeId).None?
    ensures r.Found? ==> r.product in products && routeId == Some(r.product.id)
    ensures r.Found? ==> (r.inCart <==> exists i :: 0 <= i < |items| && items[i].product.id == r.product.id)
    ensures r.Found? ==> |r.related| <= 4 && r.product !in r.related
    ensures r.Found? ==> Lookup(products, routeId) == Some(r.product)
    ensures r.Found? ==> r.related == Related(products, r.product)
  {
    var product := Lookup(products, routeId);
    if product.None? then NotFound
    else
      RelatedFromCatalog(products, product.value);
      Found(product.value, InCart(product, items), Related(products, product.value))
  }

  /** The Add to Cart button of a page: `disabled={inCart}`. A page with no
      product has no button. */
  predicate AddEnabled(page: Page) {
    page.Found? && !page.inCart
  }

  /** Clicking the button: `addItem(product)` runs unless the button is
      disabled; the result is the product handed to the cart, if any. */
  function ClickAdd(page: Page): (r: Option<Product>)
    ensures r.Some? <==> AddEnabled(page)
    ensures r.Some? ==> r.value == page.product
  {
    if AddEnabled(page) then Some(page.product) else None
  }

  /** A click from the product page never hands the cart a product it
      already holds a line for, and always hands it one it does not. */
  lemma ClickAddOnlyNew(products: seq<Product>, routeId: Option<string>, items: seq<CartItem>)
    requires Render(products, routeId, items).Found?
    ensures ClickAdd(Render(products, routeId, items)).Some? <==>
              forall i :: 0 <= i < |items| ==> items[i].product.id != routeId.value
  {
  }

  /** Once the cart holds a line for the product, the page shows "Added to
      Cart" and a click does nothing. */
  lemma AddedProductDisablesButton(products: seq<Product>, p: Product, items: seq<CartItem>, q: int)
    requires p in products
    ensures Render(products, Some(p.id), items + [CartItem(p, q)]).Found?
    ensures ClickAdd(Render(products, Some(p.id), items + [CartItem(p, q)])).None?
  {
    var k :| 0 <= k < |products| && products[k] == p;
    assert products[k].id == p.id;
    var page := Render(products, Some(p.id), items + [CartItem(p, q)]);
    InCartWithLine(page.product, items, q);
    InCartById(page.product, p, items + [CartItem(p, q)]);
    InCartWithLine(p, items, q);
  }
}
