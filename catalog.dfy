/** The product record of the catalog and the cart line as the views see it.
    Prices are whole cents and ratings whole tenths of a star, so that the
    comparisons the views make are exact. */
module Catalog {
  import opened Seqs

  datatype Product = Product(
    id: string,
    title: string,
    description: string,
    price: int,                 // cents
    originalPrice: Option<int>, // cents
    category: string,
    images: seq<string>,
    featured: bool,
    rating: int,                // tenths of a star
    reviews: nat,
    badge: Option<string>
  )

  /** One line of the cart store, which is not part of this model: only its
      shape, a product paired with a quantity, is used here. */
  datatype CartItem = CartItem(product: Product, quantity: int)
}
