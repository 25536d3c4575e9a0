/** The records the cart works on: a product entry of the cart and the
    stock record returned by the stock lookup service. */
module CartTypes {

  /** A cart entry. `id` is the identity key and `amount` the chosen
      quantity; `title` and `image` are carried through untouched. The
      floating-point `price` and the optional display fields are not part
      of this model. */
  datatype Product = Product(id: int, title: string, image: string, amount: int)

  /** The reply of the stock lookup: the available quantity of product `id`. */
  datatype Stock = Stock(id: int, amount: int)
}
