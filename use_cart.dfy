/** The cart provider: the current cart, the storage slot it is mirrored
    to, and the three operations that change both. The lookups of the
    stock and product services are inputs of the operations; the
    notification shown to the user is the returned `Outcome`. */
module UseCart {
  import opened CartTypes
  import opened CartList

  /** What an operation reports instead of a notification. `Ignored` is
      the silent return of an amount update with a non-positive amount. */
  datatype Outcome = Ok | OutOfStock | NotFound | Failed | Ignored

  /** The reply of a service call: its data, or a failed call. */
  datatype Reply<T> = Answered(data: T) | CallFailed

  /** The storage slot "@RocketShoes:cart": empty, or holding the snapshot
      of a whole cart list. */
  datatype Slot = Empty | Holds(snapshot: seq<Product>)

  /** The list the provider starts from when the slot is read at startup:
      the stored snapshot, or the empty list when nothing is stored. */
  function Load(slot: Slot): (s: seq<Product>)
    ensures slot.Holds? ==> s == slot.snapshot
    ensures slot.Empty? ==> s == []
  {
    match slot
    case Empty => []
    case Holds(snapshot) => snapshot
  }

  class CartProvider {
    /** The published cart. */
    var cart: seq<Product>
    /** The storage slot the cart is written to. */
    var stored: Slot

    /** The storage slot, reloaded, gives back the published cart. */
    ghost predicate Valid()
      reads this
    {
      Load(stored) == cart
    }

    /** Startup: the cart is whatever the slot holds, or empty. */
    constructor (slot: Slot)
      ensures Valid()
      ensures stored == slot
      ensures cart == Load(slot)
    {
      stored := slot;
      cart := Load(slot);
    }

    /** Add one unit of product `productId`. `stockReply` is the stock
        lookup; `productReply` is the catalog lookup, consulted only when
        the product is not yet in the cart. */
    method AddProduct(productId: int, stockReply: Reply<Stock>, productReply: Reply<Product>)
      returns (outcome: Outcome)
      requires Valid()
      modifies this
      ensures Valid()
      ensures match stockReply
        case CallFailed => outcome == Failed
        case Answered(stock) =>
          if CurrentAmount(old(cart), productId) + 1 > stock.amount then
            outcome == OutOfStock
          else
            match FindIndex(old(cart), productId)
            case Some(i) =>
              outcome == Ok &&
              cart == old(cart)[i := old(cart)[i].(amount := old(cart)[i].amount + 1)]
            case None =>
              match productReply
              case CallFailed => outcome == Failed
              case Answered(p) => outcome == Ok && cart == old(cart) + [p.(amount := 1)]
      ensures outcome != Ok ==> cart == old(cart) && stored == old(stored)
      ensures outcome == Ok ==> stored == Holds(cart)
      ensures outcome in {Ok, OutOfStock, Failed}
      ensures UniqueIds(old(cart)) ==>
                (FindIndex(old(cart), productId).None? && productReply.Answered? ==>
                   productReply.data.id == productId) ==>
                UniqueIds(cart)
      ensures AmountsPositive(old(cart)) ==> AmountsPositive(cart)
    {
      if stockReply.CallFailed? {
        return Failed;
      }
      var stock := stockReply.data.amount;
      var newCart := cart;
      var duplicated := FindIndex(newCart, productId);
      var currentAmount := CurrentAmount(newCart, productId);
      var amount := currentAmount + 1;
      if amount > stock {
        return OutOfStock;
      }
      if duplicated.Some? {
        var i := duplicated.value;
        SetAmountAtKeeps(cart, i, amount);
        newCart := newCart[i := newCart[i].(amount := amount)];
      } else {
        if productReply.CallFailed? {
          return Failed;
        }
        var fetched := productReply.data;
        assert !Contains(cart, productId);
        if UniqueIds(cart) && fetched.id == productId {
          AppendKeepsUnique(cart, fetched.(amount := 1));
        }
        if AmountsPositive(cart) {
          AppendKeepsPositive(cart, fetched.(amount := 1));
        }
        newCart := newCart + [fetched.(amount := 1)];
      }
      stored := Holds(newCart);
      cart := newCart;
      outcome := Ok;
    }

    /** Remove every entry of product `productId`; fails when there is none. */
    method RemoveProduct(productId: int) returns (outcome: Outcome)
      requires Valid()
      modifies this
      ensures Valid()
      ensures outcome == if Contains(old(cart), productId) then Ok else NotFound
      ensures outcome == NotFound ==> cart == old(cart) && stored == old(stored)
      ensures outcome == Ok ==> cart == Without(old(cart), productId) && stored == Holds(cart)
      ensures Ids(cart) == Ids(old(cart)) - {productId}
      ensures UniqueIds(old(cart)) ==> UniqueIds(cart)
      ensures UniqueIds(old(cart)) && outcome == Ok ==> |cart| == |old(cart)| - 1
      ensures AmountsPositive(old(cart)) ==> AmountsPositive(cart)
    {
      var newCart := cart;
      var idExist := FindIndex(newCart, productId);
      if idExist.None? {
        WithoutAbsent(cart, productId);
        WithoutIds(cart, productId);
        return NotFound;
      }
      var products := Without(newCart, productId);
      WithoutIds(cart, productId);
      if UniqueIds(cart) {
        WithoutKeepsUnique(cart, productId);
        RemoveUniqueIsSplice(cart, productId, idExist.value);
      }
      assert forall j :: 0 <= j < |products| ==> products[j] in cart;
      stored := Holds(products);
      cart := products;
      outcome := Ok;
    }

    /** Set the quantity of product `productId` to `amount`. A non-positive
        amount is ignored without consulting stock; `stockReply` is the
        stock lookup. An id with no entry still persists the list. */
    method UpdateProductAmount(productId: int, amount: int, stockReply: Reply<Stock>)
      returns (outcome: Outcome)
      requires Valid()
      modifies this
      ensures Valid()
      ensures outcome ==
                if amount <= 0 then Ignored
                else if stockReply.CallFailed? then Failed
                else if amount > stockReply.data.amount then OutOfStock
                else Ok
      ensures outcome != Ok ==> cart == old(cart) && stored == old(stored)
      ensures outcome == Ok ==> cart == WithAmount(old(cart), productId, amount) && stored == Holds(cart)
      ensures outcome == Ok && !Contains(old(cart), productId) ==> cart == old(cart)
      ensures Ids(cart) == Ids(old(cart))
      ensures UniqueIds(old(cart)) ==> UniqueIds(cart)
      ensures AmountsPositive(old(cart)) ==> AmountsPositive(cart)
    {
      if amount <= 0 {
        return Ignored;
      }
      if stockReply.CallFailed? {
        return Failed;
      }
      var stock := stockReply.data.amount;
      if amount > stock {
        return OutOfStock;
      }
      var newCart := cart;
      var updatedProducts := WithAmount(newCart, productId, amount);
      WithAmountKeepsIds(cart, productId, amount);
      if !Contains(cart, productId) {
        WithAmountAbsent(cart, productId, amount);
      }
      stored := Holds(updatedProducts);
      cart := updatedProducts;
      outcome := Ok;
    }
  }
}
