# Cart state of the RocketShoes front end, modelled in Dafny

The shopping cart of this front end is an ordered list of product entries,
keyed by `id`, each with a chosen quantity `amount`. The list is mirrored in
the browser storage slot `@RocketShoes:cart`. At startup the cart is loaded
from that slot, or is empty when the slot holds nothing. Three operations
change it:

- adding one unit of a product: checked against the remote stock, it
  either increments the existing entry or appends the fetched catalog
  record with amount 1;
- removing a product: fails when the id is absent, otherwise filters the
  id's entries out;
- setting a product's quantity: silently ignores non-positive amounts,
  refuses amounts above stock, otherwise sets the amount on every entry
  with that id.

Each successful operation writes the whole new list to the slot and then
publishes it as the current cart. This model captures all of that.

Layout:

- `types.dfy`, module `CartTypes`: the `Product` entry and the `Stock` reply.
- `cart_list.dfy`, module `CartList`. It holds the pure list steps the
  operations are built from:
  - `FindIndex` models the list's `find`;
  - `Without` models the `filter` of the remove operation;
  - `WithAmount` models the `map` of the update operation.

  The module also holds the invariants they keep (unique ids, positive
  amounts, the set of ids) and the lemmas that relate them to each other.
- `use_cart.dfy`, module `UseCart`: the class `CartProvider`. Its two
  fields are `cart`, the published list, and `stored`, the storage slot.
  There is one method per operation. The class invariant `Valid()` says
  that reloading the slot gives back the published cart, which is the
  storage round trip that startup relies on. Each external call is a
  parameter holding its reply (`Answered(data)` or `CallFailed`). Each
  operation returns an `Outcome` tag (`Ok`, `OutOfStock`, `NotFound`,
  `Failed`, `Ignored`) in place of the notification the source shows.

Edge cases of the code that the model follows:

- Startup does not catch a parse error of the slot's text
  (`src/hooks/useCart.tsx:28-29`). The model therefore promises nothing for
  such a slot; its slot always holds a list or nothing.
- `removeProduct` filters out every entry with the id. A removal leaves
  exactly one entry fewer only when ids are unique, and that is what
  `RemoveUniqueIsSplice` proves.
- Removing an absent id throws inside `removeProduct`, and the catch shows
  the generic removal error. The model reports this as `NotFound`.
- The update operation returns silently for `amount <= 0`. The model reports
  this as `Ignored`, which differs from `Ok` in that nothing is written or
  published.

## Model

| member | source | states |
|---|---|---|
| `CartList.FindIndex` | src/hooks/useCart.tsx:39-42 | returns the position of the FIRST entry with the id, or none exactly when no entry has the id |
| `CartList.Without` | src/hooks/useCart.tsx:71-73 | the result holds exactly the input entries whose id differs, never the removed id, and is no longer than the input |
| `CartList.WithoutConcat` | src/hooks/useCart.tsx:71-73 | filtering distributes over concatenation, so kept entries stay in input order |
| `CartList.WithoutAbsent` | src/hooks/useCart.tsx:71-73 | filtering out an id that is not present returns the list unchanged |
| `CartList.WithoutKeepsUnique` | src/hooks/useCart.tsx:71-73 | filtering keeps ids unique |
| `CartList.WithoutIds` | src/hooks/useCart.tsx:71-73 | the ids after filtering are the old ids minus the removed one |
| `CartList.RemoveUniqueIsSplice` | src/hooks/useCart.tsx:64-76 | in a cart with unique ids, removing a present id cuts out exactly that one position: the length drops by one and the rest stay in order |
| `CartList.AppendKeepsUnique` | src/hooks/useCart.tsx:39-55 | appending an entry whose id `find` did not find keeps ids unique |
| `CartList.AppendThenRemove` | src/hooks/useCart.tsx:53-73 | removing the id of a freshly appended entry gives back the cart from before the append |
| `CartList.SetAmountAtKeeps` | src/hooks/useCart.tsx:50-51 | changing the amount of the found entry keeps ids unique, and keeps amounts positive when the new amount is |
| `CartList.WithAmount` | src/hooks/useCart.tsx:98-100 | same length; each entry with the id gets the new amount and every other entry is passed through unchanged |
| `CartList.WithAmountAbsent` | src/hooks/useCart.tsx:98-105 | updating an absent id yields the unchanged list, which is still what gets persisted |
| `CartList.WithAmountUniqueAt` | src/hooks/useCart.tsx:98-100 | with unique ids, the update changes exactly the one position holding that id |
| `CartList.WithAmountKeepsIds` | src/hooks/useCart.tsx:98-100 | the update keeps the id at every position, hence the set of ids and their uniqueness, and keeps amounts positive for a positive amount |
| `CartList.WithAmountTwice` | src/hooks/useCart.tsx:98-100 | of two updates of the same id, the later amount wins |
| `CartList.IncrementIsUpdate` | src/hooks/useCart.tsx:39-51 | with unique ids, the increment that adding does to an existing entry equals an update of that id to its current amount + 1 |
| `UseCart.Load` | src/hooks/useCart.tsx:25-33 | startup gives the stored snapshot, or the empty list when the slot is empty |
| `UseCart.CartProvider.constructor` | src/hooks/useCart.tsx:25-33 | the initial cart is the slot's snapshot, or empty; the slot is untouched, and reloading it gives the cart |
| `UseCart.CartProvider.AddProduct` | src/hooks/useCart.tsx:35-62 | a failed stock call gives `Failed`. Current amount + 1 above stock gives `OutOfStock`. Otherwise a found entry is incremented in place (same length, others unchanged). An absent product has the fetched record with amount 1 appended, or gives `Failed` if the product call fails. Any non-`Ok` outcome leaves cart and slot unchanged. `Ok` writes the new cart to the slot. The operation keeps unique ids (on the append path, given that the fetched id is the requested one) and keeps positive amounts |
| `UseCart.CartProvider.RemoveProduct` | src/hooks/useCart.tsx:64-80 | an absent id gives `NotFound` and changes nothing. A present id gives `Ok`: the cart becomes the input minus that id's entries, in order, and the slot holds it. The ids become the old ids minus this one. Unique ids are kept, and with unique ids the length drops by exactly one |
| `UseCart.CartProvider.UpdateProductAmount` | src/hooks/useCart.tsx:82-109 | `amount <= 0` gives `Ignored`, a failed stock call `Failed`, an amount above stock `OutOfStock`; each of these changes nothing. Otherwise `Ok` sets the amount on the entries with the id, passes the others through, and persists the result, which is the unchanged list for an absent id. Ids, their uniqueness and positive amounts are kept |

## Left out

- The React context, the provider component and the `useCart` hook
  (`src/hooks/useCart.tsx:6-24`, `111-124`): framework plumbing with no
  logic. The class `CartProvider` stands for the provider's state.
- The HTTP calls to `stock/{id}` and `products/{id}`: network I/O. Each reply
  is a method parameter, either its data or `CallFailed`. A stock reply
  that has no numeric `amount` is not modelled. In the source such a reply
  does not throw: `stock` is then `undefined`, `amount > undefined` is false
  for every amount, and so the stock checks on lines 45 and 92 let the
  operation go ahead with no stock limit. The model's stock is always an
  integer.
- The `toast.error` notifications: a UI side channel, replaced by the
  returned `Outcome`.
- JSON serialisation and the real `localStorage`. The slot holds the list
  itself, so no JSON round trip is claimed. A slot whose text does not parse
  is left out: the source does not catch that parse error
  (`src/hooks/useCart.tsx:29`), and startup would fail. The empty
  string is falsy in the source and therefore counts as an `Empty` slot.
- Storage write failures (a full storage quota): the model treats the write
  as always succeeding and reports `Ok`. In the source, a throwing
  `localStorage.setItem` lands in the catch, shows the error notification
  and skips `setCart`. What happens to the published cart then depends on
  the path. On the increment path of `addProduct`, line 51 has already
  changed the entry object that the published cart shares, so the published
  cart shows the new amount while storage keeps the old one. On the append
  path of `addProduct` (line 55 pushes onto a copy), and in `removeProduct`
  and `updateProductAmount` (new arrays from `filter` and `map`), the
  published cart stays as it was.
- The aliasing in `addProduct`. Line 38 copies only the array, so the
  increment on line 51 also changes the entry object shared with the
  previous state. The model works on values and replaces the whole list.
  This difference shows when operations overlap, which is left out below.
  For example, two `addProduct` calls for a product already in the cart may
  start from the same render. Both copy the same array, and the second
  call's `find` then sees the first call's increment through the shared
  object, so it checks current amount + 2 against stock. It also shows on
  the increment path when the storage write fails, as described above.
- `async`/`await` scheduling and React's deferred state updates: each
  operation is treated as one atomic step on the current cart. Overlapping
  calls that start from the same render, together with the shared entry
  objects described above, are therefore not modelled.
- `price` (a floating-point number) and the optional display fields
  `priceFormatted` and `subTotal` (`src/types.ts:4`, `7-8`): no cart logic
  depends on them. Amounts, ids and stock are unbounded integers here. The
  source's numbers are IEEE doubles, which can only differ from this for
  values beyond 2^53 or for non-integers.
- `UseCart.CartProvider.AddProduct`: on the append path, uniqueness of ids
  is promised only when the fetched catalog record carries the requested id. The new entry
  takes its id from the fetched record (`src/hooks/useCart.tsx:53-54`), so
  a catalog answering with another id could create a duplicate.
