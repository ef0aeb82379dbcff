/**
 * The records the components receive. Prices are integers in minor currency
 * units. An optional list (`variations?`, `addOns?`, `selectedAddOns?`) is a
 * sequence, empty when absent: every use of these lists treats an absent list
 * and an empty one alike.
 */
module Catalog {
  import opened Wrappers

  /** A size choice; its `price` is added to the item's base price. */
  datatype Variation = Variation(id: string, name: string, price: int)

  /** An add-on; `quantity` is only set on add-ons that carry a count. */
  datatype AddOn = AddOn(id: string, name: string, price: int, category: string, quantity: Option<int>)

  /** A catalogue item. `effectivePrice` is the discounted price when there is one. */
  datatype MenuItem = MenuItem(
    id: string,
    name: string,
    description: string,
    basePrice: int,
    effectivePrice: Option<int>,
    available: bool,
    category: string,
    variations: seq<Variation>,
    addOns: seq<AddOn>)

  /** A cart line as the cart store hands it out; the store itself is not modelled. */
  datatype CartItem = CartItem(
    id: string,
    name: string,
    quantity: int,
    selectedVariation: Option<Variation>,
    selectedAddOns: seq<AddOn>)
}
