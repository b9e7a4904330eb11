/**
 * The shopping cart: a list of products updated in place and a running total
 * kept beside it, plus the two menu actions that use the catalogue.
 */
module ShoppingCart {
  import opened Wrappers
  import opened Catalogue

  /** The exact sum of the prices of `items`, in cents. */
  function Sum(items: seq<Product>): int
  {
    if items == [] then 0 else items[0].price + Sum(items[1..])
  }

  /** Appending a product adds its price to the sum. */
  lemma {:induction false} SumAppend(items: seq<Product>, p: Product)
    ensures Sum(items + [p]) == Sum(items) + p.price
  {
    if items != [] {
      assert (items + [p])[1..] == items[1..] + [p];
      SumAppend(items[1..], p);
    }
  }

  /** Taking out the item at index `i` takes its price off the sum. */
  lemma {:induction false} SumRemoveAt(items: seq<Product>, i: nat)
    requires i < |items|
    ensures Sum(items[..i] + items[i + 1..]) == Sum(items) - items[i].price
  {
    if i == 0 {
      assert items[..0] + items[1..] == items[1..];
    } else {
      var rest := items[1..];
      assert items[..i] + items[i + 1..] == [items[0]] + (rest[..i - 1] + rest[i..]);
      SumRemoveAt(rest, i - 1);
    }
  }

  class Cart {
    /** `cartItems`, in the order the products were added. */
    var cartItems: seq<Product>
    /** `totalPrice`, updated on every add and remove. */
    var totalPrice: int

    /** The running total always equals the sum of the item prices. */
    ghost predicate Valid()
      reads this
    {
      totalPrice == Sum(cartItems)
    }

    constructor ()
      ensures Valid() && cartItems == [] && totalPrice == 0
    {
      cartItems := [];
      totalPrice := 0;
    }

    /** `addProduct`: append at the end and add the price to the total. */
    method AddProduct(product: Product)
      requires Valid()
      modifies this
      ensures Valid()
      ensures cartItems == old(cartItems) + [product] && totalPrice == old(totalPrice) + product.price
    {
      SumAppend(cartItems, product);
      cartItems := cartItems + [product];
      totalPrice := totalPrice + product.price;
    }

    /**
     * `removeProduct`: find the first item with the id, then take out that
     * item and subtract its price; with no such item nothing changes. The
     * result is the removed product, or None for "Product not found in the cart.".
     */
    method RemoveProduct(productId: int) returns (removed: Option<Product>)
      requires Valid()
      modifies this
      ensures Valid()
      ensures match FirstIndex(old(cartItems), productId)
        case None =>
          removed == None && cartItems == old(cartItems) && totalPrice == old(totalPrice)
        case Some(i) =>
          && removed == Some(old(cartItems)[i])
          && cartItems == old(cartItems)[..i] + old(cartItems)[i + 1..]
          && totalPrice == old(totalPrice) - old(cartItems)[i].price
    {
      var toRemove: Option<nat> := None;
      var i := 0;
      while i < |cartItems|
        invariant 0 <= i <= |cartItems| && toRemove == None
        invariant forall j :: 0 <= j < i ==> cartItems[j].id != productId
      {
        if cartItems[i].id == productId {
          toRemove := Some(i);
          break;
        }
        i := i + 1;
      }
      if toRemove.Some? {
        // `cartItems.remove(toRemove)` drops the first element equal to the
        // found product; no earlier element can be equal, as none has its id.
        var k := toRemove.value;
        removed := Some(cartItems[k]);
        SumRemoveAt(cartItems, k);
        cartItems := cartItems[..k] + cartItems[k + 1..];
        totalPrice := totalPrice - removed.value.price;
      } else {
        removed := None;
      }
    }

    /** `getTotalPrice`. */
    method GetTotalPrice() returns (total: int)
      requires Valid()
      ensures total == Sum(cartItems)
    {
      total := totalPrice;
    }

    /** `isEmpty`. */
    method IsEmpty() returns (empty: bool)
      ensures empty <==> |cartItems| == 0
    {
      empty := cartItems == [];
    }
  }

  /**
   * Menu choice 2: add the first catalogue product with the id; None stands
   * for "Invalid Product ID." and leaves the cart as it was.
   */
  method AddToCart(cart: Cart, catalogue: seq<Product>, id: int) returns (added: Option<Product>)
    requires cart.Valid()
    modifies cart
    ensures cart.Valid() && added == Lookup(catalogue, id)
    ensures added.None? ==> cart.cartItems == old(cart.cartItems) && cart.totalPrice == old(cart.totalPrice)
    ensures added.Some? ==>
      cart.cartItems == old(cart.cartItems) + [added.value] && cart.totalPrice == old(cart.totalPrice) + added.value.price
  {
    added := Lookup(catalogue, id);
    if added.Some? {
      cart.AddProduct(added.value);
    }
  }

  /** Menu choice 5: checkout goes ahead exactly when the cart holds something. */
  method Checkout(cart: Cart) returns (placed: bool)
    ensures placed <==> cart.cartItems != []
  {
    var empty := cart.IsEmpty();
    placed := !empty;
  }
}
