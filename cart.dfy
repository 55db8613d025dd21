/**
 * The shopping cart, as backend/controllers/shoppingcartController.js keeps
 * it: one collection of entries, each a product, a quantity and the owner's
 * e-mail. Adding refuses a second entry for the same (product, e-mail) pair;
 * update and delete go by entry id after the 24-hex id check; a bulk delete
 * empties one owner's cart.
 */
module ShoppingCart {
  import opened Common
  import opened ObjectIds

  datatype CartItem = CartItem(id: string, product: string, quantity: int, email: string)

  /** An entry's id, and its (product, e-mail) pair, as the database compares them. */
  function CartId(c: CartItem): string { CanonicalId(c.id) }
  function CartPair(c: CartItem): (string, string) { (CanonicalId(c.product), c.email) }

  datatype CartReply =
    | ProductRequired
    | QuantityRequired
    | EmailRequired
    | AlreadyAdded
    | Added(item: CartItem)
    | NoCartFound
    | CartFound(items: seq<CartItem>)
    | InvalidCartId
    | CartItemNotFound
    | QuantityUpdated(item: CartItem)
    | CartItemDeleted
    | CartCleared
  {
    /** The missing-field replies are sent without a status, hence 200. */
    function Status(): nat
    {
      match this
      case ProductRequired => 200
      case QuantityRequired => 200
      case EmailRequired => 200
      case AlreadyAdded => 200
      case Added(_) => 201
      case NoCartFound => 404
      case CartFound(_) => 200
      case InvalidCartId => 400
      case CartItemNotFound => 404
      case QuantityUpdated(_) => 200
      case CartItemDeleted => 200
      case CartCleared => 200
    }

    function Message(): string
    {
      match this
      case ProductRequired => "product is Required"
      case QuantityRequired => "quantity is Required"
      case EmailRequired => "email is Required"
      case AlreadyAdded => "This item is alradey added"
      case Added(_) => "Cart Entered Successfully"
      case NoCartFound => "No Cart details found for this email"
      case CartFound(_) => "Cart details retrieved successfully"
      case InvalidCartId => "Invalid cart item ID"
      case CartItemNotFound => "Cart item not found"
      case QuantityUpdated(_) => "Quantity updated successfully"
      case CartItemDeleted => "Cart item deleted successfully"
      case CartCleared => "Cart Details Deleted Successfully"
    }
  }

  /** `Cart.findOne({ product, email })`; `product` is an ObjectId reference. */
  function EntryFor(items: seq<CartItem>, product: string, email: string): Option<nat>
  {
    FirstIndex(items, (c: CartItem) => SameId(c.product, product) && c.email == email)
  }

  /** `Cart.findById(id)` */
  function CartItemById(items: seq<CartItem>, id: string): Option<nat>
  {
    FirstIndex(items, (c: CartItem) => SameId(c.id, id))
  }

  /** `getCart` (shoppingcartController.js:52-80): the owner's entries, or 404 when there are none. */
  function GetCart(items: seq<CartItem>, email: string): (r: CartReply)
    ensures r == NoCartFound <==> forall j :: 0 <= j < |items| ==> items[j].email != email
    ensures r != NoCartFound ==> r.CartFound? && r.items != []
    ensures r.CartFound? ==> forall x :: x in r.items <==> x in items && x.email == email
    ensures r.CartFound? ==> forall x :: multiset(r.items)[x] == if x.email == email then multiset(items)[x] else 0
  {
    var mine := Filter(items, (c: CartItem) => c.email == email);
    if mine == [] then
      assert forall j :: 0 <= j < |items| ==> items[j] !in mine;
      NoCartFound
    else
      assert mine[0] in mine;
      CartFound(mine)
  }

  class Cart {
    var items: seq<CartItem>

    /** No two entries have the same id, and every stored id is a rendered ObjectId. */
    ghost predicate Valid()
      reads this
    {
      && Distinct(items, CartId)
      && forall j :: 0 <= j < |items| ==> IsObjectId(items[j].id)
    }

    constructor ()
      ensures Valid() && items == []
    {
      items := [];
    }

    /**
     * `addToCart` (shoppingcartController.js:6-48). An absent quantity, and a
     * quantity of 0, fail the truthiness check alike; `newId` is the id the
     * database assigns to a new entry.
     */
    method AddToCart(product: string, quantity: int, email: string, newId: string) returns (reply: CartReply)
      requires Valid()
      requires IsObjectId(newId) && forall j :: 0 <= j < |items| ==> !SameId(items[j].id, newId)
      modifies this
      ensures Valid()
      ensures product == "" ==> reply == ProductRequired && items == old(items)
      ensures product != "" && quantity == 0 ==> reply == QuantityRequired && items == old(items)
      ensures product != "" && quantity != 0 && email == "" ==> reply == EmailRequired && items == old(items)
      ensures product != "" && quantity != 0 && email != "" && EntryFor(old(items), product, email).Some?
              ==> reply == AlreadyAdded && items == old(items)
      ensures reply.Added? <==>
              product != "" && quantity != 0 && email != "" && EntryFor(old(items), product, email).None?
      ensures reply.Added? ==>
              reply.item == CartItem(newId, product, quantity, email) && items == old(items) + [reply.item]
      // at most one entry per (product, e-mail) pair
      ensures Distinct(old(items), CartPair) ==> Distinct(items, CartPair)
    {
      if product == "" {
        return ProductRequired;
      }
      if quantity == 0 {
        return QuantityRequired;
      }
      if email == "" {
        return EmailRequired;
      }
      if EntryFor(items, product, email).Some? {
        return AlreadyAdded;
      }
      var item := CartItem(newId, product, quantity, email);
      AppendDistinct(items, item, CartId);
      if Distinct(items, CartPair) {
        AppendDistinct(items, item, CartPair);
      }
      items := items + [item];
      reply := Added(item);
    }

    /** `updateCartItemQuantity` (shoppingcartController.js:85-128). */
    method UpdateCartItemQuantity(id: string, product: string, quantity: int) returns (reply: CartReply)
      requires Valid()
      modifies this
      ensures Valid()
      ensures !IsObjectId(id) ==> reply == InvalidCartId && items == old(items)
      ensures IsObjectId(id) && CartItemById(old(items), id).None? ==> reply == CartItemNotFound && items == old(items)
      ensures IsObjectId(id) && CartItemById(old(items), id).Some? ==>
              var i := CartItemById(old(items), id).value;
              && items == old(items)[i := old(items)[i].(product := product, quantity := quantity)]
              && reply == QuantityUpdated(items[i])
    {
      if !IsObjectId(id) {
        return InvalidCartId;
      }
      var found := CartItemById(items, id);
      if found.None? {
        return CartItemNotFound;
      }
      var i := found.value;
      var item := items[i].(product := product, quantity := quantity);
      UpdateDistinct(items, i, item, CartId);
      items := items[i := item];
      reply := QuantityUpdated(item);
    }

    /** `deleteCartItem` (shoppingcartController.js:131-166). */
    method DeleteCartItem(id: string) returns (reply: CartReply)
      requires Valid()
      modifies this
      ensures Valid()
      ensures !IsObjectId(id) ==> reply == InvalidCartId && items == old(items)
      ensures IsObjectId(id) && CartItemById(old(items), id).None? ==> reply == CartItemNotFound && items == old(items)
      ensures IsObjectId(id) && CartItemById(old(items), id).Some? ==>
              && reply == CartItemDeleted
              && items == RemoveAt(old(items), CartItemById(old(items), id).value)
              && forall x :: x in items <==> x in old(items) && !SameId(x.id, id)
      ensures Distinct(old(items), CartPair) ==> Distinct(items, CartPair)
    {
      if !IsObjectId(id) {
        return InvalidCartId;
      }
      var found := CartItemById(items, id);
      if found.None? {
        return CartItemNotFound;
      }
      var i := found.value;
      RemoveAtDistinct(items, i, CartId);
      if Distinct(items, CartPair) {
        RemoveAtDistinct(items, i, CartPair);
      }
      items := RemoveAt(items, i);
      reply := CartItemDeleted;
    }

    /** `deleteAllCartItem` (shoppingcartController.js:170-186): empty one owner's cart. */
    method DeleteAllCartItem(email: string) returns (reply: CartReply)
      requires Valid()
      modifies this
      ensures Valid()
      ensures reply == CartCleared
      ensures items == Filter(old(items), (c: CartItem) => c.email != email)
      ensures forall x :: x in items <==> x in old(items) && x.email != email
    {
      FilterDistinct(items, (c: CartItem) => c.email != email, CartId);
      ghost var before := items;
      items := Filter(items, (c: CartItem) => c.email != email);
      forall j | 0 <= j < |items|
        ensures IsObjectId(items[j].id)
      {
        assert items[j] in before;
      }
      reply := CartCleared;
    }
  }
}
