/**
 * The wishlist, as backend/controllers/wishlistController.js keeps it: one
 * collection of (product, e-mail) entries. Adding refuses a second entry for
 * the same pair; deleting goes by entry id after the 24-hex id check and
 * reports success whether or not an entry had that id.
 */
module Wishlists {
  import opened Common
  import opened ObjectIds

  datatype WishItem = WishItem(id: string, product: string, email: string)

  /** An entry's id, and its (product, e-mail) pair, as the database compares them. */
  function WishId(w: WishItem): string { CanonicalId(w.id) }
  function WishPair(w: WishItem): (string, string) { (CanonicalId(w.product), w.email) }

  datatype WishReply =
    | ProductRequired
    | EmailRequired
    | AlreadyWished
    | Wished(item: WishItem)
    | NoWishlistFound
    | WishlistFound(items: seq<WishItem>)
    | InvalidWishlistId
    | WishDeleted
  {
    function Status(): nat
    {
      match this
      case ProductRequired => 400
      case EmailRequired => 400
      case AlreadyWished => 200
      case Wished(_) => 201
      case NoWishlistFound => 404
      case WishlistFound(_) => 200
      case InvalidWishlistId => 400
      case WishDeleted => 200
    }

    function Message(): string
    {
      match this
      case ProductRequired => "Product is required"
      case EmailRequired => "Email is required"
      case AlreadyWished => "This item is already added"
      case Wished(_) => "Wishlist entry added successfully"
      case NoWishlistFound => "No wishlist details found for this email"
      case WishlistFound(_) => "wishlist details retrieved successfully"
      case InvalidWishlistId => "Invalid wishlist item ID"
      case WishDeleted => "Wishlist item deleted successfully"
    }
  }

  /** `Wishlist.findOne({ product: { $eq: product }, email: { $eq: email } })`; `product` is an ObjectId reference. */
  function WishFor(items: seq<WishItem>, product: string, email: string): Option<nat>
  {
    FirstIndex(items, (w: WishItem) => SameId(w.product, product) && w.email == email)
  }

  function WishById(items: seq<WishItem>, id: string): Option<nat>
  {
    FirstIndex(items, (w: WishItem) => SameId(w.id, id))
  }

  /** `getWishlist` (wishlistController.js:52-77): the owner's entries, or 404 when there are none. */
  function GetWishlist(items: seq<WishItem>, email: string): (r: WishReply)
    ensures r == NoWishlistFound <==> forall j :: 0 <= j < |items| ==> items[j].email != email
    ensures r != NoWishlistFound ==> r.WishlistFound? && r.items != []
    ensures r.WishlistFound? ==> forall x :: x in r.items <==> x in items && x.email == email
    ensures r.WishlistFound? ==> forall x :: multiset(r.items)[x] == if x.email == email then multiset(items)[x] else 0
  {
    var mine := Filter(items, (w: WishItem) => w.email == email);
    if mine == [] then
      assert forall j :: 0 <= j < |items| ==> items[j] !in mine;
      NoWishlistFound
    else
      assert mine[0] in mine;
      WishlistFound(mine)
  }

  class Wishlist {
    var items: seq<WishItem>

    /** No two entries have the same id, and every stored id is a rendered ObjectId. */
    ghost predicate Valid()
      reads this
    {
      && Distinct(items, WishId)
      && forall j :: 0 <= j < |items| ==> IsObjectId(items[j].id)
    }

    constructor ()
      ensures Valid() && items == []
    {
      items := [];
    }

    /** `addToWishlist` (wishlistController.js:5-48); `newId` is the id the database assigns. */
    method AddToWishlist(product: string, email: string, newId: string) returns (reply: WishReply)
      requires Valid()
      requires IsObjectId(newId) && forall j :: 0 <= j < |items| ==> !SameId(items[j].id, newId)
      modifies this
      ensures Valid()
      ensures product == "" ==> reply == ProductRequired && items == old(items)
      ensures product != "" && email == "" ==> reply == EmailRequired && items == old(items)
      ensures product != "" && email != "" && WishFor(old(items), product, email).Some?
              ==> reply == AlreadyWished && items == old(items)
      ensures reply.Wished? <==> product != "" && email != "" && WishFor(old(items), product, email).None?
      ensures reply.Wished? ==> reply.item == WishItem(newId, product, email) && items == old(items) + [reply.item]
      // at most one entry per (product, e-mail) pair
      ensures Distinct(old(items), WishPair) ==> Distinct(items, WishPair)
    {
      if product == "" {
        return ProductRequired;
      }
      if email == "" {
        return EmailRequired;
      }
      if WishFor(items, product, email).Some? {
        return AlreadyWished;
      }
      var item := WishItem(newId, product, email);
      AppendDistinct(items, item, WishId);
      if Distinct(items, WishPair) {
        AppendDistinct(items, item, WishPair);
      }
      items := items + [item];
      reply := Wished(item);
    }

    /**
     * `deleteWishlistItem` (wishlistController.js:80-107): a well-formed id
     * always gets 200, and at most the entry with that id goes.
     */
    method DeleteWishlistItem(id: string) returns (reply: WishReply)
      requires Valid()
      modifies this
      ensures Valid()
      ensures !IsObjectId(id) ==> reply == InvalidWishlistId && items == old(items)
      ensures IsObjectId(id) ==> reply == WishDeleted
      ensures IsObjectId(id) && WishById(old(items), id).None? ==> items == old(items)
      ensures IsObjectId(id) && WishById(old(items), id).Some? ==>
              items == RemoveAt(old(items), WishById(old(items), id).value)
      ensures IsObjectId(id) ==> forall x :: x in items <==> x in old(items) && !SameId(x.id, id)
      ensures Distinct(old(items), WishPair) ==> Distinct(items, WishPair)
    {
      if !IsObjectId(id) {
        return InvalidWishlistId;
      }
      var found := WishById(items, id);
      if found.Some? {
        var i := found.value;
        RemoveAtDistinct(items, i, WishId);
        if Distinct(items, WishPair) {
          RemoveAtDistinct(items, i, WishPair);
        }
        items := RemoveAt(items, i);
      }
      reply := WishDeleted;
    }
  }
}
