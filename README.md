# Accounts, password reset and keyed collections of a marketplace backend

This project models the behavioural core of an e-commerce marketplace backend.
It covers two parts.

- **Accounts.** The Express handlers in `backend/controllers/AuthController.js`:
  user registration, profile update, login against two collections (users,
  then shops) and the two-step password reset. The reset is a per-user state
  machine `NoToken → Pending(digest, expiry) → NoToken`.
- **Keyed collections.** Cart, wishlist and category handlers. Adding a cart
  entry, a wishlist entry or a category first checks for a duplicate. Updates
  and deletes go by document id.
  - The cart and wishlist handlers check the id against the 24-hex format
    first. The category handlers do not.
  - Cart update and delete, and category update and delete, answer 404 when
    no document has the id. Wishlist delete answers 200 either way.

## How the model is built

- **Collections.** A database collection is a `seq` of records in natural
  (insertion) order. A `findOne` query returns the first matching record, and
  `Common.FirstIndex` models it. A `find` query returns every match, and
  `Common.Filter` models it. Each controller module has a class holding its
  collection as a field (`AccountStore`, `Cart`, `Wishlist`, `CategoryStore`).
  Its methods rewrite that field in place. `Valid()` says that document ids are
  unique.
- **Accounts as functions.** Each accounts handler is also a pure function from
  the old users collection and the request to a `Step(reply, users)`. The
  lemmas (single use, strict expiry, login after reset, and so on) are proved
  about these functions. Each `AccountStore` method is proved to produce
  exactly its function's `Step`. Login only reads, so it is a function alone.
- **Libraries.** The libraries the handlers call are function values:
  - bcrypt's `hash`/`compare`, the SHA-256 digest and zod's e-mail check are
    the fields of `Accounts.Lib`;
  - `slugify` is a constant of `CategoryStore`.

  `Accounts.Sound` assumes only two things: a password verifies against its own
  hash, and a hash is never empty. Nothing says a wrong password fails to
  verify.
- **Ids.** The database compares ids as ObjectIds, by the twelve bytes a hex
  string decodes to. So `"AB…"` and `"ab…"` name the same document.
  `ObjectIds.SameId` models that comparison, and every lookup by id uses it.
  So do the product references in the cart and wishlist duplicate checks.
  Document ids are unique in this sense. In the cart, wishlist and category
  classes, `Valid()` also says that every stored id passes the id check.
- **Parameters.** The clock, the random reset token and the id the database
  assigns to a new document are method and function parameters.
- **Request fields.** An absent, `null` or empty request field is the empty
  string, because the handlers' truthiness checks treat all three alike. A
  cart quantity of 0 counts as missing, as `!quantity` does. The reset token
  is an `Option`: a request without a token string makes the digest call
  throw, and the handler answers 500.
- **Reset fields.** A user's two reset fields (`resetTokenHash`,
  `resetTokenExp`) are one `ResetToken` value. Every handler sets both
  together or clears both together.
- **Clearing a token.** The model takes the reset handler's clearing write
  (`undefined` for both fields, AuthController.js:613-614) to clear the token.
  Whether the ODM really drops the keys or stores them depends on its version,
  which is not part of this model.
- **The `role` default.** Registration does not set `role`. The model gives a
  new user role 0 (end user), the schema default the handler relies on. The
  user schema is not part of this model.
- **Unique e-mails.** The user schema is not part of this model, so the model
  cannot tell whether e-mails carry a unique index. Profile update never checks
  that a new e-mail is free, so `UniqueEmails` is not a class invariant. It is
  a hypothesis of the reset and login lemmas. Registration, reset request and
  reset redemption preserve it. `ProfileUpdateCanDuplicateEmail` shows that
  profile update may not.

## Model

| member | source | states |
|---|---|---|
| `Common.FirstIndex` | backend/controllers/AuthController.js:231 | `findOne`: the result, if any, is the first record that matches; None exactly when no record matches |
| `Common.Filter` | backend/controllers/shoppingcartController.js:56 | `find`: each matching record appears as many times as in the collection, and no other record appears |
| `Common.Or` | backend/controllers/AuthController.js:121-126 | JavaScript's `a \|\| b` on strings: gives `a` when it is non-empty, otherwise `b` |
| `Common.RemoveAtDistinct` | backend/controllers/shoppingcartController.js:145 | deleting the record found by id from a collection with unique keys removes exactly the records with that key, and the keys stay unique |
| `Common.FilterDistinct` | backend/controllers/shoppingcartController.js:173 | a bulk delete keeps unique keys unique |
| `ObjectIds.IsObjectId` | backend/controllers/shoppingcartController.js:93 | `/^[0-9a-fA-F]{24}$/`, the one id-format check the handlers share (also AuthController.js:88 and wishlistController.js:86): exactly 24 characters, each a decimal digit or a letter a-f in either case |
| `ObjectIds.IsObjectIdMatchesRegex` | backend/controllers/shoppingcartController.js:93 | the check holds exactly when the string has 24 characters, each one of the 22 the character class lists |
| `ObjectIds.RenderedIdPasses` | backend/controllers/shoppingcartController.js:93 | every id the database renders (12 bytes as 24 lower-case hex digits) passes `/^[0-9a-fA-F]{24}$/` |
| `ObjectIds.DecodeEncode` | backend/controllers/wishlistController.js:86 | decoding the hex rendering of a byte string gives back the bytes |
| `ObjectIds.EncodeDecode` | backend/controllers/wishlistController.js:86 | rendering a decoded hex string gives back the string with its letters in lower case |
| `ObjectIds.PassingIdIsRendering` | backend/controllers/AuthController.js:88 | a string that passes the id check is the rendering of a 12-byte id, up to letter case |
| `ObjectIds.CanonicalId` | backend/controllers/shoppingcartController.js:101 | the form in which a lookup compares an id string: a well-formed id stands for the lower-case rendering of the bytes it decodes to, and is itself well formed; any other string is kept as it is |
| `ObjectIds.SameIdIsSameBytes` | backend/controllers/shoppingcartController.js:101 | two well-formed ids name the same document exactly when they decode to the same twelve bytes |
| `ObjectIds.SameIdIgnoresCase` | backend/controllers/shoppingcartController.js:101 | a well-formed id and its lower-case form name the same document |
| `Accounts.MissingField` | backend/controllers/AuthController.js:24-29 | registration checks fullname, email, dob, phone, address, password in that order; the result is an empty field with every earlier field present; None only when all six are present |
| `Accounts.Registration` | backend/controllers/AuthController.js:24-67 | a missing field gives 400 naming it; an e-mail some user holds gives 409; both leave the users unchanged; otherwise exactly one user is appended, with the hashed password; the reply is a view without the password; shops are not consulted |
| `Accounts.RegistrationKeepsEmailsUnique` | backend/controllers/AuthController.js:32-54 | registration never gives two users the same e-mail |
| `Accounts.MergeProfile` | backend/controllers/AuthController.js:114-127 | an empty field keeps its stored value and a non-empty one replaces it; the password changes only when a new one is given, and then to its hash; id, role, preference and reset state are kept |
| `Accounts.MergeIdempotent` | backend/controllers/AuthController.js:118-127 | for a request without a new password, merging it twice writes what merging it once does |
| `Accounts.ProfileUpdate` | backend/controllers/AuthController.js:85-135 | in order: a non-24-hex id gives 400; an unknown id gives 404; a given password shorter than 8 gives 400; all three leave the users unchanged; otherwise only the found user changes, to the merge; the ids of all users are kept |
| `Accounts.ProfileUpdateCanDuplicateEmail` | backend/controllers/AuthController.js:118-127 | a request for an e-mail another user holds succeeds, and leaves two users with that e-mail, because the handler does not check |
| `Accounts.LoginInputValid` | backend/controllers/AuthController.js:214-217 | `loginSchema`: an e-mail that zod's format check accepts, and a password of at least 8 characters |
| `Accounts.VerifiedUser` | backend/controllers/AuthController.js:231-234 | the user login accepts is the first user with the e-mail, and only when the password verifies against its hash |
| `Accounts.VerifiedShop` | backend/controllers/AuthController.js:251-253 | the shop login accepts is the first shop with the e-mail, and only when the password verifies against its hash |
| `Accounts.Login` | backend/controllers/AuthController.js:214-271 | invalid input (not an e-mail, or a password under 8) gives 400 whatever the collections hold; any login is an account with that e-mail whose password verifies; a verified user wins over any shop; with no verified user a verified shop logs in with role 2; the token carries only id and role with a 7-day lifetime; every other failure is the one generic reply |
| `Accounts.LoginDoesNotEnumerate` | backend/controllers/AuthController.js:250-271 | an e-mail no account holds and a known e-mail with a wrong password get the identical reply, 400 "Invalid email or password" |
| `Accounts.RegisteredUserLogsIn` | backend/controllers/AuthController.js:231-246 | a newly registered user logs in with the registered password as an end user (role 0), with a token for the new id |
| `Accounts.ResetRequest` | backend/controllers/AuthController.js:551-562 | an unknown e-mail writes nothing; otherwise only the first user with it changes, to a pending token holding the digest of the raw token and an expiry 30 minutes ahead, replacing any earlier token |
| `Accounts.ResetRequestKeepsEmailsUnique` | backend/controllers/AuthController.js:559-562 | a reset request keeps the number of users and every user's e-mail; so unique e-mails stay unique |
| `Accounts.ResetRedemption` | backend/controllers/AuthController.js:588-615 | checks on the request come before the store is read: a password shorter than 8 gives 400, then a confirmation mismatch gives 400, then a missing token string gives 500; success exactly when some user has the e-mail, the token's digest and an expiry strictly after now; once the checks on the request pass, every failure is the one 400 "Invalid or expired token"; success writes the new password's hash and clears the token; every failure leaves the users unchanged |
| `Accounts.ResetDoesNotEnumerate` | backend/controllers/AuthController.js:600-607 | an unknown e-mail, a missing or different stored digest, and an expired token all get the same reply, with nothing written |
| `Accounts.ResetRedemptionKeepsEmailsUnique` | backend/controllers/AuthController.js:611-615 | a redemption keeps the number of users and every user's e-mail; so unique e-mails stay unique |
| `Accounts.RedemptionIsSingleUse` | backend/controllers/AuthController.js:600-615 | after a successful redemption, the same request fails with "Invalid or expired token" at any later time |
| `Accounts.RedeemSucceedsOnlyBeforeExpiry` | backend/controllers/AuthController.js:559-604 | after a request for a registered e-mail, redeeming its token succeeds exactly when done strictly less than 30 minutes after the request |
| `Accounts.LaterRequestSupersedes` | backend/controllers/AuthController.js:559-562 | a second request replaces the pending token: the first token no longer redeems |
| `Accounts.ResetPasswordLogsIn` | backend/controllers/AuthController.js:610-615 | after a successful reset, login with the new password succeeds as that user, whose token is cleared |
| `Accounts.AccountStore.RegisterUser` | backend/controllers/AuthController.js:12-77 | the store's users become exactly those registration gives, with that reply; ids stay unique |
| `Accounts.AccountStore.UpdateUserProfile` | backend/controllers/AuthController.js:82-144 | the store's users become exactly those profile update gives, with that reply; ids stay unique |
| `Accounts.AccountStore.RequestPasswordReset` | backend/controllers/AuthController.js:547-584 | the users become those of the reset request; the reply is the same 200 body for known and unknown e-mails; the raw token leaves only in the mail handed to the mailer, and only for a known e-mail |
| `Accounts.AccountStore.PerformPasswordReset` | backend/controllers/AuthController.js:586-624 | the store's users become exactly those redemption gives, with that reply; ids stay unique |
| `ShoppingCart.GetCart` | backend/controllers/shoppingcartController.js:52-69 | 404 exactly when no entry has the e-mail; otherwise the reply holds each entry with that e-mail as often as it is stored, and no other entry |
| `ShoppingCart.Cart.AddToCart` | backend/controllers/shoppingcartController.js:6-37 | a missing product, quantity (0 counts as missing) or e-mail, checked in that order, gives a message and no insert; an existing entry with the same product id (as an ObjectId, so letter case does not matter) and e-mail gives `success:false` and no change; otherwise exactly one entry is appended (201); at most one entry per (product, e-mail) is preserved |
| `ShoppingCart.Cart.UpdateCartItemQuantity` | backend/controllers/shoppingcartController.js:85-118 | a non-24-hex id gives 400, and an id naming no entry (letter case aside) gives 404, both unchanged; otherwise only the entry it names has its product and quantity replaced |
| `ShoppingCart.Cart.DeleteCartItem` | backend/controllers/shoppingcartController.js:131-157 | a non-24-hex id gives 400, and an id naming no entry (letter case aside) gives 404, both unchanged; otherwise exactly the entry it names is removed |
| `ShoppingCart.Cart.DeleteAllCartItem` | backend/controllers/shoppingcartController.js:170-177 | removes every entry with the e-mail, keeps every other entry, and replies 200 |
| `Wishlists.GetWishlist` | backend/controllers/wishlistController.js:52-66 | 404 exactly when no entry has the e-mail; otherwise the reply holds each entry with that e-mail as often as it is stored, and no other entry |
| `Wishlists.Wishlist.AddToWishlist` | backend/controllers/wishlistController.js:5-37 | a missing product gives 400, then a missing e-mail gives 400, neither inserting; an existing entry with the same product id (letter case aside) and e-mail gives `success:false` and no change; otherwise exactly one entry is appended (201); pair uniqueness is preserved |
| `Wishlists.Wishlist.DeleteWishlistItem` | backend/controllers/wishlistController.js:80-98 | a non-24-hex id gives 400 and no change; any well-formed id gives 200, removes the entry it names (letter case aside) if there is one, and keeps every other entry |
| `Categories.SingleCategory` | backend/controllers/categoryController.js:111-128 | 404 exactly when no category has that exact slug; otherwise a category with that slug |
| `Categories.NameValid` | backend/controllers/categoryController.js:6-8 | `categorySchema`: the name is accepted exactly when it is not empty |
| `Categories.CategoryStore.CreateCategory` | backend/controllers/categoryController.js:6-39 | an empty name gives 400; a name equal to an existing one gives 409; both unchanged; otherwise one category with that name and `slugify(name)` is appended (201); names stay unique |
| `Categories.CategoryStore.UpdateCategory` | backend/controllers/categoryController.js:51-79 | an empty name gives 400, and an id naming no category (letter case aside) gives 404, both unchanged; otherwise only the named category's name and slug are replaced, its id kept; other names are not consulted |
| `Categories.CategoryStore.DeleteCategory` | backend/controllers/categoryController.js:141-157 | an id naming no category (letter case aside) gives 404, unchanged; otherwise exactly the category it names is removed |

## Left out

- Hashing, digests, the e-mail format check and `slugify` are library calls. They are function values, as described above. bcrypt's salting and its 72-byte truncation are not modelled.
- JWT signing (AuthController.js:235-239, 255-259) is not modelled. A token is its claims: subject id, role and the 7-day lifetime. The signature, the secret and the issued-at time are left out.
- Sending the reset e-mail, building the reset URL from the environment, and logging are I/O. The mail is an out-parameter naming the address and the raw token. The handler catches a failed send (AuthController.js:568-573), so no failure is modelled.
- Infrastructure failures answer 500: a database error, or a hash that throws. They are not modelled, except for a reset request without a token string.
- An id or product value the ODM cannot cast to an ObjectId makes the query throw, and the handler answers 500. The model compares such a string exactly and does not model the 500.
  - Category update and delete with such an id: the model gives 404. Each class's `Valid()` says that every stored id passes the id check, and the id given to each insert must pass it.
  - A cart or wishlist add with such a product: the model stores the value and answers 201, or `success:false` when the same value is already stored with that e-mail. The source answers 500 both times.
- The ODM also casts a 12-character string to the ObjectId made of its 12 character codes. The model compares a 12-character string exactly. Only category update and delete, and product references, can receive one, because the 24-hex check rejects it elsewhere.
- `Cart.findByIdAndUpdate` with an absent `product` or `quantity` may drop the field or store it as null, depending on the ODM version. The model writes the values given.
- `populate` in `getCart` and `getWishlist` replaces product ids by product documents from another collection. The model returns the entries with their product ids.
- `mongo-sanitize` is the identity on strings. Request values that are objects or numbers where strings are expected are not modelled.
- Login's 400 reply for invalid input carries zod's list of errors. The model gives `LoginInputRejected` without the list.
- String lengths are counted in Dafny characters. JavaScript counts UTF-16 code units, so the two differ outside the Basic Multilingual Plane.
- Find-then-write races between concurrent requests, in cart and wishlist deduplication and in reset redemption, are not modelled. They are a concurrency matter: each handler is one atomic step.
- `categoryController` (list all categories) returns the whole collection, so there is nothing to state about it.
- Not part of this model: `shopRegisterController`, the shop, event, product, promotion and lost-and-found handlers, the aggregation and count endpoints, OAuth login, rate limiting, server start-up and the front end.
- `updateShopProfileController`, `deleteUserProfileController` and `deleteShopProfileController` call `mongoose.Types.ObjectId.isValid`, but `mongoose` is never imported. They can only answer 500, so they are not modelled as working handlers.
- MergeIdempotent: states idempotence only for a request without a new password. bcrypt salts each hash afresh, so the same new password merged twice stores two different hashes, while the model's `hash` is a function.
- Categories.SingleCategory: states that the category found has the slug asked for. It does not state that it is the first such category in natural order.
- ShoppingCart.Cart.UpdateCartItemQuantity: gives no pair-uniqueness guarantee, because the handler does not check pairs. An update can give two entries the same (product, e-mail).
- Categories.CategoryStore.UpdateCategory: gives no name-uniqueness guarantee, because the handler does not check names.
