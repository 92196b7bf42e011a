/**
 * The shop context as a whole: the cart and the session token held in
 * memory, and browser storage, which the context's effects keep in step
 * with them. Each operation returns the state after its effects have run.
 */
module ShopState {
  import opened Wrappers
  import opened ShopCart

  /** What storage holds under `cartItems`: a cart JSON parses back to, or text it cannot parse. */
  datatype SavedCart = Parsed(cart: Cart) | Unparseable

  /**
   * Browser storage. Plain string keys (`userToken`, the `accessToken` the
   * login page writes, and the `userId` the product page reads but no page
   * writes) live in `strings`; the `cartItems` key is kept apart because its
   * JSON encoding is not modelled.
   */
  datatype Storage = Storage(strings: map<string, string>, cartItems: Option<SavedCart>)

  const UserTokenKey: string := "userToken"

  /** `localStorage.getItem(key)` for a plain string key; `None` is `null`. */
  function GetItem(st: Storage, key: string): Option<string> {
    if key in st.strings then Some(st.strings[key]) else None
  }

  /** JavaScript truthiness of a string-or-null value. */
  predicate Truthy(value: Option<string>) {
    value.Some? && value.value != ""
  }

  /** The stored token key tracks the in-memory token: present and equal when it is truthy, absent otherwise. */
  ghost predicate Mirrored(token: Option<string>, st: Storage) {
    if Truthy(token) then GetItem(st, UserTokenKey) == token else UserTokenKey !in st.strings
  }

  /** Two storages that agree on every plain key except the token key, and on the cart key. */
  ghost predicate SameExceptToken(a: Storage, b: Storage) {
    && a.cartItems == b.cartItems
    && (forall k :: k != UserTokenKey ==> (k in a.strings <==> k in b.strings))
    && (forall k :: k in a.strings && k != UserTokenKey ==> a.strings[k] == b.strings[k])
  }

  // ---------------------------------------------------------------------------
  // The cart key

  /** The initial cart: the saved cart, or `{}` when nothing is saved or it does not parse. */
  function LoadCart(st: Storage): (cart: Cart)
    ensures cart != map[] ==> st.cartItems == Some(Parsed(cart))
  {
    match st.cartItems
    case Some(Parsed(saved)) => saved
    case _ => map[]
  }

  /** The effect on every cart change: `setItem("cartItems", JSON.stringify(cart))`. */
  function SaveCart(st: Storage, cart: Cart): (r: Storage)
    ensures LoadCart(r) == cart
    ensures r.strings == st.strings
  {
    st.(cartItems := Some(Parsed(cart)))
  }

  // ---------------------------------------------------------------------------
  // The token key

  /** The initial token: `getItem("userToken") || null`. */
  function LoadToken(st: Storage): (token: Option<string>)
    ensures token.Some? ==> Truthy(token) && GetItem(st, UserTokenKey) == token
    ensures token.None? ==> !Truthy(GetItem(st, UserTokenKey))
  {
    if Truthy(GetItem(st, UserTokenKey)) then GetItem(st, UserTokenKey) else None
  }

  /** The effect on every token change: store a truthy token, remove the key otherwise. */
  function SyncToken(st: Storage, token: Option<string>): (r: Storage)
    ensures Mirrored(token, r)
    ensures SameExceptToken(st, r)
    ensures LoadToken(r) == if Truthy(token) then token else None
  {
    if Truthy(token) then st.(strings := st.strings[UserTokenKey := token.value])
    else st.(strings := st.strings - {UserTokenKey})
  }

  // ---------------------------------------------------------------------------
  // The context state

  datatype Shop = Shop(cart: Cart, token: Option<string>, storage: Storage)

  /** Storage mirrors memory: the saved cart loads back as the cart, and the token key tracks the token. */
  ghost predicate Consistent(shop: Shop) {
    LoadCart(shop.storage) == shop.cart && Mirrored(shop.token, shop.storage)
  }

  /** Mounting the provider: state is read from storage, then both effects run once. */
  function Mount(st: Storage): (shop: Shop)
    ensures Consistent(shop)
    ensures shop.cart == LoadCart(st) && shop.token == LoadToken(st)
    ensures forall k :: k in st.strings && k != UserTokenKey ==> k in shop.storage.strings && shop.storage.strings[k] == st.strings[k]
  {
    var cart := LoadCart(st);
    var token := LoadToken(st);
    Shop(cart, token, SyncToken(SaveCart(st, cart), token))
  }

  /** A new cart value, followed by the cart effect. */
  function Commit(shop: Shop, cart: Cart): (r: Shop)
    ensures Consistent(shop) ==> Consistent(r)
    ensures r.cart == cart && r.token == shop.token && r.storage.strings == shop.storage.strings
  {
    shop.(cart := cart, storage := SaveCart(shop.storage, cart))
  }

  /** `addToCart`: a refused (empty) size changes nothing, not even storage. */
  function AddItem(shop: Shop, id: string, size: string): (r: Shop)
    ensures Consistent(shop) ==> Consistent(r)
    ensures r.cart == AddToCart(shop.cart, id, size) && r.token == shop.token
    ensures r.storage.strings == shop.storage.strings
    ensures size == "" ==> r == shop
  {
    if size == "" then shop else Commit(shop, AddToCart(shop.cart, id, size))
  }

  /** `removeFromCart`: the state is only set when the entry is removable. */
  function RemoveItem(shop: Shop, id: string, size: string): (r: Shop)
    ensures Consistent(shop) ==> Consistent(r)
    ensures r.cart == RemoveFromCart(shop.cart, id, size) && r.token == shop.token
    ensures r.storage.strings == shop.storage.strings
    ensures !Removable(shop.cart, id, size) ==> r == shop
  {
    if Removable(shop.cart, id, size) then Commit(shop, RemoveFromCart(shop.cart, id, size)) else shop
  }

  /** `updateQuantity`: a quantity of 0 or less goes through `removeFromCart`. */
  function UpdateItem(shop: Shop, id: string, size: string, quantity: int): (r: Shop)
    ensures Consistent(shop) ==> Consistent(r)
    ensures r.cart == UpdateQuantity(shop.cart, id, size, quantity) && r.token == shop.token
    ensures r.storage.strings == shop.storage.strings
  {
    if quantity <= 0 then RemoveItem(shop, id, size)
    else Commit(shop, UpdateQuantity(shop.cart, id, size, quantity))
  }

  /**
   * `clearCart`: the cart becomes `{}` and the key is removed; the cart effect
   * then fires for the new `{}` value and stores it again.
   */
  function Clear(shop: Shop): (r: Shop)
    ensures Consistent(shop) ==> Consistent(r)
    ensures r.cart == map[] && r.token == shop.token
    ensures r.storage.cartItems == Some(Parsed(map[]))
    ensures r.storage.strings == shop.storage.strings
  {
    var removed := shop.storage.(cartItems := None);
    shop.(cart := ClearCart(), storage := SaveCart(removed, ClearCart()))
  }

  /** `login(token)`: the token is taken as given, then mirrored into storage. */
  function Login(shop: Shop, token: string): (r: Shop)
    ensures Consistent(shop) ==> Consistent(r)
    ensures r.token == Some(token) && r.cart == shop.cart
    ensures token != "" ==> GetItem(r.storage, UserTokenKey) == Some(token)
    ensures token == "" ==> UserTokenKey !in r.storage.strings
    ensures SameExceptToken(shop.storage, r.storage)
  {
    shop.(token := Some(token), storage := SyncToken(shop.storage, Some(token)))
  }

  /** `logout()`: the token becomes null and the key is removed, directly and again by the effect. */
  function Logout(shop: Shop): (r: Shop)
    ensures Consistent(shop) ==> Consistent(r)
    ensures r.token == None && UserTokenKey !in r.storage.strings && r.cart == shop.cart
    ensures SameExceptToken(shop.storage, r.storage)
  {
    var removed := shop.storage.(strings := shop.storage.strings - {UserTokenKey});
    shop.(token := None, storage := SyncToken(removed, None))
  }

  /** Logging in and then out leaves no token in memory or in storage, and the cart as it was. */
  lemma LoginThenLogout(shop: Shop, token: string)
    ensures var r := Logout(Login(shop, token));
      r.token == None && LoadToken(r.storage) == None && r.cart == shop.cart
  {
  }

  /** The stored token survives a reload: mounting on the storage a consistent state left behind restores it. */
  lemma TokenSurvivesReload(shop: Shop)
    requires Consistent(shop)
    ensures Mount(shop.storage).token == (if Truthy(shop.token) then shop.token else None)
    ensures Mount(shop.storage).cart == shop.cart
  {
  }

  // ---------------------------------------------------------------------------
  // Any sequence of user actions keeps memory, storage and the cart invariant in step.

  datatype Action =
    | Add(id: string, size: string)
    | Remove(id: string, size: string)
    | Update(id: string, size: string, quantity: int)
    | ClearAll
    | LogIn(token: string)
    | LogOut

  function Step(shop: Shop, action: Action): Shop {
    match action
    case Add(id, size) => AddItem(shop, id, size)
    case Remove(id, size) => RemoveItem(shop, id, size)
    case Update(id, size, quantity) => UpdateItem(shop, id, size, quantity)
    case ClearAll => Clear(shop)
    case LogIn(token) => Login(shop, token)
    case LogOut => Logout(shop)
  }

  function Run(shop: Shop, actions: seq<Action>): Shop
    decreases |actions|
  {
    if actions == [] then shop else Run(Step(shop, actions[0]), actions[1..])
  }

  lemma StepPreserves(shop: Shop, action: Action)
    requires Consistent(shop) && WellFormed(shop.cart)
    ensures Consistent(Step(shop, action)) && WellFormed(Step(shop, action).cart)
  {
    match action
    case Remove(id, size) => RemovePreservesWellFormed(shop.cart, id, size);
    case Update(id, size, quantity) => UpdatePreservesWellFormed(shop.cart, id, size, quantity);
    case _ =>
  }

  /** After any sequence of actions from a consistent, well-formed state, both properties still hold. */
  lemma {:induction false} RunPreserves(shop: Shop, actions: seq<Action>)
    requires Consistent(shop) && WellFormed(shop.cart)
    ensures Consistent(Run(shop, actions)) && WellFormed(Run(shop, actions).cart)
    decreases |actions|
  {
    if actions != [] {
      StepPreserves(shop, actions[0]);
      RunPreserves(Step(shop, actions[0]), actions[1..]);
    }
  }

  /** Logging in with "abc" and then out leaves the token key absent and the token null. */
  lemma ScenarioLoginLogout(shop: Shop)
    ensures var r := Run(shop, [LogIn("abc"), LogOut]);
      r.token == None && GetItem(r.storage, UserTokenKey) == None
  {
  }
}
