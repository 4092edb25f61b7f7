/** The cart context around the reducer: the per-user snapshot in local
    storage, the effect that loads or clears the cart when the signed-in
    user changes, the effect that saves it, and `clearCart`. Each effect is
    a function applied in sequence after the state change that triggers it. */
module CartSession {
  import opened Wrappers
  import opened Cart

  /** Local storage, with the JSON encoding of a cart taken as exact. */
  type Storage = map<string, seq<Line>>

  /** The storage key of a user's cart: `cart_${uid}`. */
  function CartKey(uid: string): (k: string)
    ensures |k| == |uid| + 5 && k[..5] == "cart_" && k[5..] == uid
  {
    "cart_" + uid
  }

  /** Distinct users have distinct keys. */
  lemma CartKeyInjective(u: string, v: string)
    requires CartKey(u) == CartKey(v)
    ensures u == v
  {
    assert u == CartKey(u)[5..];
  }

  /** The signed-in user (by uid), the cart state and local storage. */
  datatype Session = Session(user: Option<string>, cart: State, storage: Storage)

  /** The effect on a user change: with a user, a saved snapshot replaces
      the items and no snapshot leaves them alone; without a user the cart
      is cleared. */
  function LoadEffect(user: Option<string>, storage: Storage, s: State): State {
    match user
    case Some(uid) =>
      if CartKey(uid) in storage then Reduce(s, LoadCart(storage[CartKey(uid)])) else s
    case None => Reduce(s, ClearCart)
  }

  /** The effect on an items or user change: a user with a non-empty cart
      has it written under their key; otherwise storage is untouched. */
  function SaveEffect(user: Option<string>, s: State, storage: Storage): Storage {
    if user.Some? && |s.items| > 0 then storage[CartKey(user.value) := s.items] else storage
  }

  /** A dispatch through the context, followed by the save effect: the
      user stays, the cart takes the action, a signed-in user's non-empty
      cart becomes their snapshot, and no other entry of storage moves. */
  function Dispatch(sess: Session, a: Action): (r: Session)
    ensures r.user == sess.user && r.cart == Reduce(sess.cart, a)
    ensures sess.user.Some? && |r.cart.items| > 0 ==>
      CartKey(sess.user.value) in r.storage && r.storage[CartKey(sess.user.value)] == r.cart.items
    ensures sess.user == None ==> r.storage == sess.storage
    ensures forall k :: k in sess.storage && (sess.user == None || k != CartKey(sess.user.value)) ==>
      k in r.storage && r.storage[k] == sess.storage[k]
    ensures forall k :: k in r.storage && (sess.user == None || k != CartKey(sess.user.value)) ==> k in sess.storage
  {
    var c := Reduce(sess.cart, a);
    Session(sess.user, c, SaveEffect(sess.user, c, sess.storage))
  }

  /** The signed-in user becomes `user`: the load effect, then the save
      effect on its result. Signing out empties the cart and leaves
      storage alone; signing in loads the user's snapshot when there is one
      and otherwise keeps the cart as it was. */
  function ChangeUser(sess: Session, user: Option<string>): (r: Session)
    ensures r.user == user
    ensures user == None ==> r.cart.items == [] && r.storage == sess.storage
    ensures user.Some? && CartKey(user.value) in sess.storage ==> r.cart.items == sess.storage[CartKey(user.value)]
    ensures user.Some? && CartKey(user.value) !in sess.storage ==> r.cart == sess.cart
    ensures user.Some? && |r.cart.items| > 0 ==>
      CartKey(user.value) in r.storage && r.storage[CartKey(user.value)] == r.cart.items
    ensures forall k :: k in sess.storage && (user == None || k != CartKey(user.value)) ==>
      k in r.storage && r.storage[k] == sess.storage[k]
  {
    var c := LoadEffect(user, sess.storage, sess.cart);
    Session(user, c, SaveEffect(user, c, sess.storage))
  }

  /** `clearCart`: empties the cart and removes the user's snapshot. */
  function ClearCartCall(sess: Session): (r: Session)
    ensures r.cart.items == [] && TotalItems(r.cart.items) == 0 && TotalPrice(r.cart.items) == 0.0
    ensures r.user == sess.user
    ensures sess.user.Some? ==> CartKey(sess.user.value) !in r.storage
    ensures forall k :: k in r.storage ==> k in sess.storage && r.storage[k] == sess.storage[k]
    ensures forall k :: k in sess.storage && (sess.user == None || k != CartKey(sess.user.value)) ==> k in r.storage
  {
    var c := Reduce(sess.cart, ClearCart);
    var st := if sess.user.Some? then sess.storage - {CartKey(sess.user.value)} else sess.storage;
    Session(sess.user, c, SaveEffect(sess.user, c, st))
  }

  /** Storage changes only for a signed-in user with a non-empty cart, and
      then only under that user's key, which then holds the items. */
  lemma SaveOnlyWithUserAndItems(user: Option<string>, s: State, storage: Storage)
    ensures var st := SaveEffect(user, s, storage);
      && (st != storage ==> user.Some? && |s.items| > 0)
      && (user.Some? && |s.items| > 0 ==> CartKey(user.value) in st && st[CartKey(user.value)] == s.items)
      && (forall k :: k in storage && (user == None || k != CartKey(user.value)) ==> k in st && st[k] == storage[k])
  {
  }

  /** Signing out clears the cart and leaves storage as it was. */
  lemma SignOutClears(sess: Session)
    ensures ChangeUser(sess, None).cart == Empty
    ensures ChangeUser(sess, None).storage == sess.storage
  {
  }

  /** Signing in with a saved snapshot loads exactly that snapshot. */
  lemma SignInLoadsSnapshot(sess: Session, uid: string)
    requires CartKey(uid) in sess.storage
    ensures ChangeUser(sess, Some(uid)).cart.items == sess.storage[CartKey(uid)]
  {
  }

  /** A non-empty cart saved by a dispatch comes back unchanged when the
      same user signs out and in again. */
  lemma SaveThenReload(sess: Session, a: Action, uid: string)
    requires sess.user == Some(uid)
    requires |Dispatch(sess, a).cart.items| > 0
    ensures var saved := Dispatch(sess, a);
      ChangeUser(ChangeUser(saved, None), Some(uid)).cart == saved.cart
  {
  }

  /** After a sign-out, another user sees their own snapshot, or an empty
      cart when they have none: nothing of the first user's cart leaks. */
  lemma OtherUserAfterSignOut(sess: Session, uid: string)
    ensures var r := ChangeUser(ChangeUser(sess, None), Some(uid));
      r.cart.items == if CartKey(uid) in sess.storage then sess.storage[CartKey(uid)] else []
  {
  }

  /** A dispatch by one user never touches another user's snapshot. */
  lemma DispatchKeepsOtherUsers(sess: Session, a: Action, u: string, v: string)
    requires sess.user == Some(u) && u != v
    ensures var st := Dispatch(sess, a).storage;
      (CartKey(v) in st <==> CartKey(v) in sess.storage)
      && (CartKey(v) in st ==> st[CartKey(v)] == sess.storage[CartKey(v)])
  {
    if CartKey(v) == CartKey(u) {
      CartKeyInjective(u, v);
    }
  }

  /** When the user changes from one uid straight to another that has no
      snapshot, the load effect leaves the items alone, so the first user's
      items stay in the cart and are saved under the second user's key. */
  lemma DirectSwitchKeepsItems(sess: Session, v: string)
    requires sess.user.Some? && CartKey(v) !in sess.storage && |sess.cart.items| > 0
    ensures var r := ChangeUser(sess, Some(v));
      r.cart == sess.cart && r.storage[CartKey(v)] == sess.cart.items
  {
  }
}
