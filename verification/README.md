# Storefront and back office: a Dafny model of the client logic

This project models the client-side logic of a storefront that sells
merchandise and subscriptions to podcast-style audio content, together with
its administrators' back office. The application is a React client against a
hosted document database and a hosted payment widget. It models:

- the shopping cart: its reducer, its per-user snapshot in local storage, and
  the cart page's checkout with its order record and payment outcome;
- the shared validators (`utils/validation.js`) and helpers
  (`utils/helpers.js`);
- the three-step registration wizard, the route guard, the customer's
  "talk to us" page, the admin message page, and content access;
- the filters and forms of the admin pages (dashboard, orders, users,
  content, merchandise) and of the customer pages (profile, merchandise
  listing, content catalogue and player).

Each page's logic is a pure function over an immutable page state. A
collection of the document database is a `map` from document id to record
(`DocStore`). A value that a form field or a stored field can hold is a
`JsValue.Value`: missing, text, or number. JavaScript truthiness and the
`Number`, `parseInt` and `parseFloat` conversions are written out in
`JsValue` and `Numbers`, with `None` standing for `NaN`. Money and media
positions are `real`. Clocks, fresh document ids, random order-id suffixes
and upload results are parameters. Locale-dependent operations are
parameters too: case folding is a `fold: char -> char`, and `localeCompare`
is a `nameRank` function.

Behaviour worth knowing, as the code has it:

- A stored cart snapshot that is not valid JSON is not caught by the load
  effect (`src/contexts/CartContext.jsx:74`). The model takes the snapshot
  as already decoded.
- Signing in when there is no snapshot keeps whatever the cart held.
- Switching directly from one signed-in user to another carries the items
  over (`CartSession.DirectSwitchKeepsItems`). The next save then stores
  them under the new user's key.
- Adding an item that is already in the cart raises its quantity by one
  whatever the payload says. Nothing caps the quantity, not even the stock
  (`Cart.AddExisting`, `Cart.ContentQuantityIsNotCapped`).
- Checkout clears the cart only when the payment resolves with status
  `settlement` or `pending`. Closing the payment window and a payment error
  are both rejections that keep the cart.
- Typed text `"0"` is truthy. A price or age typed as `0` therefore gets the
  range message rather than the "required" message.

## Model

| member | source | states |
|---|---|---|
| Cart.Reduce | src/contexts/CartContext.jsx:6-56 | Adding puts the payload's id and type among the cart's keys and adds no other key. Removing takes exactly that key out. A quantity update keeps the keys and the length, and clearing leaves no key. |
| Cart.AddExisting | src/contexts/CartContext.jsx:9-19 | Adding an item whose id and type match a line raises every matching line's quantity by exactly one. Its other fields are kept, the payload's quantity is ignored, and every other line and the length stay as they were. |
| Cart.AddNew | src/contexts/CartContext.jsx:20-23 | Adding an item with no matching line appends it at the end with quantity 1. |
| Cart.RepeatedAdd | src/contexts/CartContext.jsx:8-23 | Adding the same new item `n` times gives one line with quantity `n` after the earlier lines, never `n` lines. |
| Cart.ContentQuantityIsNotCapped | src/contexts/CartContext.jsx:9-19 | Content, which is sold by subscription, reaches quantity 2 when added twice. The reducer does not hold it at one. |
| Cart.AddToQuantityThree | src/contexts/CartContext.jsx:9-19 | No stock cap applies: a line already at quantity 3 goes to 4, whatever the payload's quantity or stock. |
| Cart.RemoveExact | src/contexts/CartContext.jsx:25-29 | After removal no line matches the id and type. Every other line is still present, in its original order. |
| Cart.RemoveAbsent | src/contexts/CartContext.jsx:25-29 | Removing an id and type that no line has leaves the state unchanged. |
| Cart.RemoveIdempotent | src/contexts/CartContext.jsx:25-29 | Removing twice is the same as removing once. |
| Cart.UpdateOnlyQuantity | src/contexts/CartContext.jsx:31-39 | Setting a quantity keeps the length and every line's item fields. Matching lines take the new quantity and the other lines stay as they were. |
| Cart.LoadAndUnknown | src/contexts/CartContext.jsx:47-54 | Loading makes the items exactly the given snapshot. An unknown action leaves the state unchanged. |
| Cart.ReducePreservesNoDup | src/contexts/CartContext.jsx:6-56 | Every action except loading keeps the invariant that no two lines share an id and type. |
| Cart.LoadMayDuplicate | src/contexts/CartContext.jsx:47-51 | Counterpart of the invariant: loading does not check its snapshot, so a snapshot with a repeated item yields a cart with duplicate lines. |
| Cart.EffectivePrice | src/contexts/CartContext.jsx:110-117 | A line's unit price is the discount helper's price when a discount is present, and the base price when the discount is missing or 0. For a non-negative price and a discount in 0-100 it lies between 0 and the base price. |
| Cart.TotalItemsAppend | src/contexts/CartContext.jsx:119-121 | The item count of two carts joined is the sum of their counts. |
| Cart.TotalsAppend | src/contexts/CartContext.jsx:110-121 | The total price and the item count of two carts joined are the sums of theirs. |
| Cart.TotalOfOne | src/contexts/CartContext.jsx:110-121 | A one-line cart totals its unit price times its quantity, and counts its quantity. |
| Cart.ClearedTotals | src/contexts/CartContext.jsx:41-45 | After clearing, both the item count and the total price are zero. |
| Cart.TotalPriceNonNegative | src/contexts/CartContext.jsx:110-117 | With non-negative prices and quantities and discounts in 0-100, the total is never negative. |
| Cart.ExampleTotal | src/contexts/CartContext.jsx:110-117 | Worked instance: content at 50000 and two items of merchandise at 100000 with 10% off total 230000. |
| Cart.UpdateQuantityCall | src/contexts/CartContext.jsx:95-101 | The provider's `updateQuantity` removes the line when the new quantity is 0 or less. Otherwise it keeps the length, gives the matching lines the new quantity, and leaves every other line exactly as it was. |
| CartSession.CartKeyInjective | src/contexts/CartContext.jsx:72 | Distinct users get distinct storage keys, so one user's snapshot never overwrites another's. |
| CartSession.ClearCartCall | src/contexts/CartContext.jsx:103-108 | `clearCart` empties the cart (both totals zero), keeps the user, and removes the signed-in user's snapshot. Every other stored entry stays as it was. |
| CartSession.Dispatch | src/contexts/CartContext.jsx:81-85 | An action keeps the user. Afterwards a signed-in user's non-empty cart is their stored snapshot, a signed-out session leaves storage as it was, and no other stored entry changes or appears. |
| CartSession.ChangeUser | src/contexts/CartContext.jsx:70-85 | Signing out empties the cart and leaves storage as it was. Signing in loads the user's snapshot when there is one and otherwise keeps the cart. A non-empty cart is then stored under the user's key, and other keys keep their entries. |
| CartSession.SaveOnlyWithUserAndItems | src/contexts/CartContext.jsx:81-85 | The save effect changes storage only when someone is signed in and the cart is non-empty. It then stores exactly that cart under that user's key and keeps every other entry. |
| CartSession.SignOutClears | src/contexts/CartContext.jsx:70-79 | Signing out empties the cart and leaves storage untouched. |
| CartSession.SignInLoadsSnapshot | src/contexts/CartContext.jsx:70-75 | Signing in with a stored snapshot makes the cart's items that snapshot. |
| CartSession.SaveThenReload | src/contexts/CartContext.jsx:70-85 | After any action that leaves the cart non-empty, signing out and signing the same user back in restores that cart. |
| CartSession.OtherUserAfterSignOut | src/contexts/CartContext.jsx:70-79 | After a sign-out, the user who signs in sees their own snapshot or an empty cart, never the previous user's items. |
| CartSession.DispatchKeepsOtherUsers | src/contexts/CartContext.jsx:81-85 | An action and the save after it leave every other user's stored snapshot as it was, present or absent. |
| CartSession.DirectSwitchKeepsItems | src/contexts/CartContext.jsx:70-79 | Switching straight to a user with no snapshot keeps the previous user's cart, and the save then stores it under the new user's key. |
| CartItemView.FinalPriceIsEffectivePrice | src/components/customer/CartItem.jsx:9-11 | The unit price the cart line shows is the price the cart totals use. |
| CartItemView.QuantityControls | src/components/customer/CartItem.jsx:49-67 | Quantity buttons exist exactly for merchandise. Minus is enabled exactly above quantity 1, and plus exactly below the stock. |
| CartItemView.ContentOnlyRemovable | src/components/customer/CartItem.jsx:33-67 | A line that shows the subscription note has no quantity buttons. |
| CartItemView.RemoveClick | src/components/customer/CartItem.jsx:17-19 | After the remove button, no line matches the item's id and type, and every other line stays in its order. |
| CartItemView.EnabledClickStaysInRange | src/components/customer/CartItem.jsx:51-65 | From a quantity between 1 and the stock, an enabled button moves that line's quantity by one and keeps it between 1 and the stock. The line is never removed. |
| CartItemView.LineTotal | src/components/customer/CartItem.jsx:71 | The line total is the unit price times the quantity, or the unit price alone when the quantity is 0. |
| CartItemView.LineTotalIsCartShare | src/components/customer/CartItem.jsx:71 | A line with a non-zero quantity adds exactly its shown line total to the cart total. |
| Checkout.FinalTotal | src/pages/customer/Cart.jsx:19-21 | The amount charged is the subtotal plus 11% tax. It is never below a non-negative subtotal, and the difference is the tax. |
| Checkout.ExampleCheckoutTotal | src/pages/customer/Cart.jsx:19-21 | Worked instance: a subtotal of 230000 carries 25300 tax and is charged 255300. |
| Checkout.NameOrTitle | src/pages/customer/Cart.jsx:44 | An order line's name is the item's name when that is non-empty, and its title otherwise. |
| Checkout.QuantityOrOne | src/pages/customer/Cart.jsx:47 | An order line's quantity is the item's quantity, or 1 when that is 0. |
| Checkout.HandleCheckout | src/pages/customer/Cart.jsx:23-92 | Creating an order is attempted if and only if a signed-in user with a profile has an address. The order belongs to that user, carries the generated id and is for 111% of the cart total. A write the store refuses keeps the cart. The session is either kept or has its cart cleared. |
| Checkout.PreconditionsShortCircuit | src/pages/customer/Cart.jsx:24-34 | Without a user, a profile or an address, no order is created and no payment starts. The cart is untouched, and the shopper is sent to login (no user or profile) or to the profile (no address). |
| Checkout.OrderBeforePayment | src/pages/customer/Cart.jsx:80-82 | Payment starts if and only if user, profile and address are present and the order was created. Every payment effect is preceded by the order's creation. |
| Checkout.ClearedIffSettledOrPending | src/pages/customer/Cart.jsx:82-88 | The cart is cleared, and the clear effect issued, if and only if the order was placed and the payment resolved as `settlement` or `pending`. Otherwise the session is unchanged. |
| Checkout.CancelledPaymentKeepsCart | src/hooks/useMidtrans.js:44-47 | A closed payment window leaves the cart and its snapshot as they were. |
| Checkout.OrderSnapshot | src/pages/customer/Cart.jsx:38-55 | The order has one line per cart line with the same id, type and price, name-or-title, image, the discount when present and 0 when missing, and the quantity when non-zero and 1 when zero. Its total is the cart total plus 11%, both statuses are pending, and the generated id is both its `id` and its payment order id. |
| Checkout.RequestMatchesOrder | src/pages/customer/Cart.jsx:57-78 | The payment request carries the order's id and total amount, and its item list is parallel to the cart with the same ids and prices. |
| Checkout.ExampleOrderTotal | src/pages/customer/Cart.jsx:38-55 | Worked instance: the order for the 230000 cart records a total of 255300. |
| ContentAdmin.FilteredContent | src/components/admin/ContentManagement.jsx:31-34 | The list is a subsequence of the content. It holds exactly the items whose folded title or description contains the folded term. |
| ContentAdmin.HandleChange | src/components/admin/ContentManagement.jsx:36-51 | A typed value shows in its input, a ticked or cleared checkbox takes that state, and a chosen file fills its slot; every other input, checkbox and slot keeps its value. A file leaves the form unchanged, and a typed value leaves the chosen files unchanged. The input's message is cleared and every other message kept. |
| ContentAdmin.SameInputsSameForm | src/components/admin/ContentManagement.jsx:16-23 | Two content forms that agree on every typed input and checkbox are equal, so the handler's per-input statements fix the whole form. |
| ContentAdmin.ChoosingMediaKeepsMediaMessage | src/components/admin/ContentManagement.jsx:36-51 | Choosing an audio file keeps the "media" message that validation set, because only the input's own message is cleared. |
| ContentAdmin.CheckField | src/components/admin/ContentManagement.jsx:53-79 | Title, description and duration pass exactly when filled. The price passes exactly when free or accepted by the price validator. Media passes exactly when audio or video exists or was chosen. |
| ContentAdmin.ValidateForm | src/components/admin/ContentManagement.jsx:53-83 | The error map has an entry exactly for the fields whose check fails, holding that check's message. |
| ContentAdmin.ValidIff | src/components/admin/ContentManagement.jsx:53-83 | The form passes if and only if title, description and duration are filled, the price is valid when sold by subscription, and some media exists or was chosen. |
| ContentAdmin.ChecksPass | src/components/admin/ContentManagement.jsx:53-83 | The form passes if and only if each of the five field checks passes. |
| ContentAdmin.MediaUrl | src/components/admin/ContentManagement.jsx:100-122 | A media address is written exactly when a file was chosen or one is stored, and it is one of those two. |
| ContentAdmin.ContentDataOf | src/components/admin/ContentManagement.jsx:92-96 | The saved record takes the form's title, description and flags. Duration is read by `parseInt`, and the price by `parseFloat` for subscriptions and as 0 for free content. |
| ContentAdmin.Merge | src/components/admin/ContentManagement.jsx:126-127 | The update takes every written field. A media address the write leaves out keeps its stored value. |
| ContentAdmin.HandleSubmit | src/components/admin/ContentManagement.jsx:85-142 | An invalid form shows its errors and writes nothing. A new item creates one document and an edit merges into its own document, each closing the form. Editing a missing document writes nothing. |
| ContentAdmin.SavedContentHasMediaAndPrice | src/components/admin/ContentManagement.jsx:85-142 | Any document a save writes has an audio or video address, the form's title and description, and price 0 when free. |
| ContentAdmin.FormOf | src/components/admin/ContentManagement.jsx:146-153 | Editing fills the form with the stored title, description and flags. |
| ContentAdmin.HandleEdit | src/components/admin/ContentManagement.jsx:144-155 | Editing selects that document and keeps the chosen files and messages. |
| ContentAdmin.EditThenSaveKeepsDocument | src/components/admin/ContentManagement.jsx:85-155 | Editing a stored, valid document and saving it with no new files leaves the collection as it was and closes the form. |
| DocStore.ConfirmedDelete | src/components/admin/ContentManagement.jsx:157-166 | Deleting a content item (and, by the same handler at `src/pages/admin/Merchandise.jsx:124-133`, a product): a confirmed delete removes exactly that document, an unconfirmed one changes nothing, and no surviving document changes. |
| ContentAdmin.ResetFormIsEmpty | src/components/admin/ContentManagement.jsx:168-180 | The reset state fails exactly title, description, duration and media. The price is not checked for free content. |
| ContentCatalog.FilteredIsActiveSubseq | src/pages/customer/Content.jsx:32-44 | Every tab lists a subsequence of the active content, each item matching the search. |
| ContentCatalog.FreePremiumPartition | src/pages/customer/Content.jsx:35-44 | The "free" and "premium" tabs are the free and the subscription items of the "all" tab. Together they are as long as it, and any other tab value lists the "all" tab. |
| ContentCatalog.EmptySearchListsAll | src/pages/customer/Content.jsx:32-44 | With no search term, the "all" tab lists every active item. |
| ContentCatalog.OwnSubscriptions | src/pages/customer/Content.jsx:27-30 | Corrected query: a signed-out visitor gets no subscriptions, and a signed-in user only their own. |
| ContentCatalog.SignedOutSeesOthersSubscriptions | src/pages/customer/Content.jsx:27-52 | As written, for a signed-out visitor any user's active subscription marks that content as subscribed. |
| ContentCatalog.OwnSubscriptionsOnly | src/pages/customer/Content.jsx:27-52 | With the corrected query, a signed-out visitor is subscribed to nothing. A signed-in user is subscribed only through an active, unexpired subscription of their own. |
| ContentPlayer.FindById | src/pages/customer/ContentDetail.jsx:29 | The player finds the first content item with the route's id: no earlier item has that id. It finds none exactly when no content has that id. |
| ContentPlayer.AccessRule | src/pages/customer/ContentDetail.jsx:31-38 | Free content is always playable. Subscription content is playable if and only if an active, unexpired subscription to it is loaded. |
| ContentPlayer.CardAgreesWithPlayer | src/components/customer/ContentCard.jsx:78-84 | The card offers "listen" exactly when the player would grant access. |
| ContentPlayer.TogglePlayPause | src/pages/customer/ContentDetail.jsx:58-68 | Without media or access nothing changes. Otherwise playing flips and the position stays. |
| ContentPlayer.ToggleTwice | src/pages/customer/ContentDetail.jsx:58-68 | Two presses restore the player state. |
| ContentPlayer.HandleSeek | src/pages/customer/ContentDetail.jsx:70-80 | Without media or access nothing changes. Otherwise the position becomes the chosen time and playing is unchanged. |
| Dashboard.RevenueCountsOnlyPaid | src/pages/admin/Dashboard.jsx:14-16 | Revenue is the sum over all orders in which every unpaid order counts 0. |
| Dashboard.NewOrderRevenue | src/pages/admin/Dashboard.jsx:14-16 | A new paid order raises revenue by its amount. Any other new order leaves revenue as it was. |
| Dashboard.RevenueNonNegative | src/pages/admin/Dashboard.jsx:14-16 | With non-negative amounts, revenue is never negative. |
| Dashboard.ComputeStats | src/pages/admin/Dashboard.jsx:18-61 | The cards count users, content, products and orders. The unread count is the number of unread messages and never exceeds the total, and revenue is as above. |
| Dashboard.RecentOrdersAreNewest | src/pages/admin/Dashboard.jsx:63-65 | The recent list holds five orders, or all of them if there are fewer, newest first. Every order left out is no newer than any listed. |
| Dashboard.RecentUsersAreNewest | src/pages/admin/Dashboard.jsx:67-69 | The same for the five newest users. |
| DocStore.Create | src/services/firestore.js:17-27 | Creating adds exactly the fresh id with the given data and keeps every other document. |
| DocStore.Update | src/services/firestore.js:39-49 | Updating fails exactly when the document is missing. Otherwise only that document changes, to its patched value. |
| DocStore.Delete | src/services/firestore.js:51-57 | Deleting removes exactly the given id and keeps every other document. |
| Forms.ClearError | src/components/forms/RegisterForm.jsx:44-46 | Typing into a field removes its message and keeps every other field's message, unchanged. |
| Helpers.GenerateOrderId | src/utils/helpers.js:39-43 | An order id is `FB-`, then the clock's decimal digits, then `-`, then the random part in upper case. It holds no lower-case ASCII letter. |
| Helpers.OrderIdTimestampRoundTrip | src/utils/helpers.js:39-43 | The timestamp can be read back from any generated order id. Ids from distinct times therefore differ. |
| Helpers.CalculateDiscountPrice | src/utils/helpers.js:45-47 | Discount 0 keeps the price and discount 100 makes it 0. Between them a non-negative price stays between 0 and itself. |
| Helpers.DiscountIsAntitone | src/utils/helpers.js:45-47 | A larger discount never gives a higher price. |
| Helpers.EmailPatternIsMailbox | src/utils/helpers.js:49-52 | The e-mail pattern accepts exactly a well-formed mailbox: a non-empty local part, `@`, and a domain in which some dot has non-empty text on both sides, with no `@` or white space in any part. |
| Helpers.EmailPatternMailbox | src/utils/helpers.js:49-52 | Each text the pattern matches is such an address. |
| Helpers.MailboxEmailPattern | src/utils/helpers.js:49-52 | Each such address matches the pattern. |
| Helpers.PhoneFromParts | src/utils/helpers.js:54-57 | A prefix `+62`, `62` or `0`, then `8`, a digit 1-9 and 6 to 9 digits form an accepted phone number. |
| Helpers.PhoneLengths | src/utils/helpers.js:54-57 | An accepted number starts with `0`, `6` or `+` and is all digits after that. It has 9-12 characters with `0`, 10-13 with `62` and 11-14 with `+62`. |
| Helpers.JsRem | src/utils/helpers.js:61 | JavaScript `%` by a positive divisor: for a non-negative dividend it is the usual remainder, and for a negative one it lies in (-b, 0]. Either way the dividend minus the result is a multiple of the divisor, which fixes the value. |
| Helpers.FormatDuration | src/utils/helpers.js:59-63 | The text ends in `m`, and contains `h` exactly when there is at least an hour. |
| Helpers.FormatDurationShape | src/utils/helpers.js:59-63 | For non-negative minutes the text is `Hh Mm` from an hour upwards and `Mm` below it. |
| Helpers.FormatDurationRoundTrip | src/utils/helpers.js:59-63 | For non-negative minutes, reading the formatted text back gives the minutes. |
| Helpers.TruncateText | src/utils/helpers.js:65-67 | Text no longer than the limit is kept. Longer text becomes its first `limit` characters followed by `...`. |
| Helpers.GetFileExtension | src/utils/helpers.js:69-71 | The extension is the folded text after the last dot of the name: a tail with no dot in it that follows a dot. It is the whole folded name when there is no dot. |
| Helpers.IsImageFile | src/utils/helpers.js:73-76 | A name is an image exactly when the folded text after its last dot (all of the name when it has none) is `jpg`, `jpeg`, `png`, `gif` or `webp`. |
| Helpers.IsImageFileIgnoresCase | src/utils/helpers.js:73-76 | Two names that fold to the same text are both images or both not. |
| MerchandiseAdmin.FilteredMerchandise | src/pages/admin/Merchandise.jsx:31-34 | The list is a subsequence of the products. It holds exactly those whose folded name or description contains the folded term. |
| MerchandiseAdmin.HandleChange | src/pages/admin/Merchandise.jsx:36-50 | A typed value shows in its input and the active checkbox takes its state; every other input keeps its value. Chosen images replace the kept images without touching the form, and typed values keep the images. The input's message is cleared and every other message kept. |
| MerchandiseAdmin.SameInputsSameForm | src/pages/admin/Merchandise.jsx:16-23 | Two product forms that agree on every typed input and the active checkbox are equal, so the handler's per-input statements fix the whole form. |
| MerchandiseAdmin.CheckField | src/pages/admin/Merchandise.jsx:52-65 | Corrected checks: name and description pass exactly when filled, the price goes through the price validator, and the stock through the validator that refuses a blank field; no other field can fail. |
| MerchandiseAdmin.CheckFieldAsWritten | src/pages/admin/Merchandise.jsx:64-65 | As written, the stock goes through the `null`/`undefined` validator, and every other field is checked as in the corrected version; no field outside those four can fail. |
| MerchandiseAdmin.ValidateFormAsWritten | src/pages/admin/Merchandise.jsx:52-69 | The as-written error map has an entry exactly for the fields whose as-written check fails. |
| MerchandiseAdmin.ValidateForm | src/pages/admin/Merchandise.jsx:52-69 | The corrected error map has an entry exactly for the fields whose corrected check fails. |
| MerchandiseAdmin.ValidIff | src/pages/admin/Merchandise.jsx:52-69 | The corrected form passes if and only if name and description are filled and price and stock pass their validators, the stock one refusing blanks. |
| MerchandiseAdmin.ChecksPass | src/pages/admin/Merchandise.jsx:52-69 | The corrected form passes if and only if each of the four field checks passes. |
| MerchandiseAdmin.AsWrittenIff | src/pages/admin/Merchandise.jsx:52-69 | The as-written form passes if and only if name and description are filled and price and stock pass the validators as written. |
| MerchandiseAdmin.ProductDataOf | src/pages/admin/Merchandise.jsx:78-92 | The saved record reads the price with `parseFloat`, the discount with `parseFloat` or 0, and the stock with `parseInt`. Images are written exactly when some were chosen. |
| MerchandiseAdmin.Merge | src/pages/admin/Merchandise.jsx:94-95 | The update takes every written field and keeps the stored images when none are written. |
| MerchandiseAdmin.Save | src/pages/admin/Merchandise.jsx:94-100 | With errors nothing is written. A new product creates one document and an edit merges into its own, each closing the form. Editing a missing document writes nothing. |
| MerchandiseAdmin.HandleSubmitAsWritten | src/pages/admin/Merchandise.jsx:71-109 | As written: a form failing the as-written check writes nothing, and a passing new product is created. |
| MerchandiseAdmin.HandleSubmit | src/pages/admin/Merchandise.jsx:71-109 | Corrected: a failing form writes nothing and shows the corrected errors. A passing new product is created and the form closed. |
| MerchandiseAdmin.BlankStockStoredAsNaN | src/pages/admin/Merchandise.jsx:64-82 | As written, a new product with an empty stock field and otherwise valid fields is saved with its stock `NaN`. |
| MerchandiseAdmin.StockStoredAsNumber | src/pages/admin/Merchandise.jsx:78-82 | Corrected: a stock field that is blank or a decimal whole number, once it passes, is a non-negative whole number and is stored as that number. |
| MerchandiseAdmin.BlankStockRefused | src/pages/admin/Merchandise.jsx:64-65 | Corrected: an empty stock field writes nothing and shows the "stock required" message. |
| MerchandiseAdmin.FormOf | src/pages/admin/Merchandise.jsx:113-120 | Editing fills the form with the stored name, description and active flag. |
| MerchandiseAdmin.HandleEdit | src/pages/admin/Merchandise.jsx:111-122 | Editing selects that product and keeps the chosen images and messages. |
| MerchandiseAdmin.EditThenSaveKeepsDocument | src/pages/admin/Merchandise.jsx:71-122 | Editing a stored, valid product that has a discount and saving it with no new images leaves the collection as it was and closes the form. |
| MerchandiseAdmin.MissingDiscountSavedAsZero | src/pages/admin/Merchandise.jsx:81-117 | A product stored without a discount is written back with discount 0 by an unchanged edit. |
| MerchandiseAdmin.ResetFormIsEmpty | src/pages/admin/Merchandise.jsx:135-147 | The reset form fails the corrected check on exactly name, description, price and stock. |
| MerchandiseAdmin.ResetStockPassesAsWritten | src/pages/admin/Merchandise.jsx:135-147 | The reset form fails the as-written check on exactly name, description and price: its empty stock passes. |
| MerchandiseCardView.FinalPrice | src/components/customer/MerchandiseCard.jsx:10-12 | The card's price is the discount helper's price when a non-zero discount is set, and the base price otherwise. |
| MerchandiseCardView.AddPayload | src/components/customer/MerchandiseCard.jsx:20-28 | The cart item is merchandise carrying the product's id, name, price, discount, stock, and the first image when there is one and no image otherwise. |
| MerchandiseCardView.CardPriceIsCartPrice | src/components/customer/MerchandiseCard.jsx:10-28 | The price on the card is the unit price the cart charges for the added item. |
| MerchandiseCardView.AddToCartGuard | src/components/customer/MerchandiseCard.jsx:14-93 | At stock 0 or below a click leaves the cart unchanged and shows the out-of-stock notice; otherwise the cart is reduced with that add. The button is disabled exactly when a click would only show that notice, so the attribute and the handler's guard agree. |
| MerchandiseCardView.DiscountShownIsCheaper | src/components/customer/MerchandiseCard.jsx:40-45 | Whenever the discount badge shows on a positive price (discount up to 100), the shown price is strictly below the base price. |
| ContentCardView.SubscribePayload | src/components/customer/ContentCard.jsx:11-21 | Subscribing adds a content item with the content's id, title, price, thumbnail as image and duration, and no name, discount or stock. |
| ContentCardView.SubscribePriceIsPlain | src/components/customer/ContentCard.jsx:11-21 | The cart charges exactly the content's price for it. |
| ContentCardView.ActionShown | src/components/customer/ContentCard.jsx:78-84 | The card shows "listen" if and only if the viewer is subscribed or the content is free. |
| ContentCardView.PriceShown | src/components/customer/ContentCard.jsx:64-72 | A price is shown exactly for subscription content, and it is the content's price. Free content shows "Gratis". |
| ContentCardView.RepeatedSubscribe | src/components/customer/ContentCard.jsx:11-21 | Subscribing twice to content not in the cart leaves one line with quantity 2. |
| MessageAdmin.FilteredMessages | src/pages/admin/Messages.jsx:20-28 | The list is a subsequence of the messages. It holds exactly the messages whose folded subject, sender name or sender e-mail contains the folded term and whose status is the chosen one (any under `all`). |
| MessageAdmin.StatusText | src/pages/admin/Messages.jsx:74-81 | A status other than unread, read and replied is shown as its own text. |
| MessageAdmin.StatusColor | src/pages/admin/Messages.jsx:65-72 | The grey badge is used if and only if the status is none of the three. |
| MessageAdmin.HandleReply | src/pages/admin/Messages.jsx:30-52 | A reply that trims to nothing is refused. Otherwise, for an existing message, the reply is stored as typed, the status becomes replied, and no other message changes. |
| MessageAdmin.MarkAsRead | src/pages/admin/Messages.jsx:54-63 | Marking fails exactly when the message is missing. Otherwise its status becomes read, and no other field or message changes. |
| MessageAdmin.Open | src/pages/admin/Messages.jsx:150-156 | Opening an unread message marks it read. Opening any other message writes nothing. |
| MessageAdmin.StatusOnlyMovesForward | src/pages/admin/Messages.jsx:141-159 | Through the actions the page offers, a status only moves forward (unread, read, replied), a replied message keeps its reply, and other messages are untouched. |
| MessageAdmin.ReplyReachesMailbox | src/pages/admin/Messages.jsx:30-42 | After a reply, the replied message is in its sender's mailbox, computed from any snapshot of the collection that holds it, and it carries the reply and the replied status. |
| OrderAdmin.FilteredOrders | src/pages/admin/Orders.jsx:19-26 | The list is a subsequence of the orders. It holds exactly the orders whose folded id or user id contains the folded term and whose payment status is the chosen one (any under `all`). |
| OrderAdmin.EmptySearchListsAll | src/pages/admin/Orders.jsx:19-26 | With no term and the "all" filter, every order is listed. |
| OrderAdmin.StatusText | src/pages/admin/Orders.jsx:64-74 | A known status gets a label different from itself. An unknown status is shown as its own text. |
| OrderAdmin.StatusColor | src/pages/admin/Orders.jsx:52-62 | The grey badge is used if and only if the status is unknown. |
| OrderAdmin.LabelsDistinct | src/pages/admin/Orders.jsx:52-74 | Distinct known statuses get distinct labels, though "paid" and "delivered" share a colour. |
| OrderAdmin.SelectableButUnlabelled | src/pages/admin/Orders.jsx:197-215 | The selectable "failed" and "returned" statuses have no label and show in grey. |
| OrderAdmin.ShippingPatchFields | src/pages/admin/Orders.jsx:37-43 | A shipping update sets the status and writes the tracking number only when it is non-empty. Nothing else changes. |
| OrderAdmin.UpdatePayment | src/pages/admin/Orders.jsx:28-35 | Corrected: updating by the document key succeeds and changes only that order's payment status. |
| OrderAdmin.UpdateShipping | src/pages/admin/Orders.jsx:37-50 | Corrected: updating by the document key succeeds, sets the shipping status, keeps the payment status, and changes no other order. |
| OrderAdmin.UpdatePaymentAsWritten | src/pages/admin/Orders.jsx:28-35 | As written, the update addresses the document named by the listed order's `id` field. It fails exactly when no document has that key, and otherwise changes only that document's payment status. |
| OrderAdmin.UpdateShippingAsWritten | src/pages/admin/Orders.jsx:37-50 | As written, the shipping update addresses the same document. It fails exactly when there is none, and otherwise sets its shipping status, keeps its payment status and changes no other order. |
| OrderAdmin.CheckoutOrderCannotBeUpdated | src/pages/admin/Orders.jsx:28-50 | For an order created at checkout, whose `id` field is not a document key, both updates as written fail. The corrected ones apply the new status. |
| OrderAdmin.UpdateByOrderIdFailsExample | src/services/firestore.js:80-91 | Concrete instance: a listed order `FB-1-AB` stored under key `d1` cannot be marked paid as written, and is marked paid by the corrected update. |
| Numbers.ParseInt | src/pages/customer/Profile.jsx:78-79 | Whenever `parseInt` reads a number, `parseFloat` reads one from the same text, and the integer is that number truncated toward zero. |
| Numbers.ParseFloat | src/pages/admin/Merchandise.jsx:80-81 | Blank text reads as NaN, and a number is only ever read from text that holds a digit. |
| Numbers.StringToNumber | src/utils/validation.js:40-48 | The conversion a comparison applies to text: blank text is 0, and non-blank text that converts gives the number `parseFloat` reads from it. |
| Numbers.ParseIntRoundTrip | src/pages/customer/Profile.jsx:78-79 | `parseInt` reads back the decimal text of any integer. |
| Numbers.ParseFloatRoundTrip | src/pages/admin/Merchandise.jsx:80-81 | `parseFloat` reads back the decimal text of any integer. |
| Numbers.StringToNumberRoundTrip | src/utils/validation.js:40-48 | The conversion to a number reads back the decimal text of any integer. |
| Numbers.ParseIntOfEmpty | src/pages/admin/Merchandise.jsx:80-82 | An empty field reads as NaN under both `parseInt` and `parseFloat`. |
| Profile.ValueOr | src/pages/customer/Profile.jsx:17-26 | A falsy stored number shows as an empty field, and any other value is kept. |
| Profile.FormFrom | src/pages/customer/Profile.jsx:17-26 | With no profile every field starts empty and there is no address. |
| Profile.HandleChange | src/pages/customer/Profile.jsx:31-41 | Typed text shows in the named input, and every other input and the address keep their values and the avatar stays. A chosen avatar is kept aside without touching the form. Either clears the field's message, keeps the other messages and does not end editing. |
| Profile.SameValuesSameForm | src/pages/customer/Profile.jsx:17-26 | Two profile forms that show the same value in every input and hold the same address are equal, so the handler's per-input statements fix the whole form. |
| Profile.HandleAddressChange | src/pages/customer/Profile.jsx:43-46 | Picking an address replaces the form's address and nothing else. |
| Profile.CheckField | src/pages/customer/Profile.jsx:48-58 | The name passes exactly when filled, the phone exactly when it matches the pattern, and the age as its validator says. |
| Profile.ValidateForm | src/pages/customer/Profile.jsx:48-62 | The error map has an entry exactly for the fields whose check fails. |
| Profile.ValidIff | src/pages/customer/Profile.jsx:48-62 | The form passes if and only if the name is filled, the phone is well formed and the age passes. Gender, job and child order are not checked. |
| Profile.Saved | src/pages/customer/Profile.jsx:69-80 | Saving keeps the account fields and takes every form field: name, phone, gender, job, payment method and address as typed, and age and child order read by `parseInt`. The avatar is replaced only when one was chosen. |
| Profile.HandleSave | src/pages/customer/Profile.jsx:64-90 | An invalid form shows its errors and writes nothing. A valid one updates the user's document and ends editing. A missing document writes nothing and keeps the form open. |
| Profile.SaveKeepsAccountFields | src/pages/customer/Profile.jsx:76-80 | A save changes only the user's own document, and never its e-mail, username, role, blocking or creation time. |
| Profile.SavedAgeInRange | src/pages/customer/Profile.jsx:64-80 | A saved whole-number age is stored as that number and lies between 13 and 100. |
| Profile.HandleCancel | src/pages/customer/Profile.jsx:92-106 | Cancelling returns to the page as first opened, whatever was typed: no errors, no avatar, not editing. |
| Profile.CancelThenSaveKeepsProfile | src/pages/customer/Profile.jsx:64-106 | Cancelling and then saving a complete, valid profile writes it back unchanged. |
| RegisterForm.Step1Check | src/components/forms/RegisterForm.jsx:53-63 | Step 1 checks exactly the name and username (passing when filled) and the e-mail (passing when it is a well-formed mailbox). |
| RegisterForm.Step2Check | src/components/forms/RegisterForm.jsx:69-83 | Step 2 checks exactly the phone against the pattern, the gender (filled), the age (its validator) and the presence of an address. |
| RegisterForm.Step3Check | src/components/forms/RegisterForm.jsx:89-99 | Step 3 checks exactly job and child order (filled) and a password of at least six characters. |
| RegisterForm.ValidateStep1 | src/components/forms/RegisterForm.jsx:53-67 | Step 1's error map has an entry exactly for its failing fields. |
| RegisterForm.ValidateStep2 | src/components/forms/RegisterForm.jsx:69-87 | Step 2's error map has an entry exactly for its failing fields. |
| RegisterForm.ValidateStep3 | src/components/forms/RegisterForm.jsx:89-103 | Step 3's error map has an entry exactly for its failing fields. |
| RegisterForm.Step1Passes | src/components/forms/RegisterForm.jsx:53-67 | Step 1 passes if and only if name and username are filled and the e-mail is well formed. |
| RegisterForm.Step2Passes | src/components/forms/RegisterForm.jsx:69-87 | Step 2 passes if and only if the phone is well formed, the gender filled, the age valid and an address picked. |
| RegisterForm.Step3Passes | src/components/forms/RegisterForm.jsx:89-103 | Step 3 passes if and only if job and child order are filled and the password has at least six characters. |
| RegisterForm.HandleNext | src/components/forms/RegisterForm.jsx:105-125 | "Next" keeps the form and shows only the current step's errors. |
| RegisterForm.NextAdvancesIffValid | src/components/forms/RegisterForm.jsx:105-125 | "Next" advances one step exactly when the current step passes and is below 3, and otherwise stays. |
| RegisterForm.Back | src/components/forms/RegisterForm.jsx:376-379 | "Back" exists exactly above step 1, moves one step back and keeps the form. |
| RegisterForm.StepStaysInRange | src/components/forms/RegisterForm.jsx:105-125 | Next and back keep the step between 1 and 3. |
| RegisterForm.HandleChange | src/components/forms/RegisterForm.jsx:36-47 | Typed text shows in the named input, and every other input, the address and the avatar keep theirs. Typing clears that field's message, keeps every other message and keeps the step. |
| RegisterForm.SetText | src/components/forms/RegisterForm.jsx:42 | The named input shows the new text; every other input, the address and the avatar keep theirs. |
| RegisterForm.SameTextSameForm | src/components/forms/RegisterForm.jsx:17-30 | Two registration forms that show the same text in every input and hold the same address and avatar are equal, so the per-input statements fix the whole form. |
| RegisterForm.HandleSubmitAsWritten | src/components/forms/RegisterForm.jsx:127-155 | As written: submission is refused exactly when step 3 fails, and a registered payload never carries an avatar. |
| RegisterForm.HandleSubmit | src/components/forms/RegisterForm.jsx:127-155 | Corrected: refused exactly when step 3 fails, showing only step 3's errors. Otherwise the payload carries every form field: name, e-mail, username, phone, gender, address, job, password and payment method as typed, age and child order read by `parseInt`, and the uploaded avatar's address. |
| RegisterForm.UploadedAvatarIsDropped | src/components/forms/RegisterForm.jsx:134-145 | With an avatar chosen, the as-written payload has no avatar and otherwise equals the corrected payload, which has the upload's address. |
| RegisterForm.SubmitSkipsSteps1And2 | src/components/forms/RegisterForm.jsx:127-130 | A form with no name is still submitted when step 3 passes, although step 1 fails. |
| RegisterForm.NewUserRecord | src/services/auth.js:21-36 | A new account is a customer, not blocked, with the submitted e-mail and the creation time, and it stores every profile field of the payload: name, username, phone, gender, job, payment method, address and avatar as given, and age and child order as their `parseInt` results. |
| RouteGuard.Decide | src/components/common/ProtectedRoute.jsx:6-34 | The page is shown if and only if loading is over, a user is signed in, admin pages see an admin, and the user is not blocked. |
| RouteGuard.LoadingThenLogin | src/components/common/ProtectedRoute.jsx:10-16 | While loading the spinner shows. After loading, no user means the login redirect. |
| RouteGuard.RoleBeforeBlocked | src/components/common/ProtectedRoute.jsx:18-31 | A non-admin on an admin page is sent home even when blocked. The blocked notice shows if and only if the user passed the role check and is blocked. |
| RouteGuard.MissingProfile | src/components/common/ProtectedRoute.jsx:18-33 | A signed-in user without a profile is sent home from admin pages and let through elsewhere. |
| RouteGuard.NewCustomerAccess | src/services/auth.js:30-36 | A freshly registered account is sent home from admin pages and let through elsewhere. |
| ShopListing.PriceFieldFallbacks | src/pages/customer/Merchandise.jsx:97-105 | Each price field changes only its own bound. Text that `parseInt` cannot read, or that reads as 0, sets the minimum to 0 and the maximum to 1000000, so the maximum is never 0. |
| ShopListing.ListingMembers | src/pages/customer/Merchandise.jsx:19-43 | A product is listed if and only if it is active, its name or description matches, and its price is in the range. The listing is a permutation of the filtered products. |
| ShopListing.ListingOrdered | src/pages/customer/Merchandise.jsx:28-43 | The listing is ordered by price ascending or descending, or by date newest or oldest first, as chosen. |
| ShopListing.UnknownOrderKeepsStoreOrder | src/pages/customer/Merchandise.jsx:28-43 | Any other sort choice lists the filtered products in store order. |
| ShopListing.InvertedRangeListsNothing | src/pages/customer/Merchandise.jsx:25 | A minimum above the maximum lists nothing. |
| ShopListing.EqualPricesKeepStoreOrder | src/pages/customer/Merchandise.jsx:34-35 | Products of equal price keep their store order under the ascending price sort, because the sort is stable. |
| TalkToUs.ValidateForm | src/pages/customer/TalkToUs.jsx:36-47 | The subject has a message if and only if it is not filled, and likewise the body, each naming its field. |
| TalkToUs.HandleChange | src/pages/customer/TalkToUs.jsx:28-34 | Typing sets that field, keeps the other, clears the field's message and keeps the other message. |
| TalkToUs.HandleSubmit | src/pages/customer/TalkToUs.jsx:49-74 | An invalid form writes nothing. A profile lacking the e-mail or name makes the write fail and keeps the form. Otherwise exactly the new message is created, the form is emptied and the sent tab opens. |
| TalkToUs.NewMessage | src/pages/customer/TalkToUs.jsx:56-64 | The message carries the sender's id, the typed subject and body, status unread and an empty reply. |
| TalkToUs.SentMessages | src/pages/customer/TalkToUs.jsx:22-26 | The sent list holds exactly the user's own messages from the snapshot: every listed message is theirs, and every message of theirs is listed. |
| TalkToUs.Mailbox | src/pages/customer/TalkToUs.jsx:169 | The mailbox holds exactly the replied messages of the sent list. |
| TalkToUs.SentMessageIsListed | src/pages/customer/TalkToUs.jsx:22-26 | A new message is in its sender's list and no other user's, and not in the mailbox until it is replied to. |
| TalkToUs.EmptyFieldBlocksSending | src/pages/customer/TalkToUs.jsx:36-52 | An empty subject or body leaves the store unchanged. |
| Text.TrimEmptyIffBlank | src/utils/validation.js:2 | A text trims to nothing if and only if it is all white space. |
| UserAdmin.FilteredUsers | src/components/admin/UserManagement.jsx:18-26 | The list is a subsequence of the users. It holds exactly the users with a name, e-mail or username present whose folded text contains the folded term, and with the chosen role (any under `all`); a missing field never matches. |
| UserAdmin.EmptySearchNeedsSomeField | src/components/admin/UserManagement.jsx:18-26 | With an empty term and the "all" filter, a user is listed if and only if they have a name, an e-mail or a username. |
| UserAdmin.ToggleBlock | src/components/admin/UserManagement.jsx:28-35 | Fails exactly when the user's document is missing. Otherwise the blocked flag becomes the negation of the listed flag, and no other field or document changes. |
| UserAdmin.ChangeRole | src/components/admin/UserManagement.jsx:37-45 | Fails exactly when the user's document is missing. Otherwise the role becomes the chosen one, and no other field or document changes. |
| UserAdmin.ToggleTwiceRestores | src/components/admin/UserManagement.jsx:28-35 | The block button flips the user's blocked flag, and pressing it again restores the collection. |
| UserAdmin.BlockedUserSeesNotice | src/components/common/ProtectedRoute.jsx:22-31 | Once blocked, the user sees the blocked notice, except a non-admin on an admin page, who is sent home. |
| UserAdmin.PromotionOpensAdminPages | src/components/admin/UserManagement.jsx:37-45 | After a role change to admin, an unblocked user passes the guard on admin pages. |
| UserAdmin.Cells | src/components/admin/UserManagement.jsx:50-57 | A row has the six cells the header names. |
| UserAdmin.CsvLines | src/components/admin/UserManagement.jsx:47-58 | The export is the header followed by one row per listed user, in order. |
| UserAdmin.HeaderHasOneLine | src/components/admin/UserManagement.jsx:49 | The header holds no newline. |
| UserAdmin.CsvRoundTrip | src/components/admin/UserManagement.jsx:47-58 | When no cell holds a comma or newline, splitting the export at newlines and each row at commas gives back the header and each user's cells. |
| Validation.ValidateRequired | src/utils/validation.js:1-6 | A value passes if and only if it is truthy and not blank text. Otherwise the message names the field. |
| Validation.RequiredExamples | src/utils/validation.js:1-6 | The number 0, a missing value and blank text are all missing. |
| Validation.PresentExamples | src/utils/validation.js:1-6 | Text starting with a digit, such as "0", and any non-zero number are present. |
| Validation.ValidateEmail | src/utils/validation.js:8-17 | Empty gives the required message. A non-empty e-mail passes if and only if it is a well-formed mailbox, and otherwise gets the format message, never the required one. |
| Validation.ValidatePassword | src/utils/validation.js:19-27 | A password passes if and only if it has at least six characters. Empty gives the required message; a non-empty short one gets the length message. |
| Validation.ValidatePhone | src/utils/validation.js:29-38 | A number passes if and only if it matches the pattern, and then has 9 to 14 characters. Empty gives the required message; a non-empty malformed one gets the format message. |
| Validation.ValidateAge | src/utils/validation.js:40-48 | A falsy age is missing. A truthy numeric age passes if and only if it is between 13 and 100, and otherwise gets the range message; truthy text that is not a number (NaN) passes. |
| Validation.ValidatePrice | src/utils/validation.js:50-58 | A falsy price is missing. A truthy numeric price passes if and only if it is positive, and otherwise gets the positivity message; truthy text that is not a number (NaN) passes. |
| Validation.ValidateStock | src/utils/validation.js:60-68 | As written, the required message comes if and only if the value is missing. A present numeric stock passes if and only if it is not negative, and otherwise gets the negative message; present text that is not a number passes. |
| Validation.ValidateStockFilled | src/utils/validation.js:60-68 | Corrected: the required message comes if and only if the value is missing or blank text. Otherwise it agrees with the as-written check. |
| Validation.PriceZeroExamples | src/utils/validation.js:50-58 | The number 0 is a missing price, while typed "0" and -5 fail the positivity test. |
| Validation.AgeZeroExamples | src/utils/validation.js:40-48 | The number 0 is a missing age, while typed "0" fails the range test. |
| Validation.BlankStockPasses | src/utils/validation.js:60-68 | Blank stock text passes the as-written check and is refused by the corrected one. |
| Validation.ZeroStockPasses | src/utils/validation.js:60-68 | Stock zero, typed or stored, passes both checks. |

## Left out

- Rendering, toasts, navigation and loading spinners are left out. The model keeps only the state each handler produces and the page it moves to.
- Firestore's network calls, real-time listeners and server timestamps are left out. A collection is a map, listeners are a snapshot given as a sequence, and times are parameters.
- The ordering of `getDocuments` is not modelled (`src/services/firestore.js:59-78`). Listings take the store's sequence as given.
- Midtrans payment plumbing is left out: the script loading, the token request and the snap-not-initialised error in `src/hooks/useMidtrans.js:22-24`. The payment outcome is a parameter.
- Google Maps address picking is left out. An address arrives as a value.
- `formatCurrency`, `formatDate` and `formatDateTime` are not modelled. They are `Intl` formatting and hold no logic of their own.
- The player's volume control and media events are not modelled. Only play/pause and seeking are.
- The admin product grid's struck-through "original price" is not modelled (`src/pages/admin/Merchandise.jsx:210-214`). It is display arithmetic, `price / (1 - discount / 100)`, which reads the stored price as already discounted, unlike the storefront; a discount of 100 divides by zero.
- The number conversions cover plain decimal spellings only. Exponents, hex and `Infinity` are not modelled.
- `toLowerCase` is a parameter `fold` rather than Unicode case mapping, and UTF-16 code units are taken as characters. The `toUpperCase` of the order id (`src/utils/helpers.js:42`) is modelled as ASCII upper-casing, which is exact there: the id is `FB-`, digits and a base-36 suffix.
- `localeCompare` is a parameter `nameRank` of the name sort, assumed to give a total preorder.
- File uploads are represented by the address the upload yields. A failed upload and a cancelled file picker are not modelled.
- React effect timing is not modelled. Each effect runs once after the state change that triggers it.
- The client clocks that the writes stamp are not modelled: `updatedAt` on every update (`src/services/firestore.js:42-45`), and `repliedAt` and `readAt` on messages (`src/pages/admin/Messages.jsx:41` and `src/pages/admin/Messages.jsx:58`).
- The order detail modal's copy of the selected order, which goes stale after an update, is not modelled.
- The customer "discussions" tab is not modelled.
- RegisterForm.HandleChange: covers text inputs only. The avatar file and the map address are set on the form directly, so the file the avatar input writes into `formData.avatar` (`src/components/forms/RegisterForm.jsx:38-40`) is not stated here.
- Helpers.FormatDuration: takes a whole number of minutes. Negative minutes are modelled with JavaScript's `Math.floor` and `%`; a fractional duration is not.
- ShopListing.ListingOrdered: does not state the order of the name sort, because `localeCompare` is the parameter `nameRank` and its order is not modelled.
- ContentAdmin.EditThenSaveKeepsDocument: holds for the model, not the program: the unchanged save writes the document back as it was, while the program's save also moves its `updatedAt`.
- MerchandiseAdmin.EditThenSaveKeepsDocument: holds for the model, not the program, for the same `updatedAt` stamp.
- Profile.CancelThenSaveKeepsProfile: holds for the model, not the program, for the same `updatedAt` stamp.
- MessageAdmin.MarkAsRead: does not state the `readAt` stamp it writes.
- MessageAdmin.HandleReply: does not state the `repliedAt` stamp it writes.
- MerchandiseCardView.AddPayload: takes a product that has an `images` array. A product saved from the back office without chosen images has no `images` field, and the card's `product.images[0]` (`src/components/customer/MerchandiseCard.jsx:26` and `:36`) then throws; that crash is not modelled.
- Cart.EffectivePrice: computes in exact rationals, so the rounding of JavaScript floating point in prices, discounts and the 11% tax is not modelled.

## Findings

| source | as written | input that shows it | evidently intended | confidence | as-written member | corrected member |
|---|---|---|---|---|---|---|
| src/pages/admin/Orders.jsx:28-50 | Status updates are addressed by `selectedOrder.id`. For a checkout order, the listing's `{id: doc.id, ...doc.data()}` lets the stored field `id: orderId` (`src/pages/customer/Cart.jsx:39`) override the document key. | An order created at checkout under key `k` with field `id` = `FB-1700000000000-ABC`; the admin sets payment to "paid", and `updateDocument` looks for document `FB-…`, which does not exist. | Updates address the document key. | high, not executed | OrderAdmin.CheckoutOrderCannotBeUpdated | OrderAdmin.UpdatePayment |
| src/pages/customer/Content.jsx:27-30 | When no one is signed in, the subscription query has no condition and returns every user's subscriptions. | A signed-out visitor, and content that another user subscribes to: the card shows "listen" for premium content. | A signed-out visitor has no subscriptions. | medium, not executed | ContentCatalog.SignedOutSeesOthersSubscriptions | ContentCatalog.OwnSubscriptionsOnly |
| src/components/forms/RegisterForm.jsx:134-147 | The uploaded avatar's address is put into `userData.avatar` and then deleted before `registerUser`. | Register with an avatar file: the profile is stored with no avatar. | The uploaded address is stored in the profile. | high, not executed | RegisterForm.UploadedAvatarIsDropped | RegisterForm.HandleSubmit |
| src/utils/validation.js:60-68 | `validateStock` treats only `null`/`undefined` as missing, so an empty stock field compares as 0 and passes. The merchandise page then stores `parseInt("")`, which is `NaN` (`src/pages/admin/Merchandise.jsx:82`). | Save a new product with the stock field left empty. | An empty stock field gets "Stok wajib diisi". | high, not executed | MerchandiseAdmin.BlankStockStoredAsNaN | MerchandiseAdmin.BlankStockRefused |
