# Storefront controllers in Dafny

A verified model of the browser-side controllers of a small storefront site:

- **Cart**: the shopping cart. It keeps a list of line items merged by
  normalised product id. It shows a count badge and an item list rendered
  from that list. Its panel opens on every addition and closes again on one
  timer. The list is saved under the storage key `cartItem`.
- **StorageService**: a key/value service over the browser's string store.
  It prefixes every key with `app_`, probes availability once and caches the
  result, and serialises values as JSON.
- **Products**: the catalogue pager. It fetches `page`/`limit` pages from
  the product endpoint and appends them. It removes the show-more control
  after a short page, and answers add-to-cart clicks with the product they
  name.
- **Dropdown** and **Search**: open/close widgets in the header. They keep
  `aria-expanded` and the document listeners in step with the open state.
  Opening a dropdown closes every other dropdown of the same header.
- **Gallery**: a lightbox over the linked images of a container. Navigation
  wraps around, and a `k / n` counter shows the position.
- **Popup**: popups addressed by element id through `popup:show` requests.
  Each one auto-closes on a timer.
- **SubscribeForm**: the newsletter form. It validates the trimmed address
  against the address pattern, enters and leaves a loading state, and asks
  the success popup to show.

Each controller is a Dafny class whose fields are the state the JavaScript
keeps in its fields and in the DOM (classes, attributes, text). Its event
handlers are methods that state the whole new state. The pure parts are
functions with lemmas about them:

- key building, the JSON round trip and the address pattern;
- the list operations of the cart and the badge total;
- the index arithmetic of the gallery.

Asynchronous handlers are split into two methods:

- the part up to the network or timer wait (`StartFetch`, `OnSubmit`);
- the part after it (`CompleteFetch`, `FinishSubmit`).

Each of these takes the outcome as a parameter. Timers are handles that the
model lets fire explicitly. `events.dfy` connects the controllers through
the document-level custom events `popup:show` and `product:add`.

Helper modules:

- `Wrappers`: `Option`.
- `Text`: decimal rendering of integers, as `String(n)` and template
  literals produce it.
- `Json`: a JSON value type with `Stringify`/`Parse` and a proved round
  trip.
- `Catalog`: the product record, `String(id)` and its stored form.

## Model

| member | source | states |
|---|---|---|
| Catalog.NormalizeId | src/js/Cart.js:32-34 | `String(id)`: a non-negative numeric id becomes digits whose decimal value is the id, a negative one a minus sign followed by the digits of its magnitude, and a string id is itself |
| Catalog.NumericIdMatchesItsText | src/js/Cart.js:32-34 | the number 7 and the string "7" normalise to the same text, so they name the same product |
| Catalog.NormalizeIdInjective | src/js/Cart.js:32-34 | two numeric ids, or two string ids, normalise equal only when they are equal |
| Catalog.ProductRoundTrip | src/js/Cart.js:48 | the stored members of a product, followed by anything, decode back to the same product and the rest |
| Json.ParseStringify | src/js/StorageService.js:41 | `JSON.parse(JSON.stringify(v))` gives back `v` for every value |
| Json.StringifyInjective | src/js/StorageService.js:41 | different values serialise to different texts |
| Storage.FullKey | src/js/StorageService.js:29-31 | every physical key starts with `app_`, and stripping `app_` gives back the logical key |
| Storage.FullKeyInjective | src/js/StorageService.js:29-31 | distinct logical keys use distinct physical keys |
| Storage.TestKeyOutsideNamespace | src/js/StorageService.js:10-13 | the probe's key `__storage_test__` is not in the `app_` namespace, so probing never overwrites stored data |
| Storage.GetAfterSet | src/js/StorageService.js:54-73 | `get(k)` after a successful `set(k, v)` returns `v` |
| Storage.GetAfterSetOther | src/js/StorageService.js:33-52 | `set(k, v)` leaves what `get` returns for every other key unchanged |
| Storage.GetAbsent | src/js/StorageService.js:64-66 | a key that `has` rejects reads as the default |
| Storage.HasAfterRemove | src/js/StorageService.js:75-104 | after `remove(k)`, `has(k)` is false and `get(k)` is the default |
| Storage.KeysOfExactly | src/js/StorageService.js:125-139 | `keys` lists a name exactly when its prefixed key is stored; `has` agrees with it on every non-empty key |
| Storage.ClearedExactly | src/js/StorageService.js:106-123 | after `clear` no `app_` key is left, and every other key keeps its value |
| Storage.StorageService.constructor | src/js/StorageService.js:2-3 | the service starts over the given store with no cached availability |
| Storage.StorageService.CheckAvailability | src/js/StorageService.js:5-21 | the result is the store's real availability and is cached; only the first call probes, and a later call leaves the store alone |
| Storage.StorageService.Set | src/js/StorageService.js:33-52 | succeeds exactly when storage works, the key is non-empty and the quota allows it; the store then gains the prefixed key holding the value's JSON, and otherwise it is unchanged |
| Storage.StorageService.Get | src/js/StorageService.js:54-73 | returns the decoded stored value; returns the default when storage fails, the key is empty or missing, or the text does not parse |
| Storage.StorageService.Remove | src/js/StorageService.js:75-89 | succeeds exactly when storage works and the key is non-empty, and then deletes only the prefixed key |
| Storage.StorageService.Has | src/js/StorageService.js:91-104 | true exactly when storage works, the key is non-empty and its prefixed key is stored |
| Storage.StorageService.Clear | src/js/StorageService.js:106-123 | the loop over all keys removes exactly the `app_` keys; the result is true exactly when storage works |
| Storage.StorageService.Keys | src/js/StorageService.js:125-139 | lists each stored `app_` key once, with the prefix stripped, and nothing else; the list is empty when storage fails |
| Cart.FindId | src/js/Cart.js:41-43 | the position of the first item with the given normalised id, or none when no item has it |
| Cart.RemoveId | src/js/Cart.js:83 | filtering never lengthens the list |
| Cart.AddMerges | src/js/Cart.js:40-46 | adding a product whose id is already present increments that item's count by one and changes neither the length nor any other item |
| Cart.AddAppends | src/js/Cart.js:47-48 | adding a product with a new id appends it with count 1 |
| Cart.AddWellFormed | src/js/Cart.js:40-49 | adding keeps at most one item per normalised id and every count at least 1 |
| Cart.RemoveMembers | src/js/Cart.js:83 | an item survives the removal exactly when its normalised id differs from the one removed |
| Cart.RemoveWellFormed | src/js/Cart.js:83 | removing keeps at most one item per normalised id and every count at least 1 |
| Cart.RemoveConcat | src/js/Cart.js:83 | the filter works piecewise, so the surviving items keep their order |
| Cart.RemoveAbsent | src/js/Cart.js:83 | removing an id that no item has leaves the list unchanged |
| Cart.RemoveSplit | src/js/Cart.js:83 | removing the only item with a given id joins the items before it and after it |
| Cart.RemoveRow | src/js/Cart.js:79-83 | the delete button of row `k` removes exactly item `k` from a well-formed list |
| Cart.ViewRows | src/js/Cart.js:138-150 | the list shows the empty-cart notice exactly when there are no items, and otherwise one row per item, in order, with its id and count |
| Cart.TotalAppend | src/js/Cart.js:92-94 | appending an item adds its count to the total |
| Cart.TotalIncrement | src/js/Cart.js:92-94 | incrementing one item's count raises the total by one |
| Cart.AddTotal | src/js/Cart.js:40-51 | every addition raises the badge total by exactly one |
| Cart.TotalAtLeastLength | src/js/Cart.js:92-94 | when every count is at least 1, the total is at least the number of items |
| Cart.BadgeExactly | src/js/Cart.js:91-112 | for a well-formed list, the badge is absent exactly when the list is empty, and otherwise its digits spell the total count |
| Cart.AddTwice | src/js/Cart.js:36-56 | adding the same product twice to an empty cart gives one item with count 2 and the badge `2` |
| Cart.ItemListRoundTrip | src/js/Cart.js:55 | the stored form of an item list decodes back to the same list |
| Cart.ReloadAfterSave | src/js/Cart.js:25 | a cart built over a store that holds a saved list loads that list |
| Cart.ReloadAfterClear | src/js/Cart.js:152-157 | a cart built after `clearCart` removed the key loads the empty list (the default `[]`) |
| Cart.Cart.constructor | src/js/Cart.js:20-30 | loads the saved list, or `[]` when storage fails, and renders it; no close timer is pending |
| Cart.Cart.RenderCounter | src/js/Cart.js:91-112 | the badge is absent when the total is 0 and otherwise shows the total; nothing else changes |
| Cart.Cart.RenderList | src/js/Cart.js:138-150 | the list shows the empty notice exactly when there are no items; nothing else changes |
| Cart.Cart.ToggleAutoOpen | src/js/Cart.js:159-167 | the panel is visible and exactly one close timer is pending |
| Cart.Cart.AutoCloseFires | src/js/Cart.js:164-166 | the timer hides the panel and is no longer pending |
| Cart.Cart.OnProductAdd | src/js/Cart.js:36-56 | an event without a product changes nothing; otherwise the list becomes `AddProduct` of the old list, the panel opens with a fresh timer, the new list is saved under `cartItem`, and well-formedness is kept |
| Cart.Cart.OnRemoveClick | src/js/Cart.js:75-89 | a click off the delete buttons changes nothing; otherwise the list becomes `RemoveId` of the old list and is saved; this listener itself does not touch the panel (the same click then closes it, see `OnDeleteButtonClick`) |
| Cart.Cart.OnIconClick | src/js/Cart.js:58-61 | the icon flips the panel's visibility and touches nothing else |
| Cart.Cart.OnDeleteButtonClick | src/js/Cart.js:63-89 | a click on a row's delete button removes that product and saves the list; the re-rendered rows detach the button, so the document listener sees a click outside the cart and the panel closes with its timer cleared |
| Cart.Cart.OnDocumentClick | src/js/Cart.js:63-73 | a click outside the cart and off the add-to-cart buttons closes a visible panel and cancels the timer; any other click changes nothing |
| Cart.Cart.ClearCart | src/js/Cart.js:152-157 | the list becomes empty and the stored key is deleted, not overwritten with `[]` |
| Products.RequestUrl | src/js/Products.js:50-55 | the request is the endpoint followed by `?page=`; for non-negative page and limit, reading the rest back gives a digit run whose value is the page, then `&limit=`, then digits whose value is the limit |
| Products.PageParamsInjective | src/js/Products.js:50-55 | different page or limit values give different query parameters |
| Products.RequestUrlInjective | src/js/Products.js:50-55 | different page or limit values are requested under different URLs |
| Products.FindProduct | src/js/Products.js:170 | the first loaded product whose `String(id)` equals the card's `data-pid`, or none when no product matches |
| Products.Products.constructor | src/js/Products.js:17-27 | page 1, nothing loaded, the list's loading class set, and exactly one request for page 1 with limit 4 in flight |
| Products.Products.StartFetch | src/js/Products.js:45-55 | marks a present show-more control as loading and issues the request for the current page |
| Products.Products.OnShowMoreClick | src/js/Products.js:95-104 | clicks arrive only while the control is present, since the listener sits on it; ignored while a show-more fetch is in flight; otherwise raises the flag, marks the control loading and issues one request for the current page |
| Products.Products.CompleteFetch | src/js/Products.js:57-76 | a received page is appended; the page number advances unless the fetch failed or a short page arrived after the control was already removed; either failure adds the error message; a short page removes the control for good; the caller's loading flag is cleared |
| Products.Products.OnAddToCartClick | src/js/Products.js:163-180 | a click off the add-to-cart buttons sends no event; otherwise the event carries the lookup result, which may be none |
| Products.UnguardedFirstFetch | src/js/Products.js:39-43 | `init` does not raise the show-more flag, so a show-more click during the first fetch requests page 1 a second time |
| Dropdown.Dropdown.constructor | src/js/Dropdown.js:20-25 | a closed dropdown with no document listeners, announcing on the enclosing header when there is one and on the document otherwise |
| Dropdown.Dropdown.ToggleExternalListeners | src/js/Dropdown.js:53-58 | registers or removes the document listeners and leaves the open state alone |
| Dropdown.Dropdown.Close | src/js/Dropdown.js:82-88 | the dropdown ends closed with `aria-expanded="false"` and no listeners; closing a closed dropdown changes nothing |
| Dropdown.Dropdown.Open | src/js/Dropdown.js:69-80 | opening a closed dropdown sets `aria-expanded="true"` and the listeners, and the broadcast loop closes every other dropdown of the scope; opening an open one changes nothing |
| Dropdown.Dropdown.OnOtherDropdownOpen | src/js/Dropdown.js:47-51 | an announcement from another dropdown closes this one; its own announcement leaves it open |
| Dropdown.Dropdown.Toggle | src/js/Dropdown.js:65-67 | the button flips the open state; an opening closes all the other dropdowns of the scope |
| Dropdown.Dropdown.OnKeyDown | src/js/Dropdown.js:33-37 | Escape closes the dropdown and any other key leaves it as it was |
| Dropdown.Dropdown.OnDocumentClick | src/js/Dropdown.js:39-45 | a click outside closes the dropdown and a click inside leaves it as it was |
| Dropdown.ToggleKeepsOneOpen | src/js/Dropdown.js:65-80 | a button click on any dropdown keeps at most one dropdown of the scope open |
| Search.Search.constructor | src/js/Search.js:19-24 | a hidden search form with no document listeners |
| Search.Search.ToggleExternalListeners | src/js/Search.js:50-54 | registers or removes the document listeners and leaves the active state alone |
| Search.Search.Open | src/js/Search.js:56-62 | the form ends active with `aria-expanded="true"` and listeners; opening an active form changes nothing |
| Search.Search.Close | src/js/Search.js:64-70 | the form ends hidden with `aria-expanded="false"` and no listeners; closing a hidden form changes nothing |
| Search.Search.ToggleClickButton | src/js/Search.js:30-34 | the button flips the active state |
| Search.Search.OnDocumentClick | src/js/Search.js:36-42 | a click outside hides the form and a click inside leaves it as it was |
| Search.Search.OnKeyDown | src/js/Search.js:44-48 | Escape hides the form and any other key leaves it as it was |
| Gallery.StepInRange | src/js/Gallery.js:151-154 | one step either way from a valid index gives a valid index, namely the neighbour taken round the circle |
| Gallery.StepWraps | src/js/Gallery.js:152 | next from the last item goes to the first, and previous from the first goes to the last |
| Gallery.StepInverse | src/js/Gallery.js:152 | next then previous, and previous then next, both return to the starting index |
| Gallery.CounterText | src/js/Gallery.js:169 | read back, the counter's leading digit run has the one-based position as its value, then comes ` / `, then digits whose value is the item count |
| Gallery.CounterTextInjective | src/js/Gallery.js:169 | different positions or counts give different counter texts |
| Gallery.FindIndexBySrc | src/js/Gallery.js:99 | the index of the first item with the given source, or -1 when no item has it |
| Gallery.Gallery.constructor | src/js/Gallery.js:20-30 | one item per link, in document order, with the link's `href` as source and an empty alt where the link's image has none; the gallery is built only when there is at least one; it starts closed at index 0 |
| Gallery.Gallery.UpdateContent | src/js/Gallery.js:156-170 | starts loading the active image and sets the counter for the active index |
| Gallery.Gallery.Open | src/js/Gallery.js:137-144 | index -1 changes nothing; any other index becomes active and the lightbox opens |
| Gallery.Gallery.Close | src/js/Gallery.js:146-149 | the lightbox closes and the active index stays |
| Gallery.Gallery.ChangeSlide | src/js/Gallery.js:151-154 | the active index moves one step round the circle and the open state stays |
| Gallery.Gallery.OnKeyDown | src/js/Gallery.js:119-133 | keys do nothing while closed; while open, Escape closes, ArrowLeft and ArrowRight step back and forward, and other keys do nothing |
| Gallery.Gallery.OnItemClick | src/js/Gallery.js:94-102 | a click on a link opens the first item whose source is the link's `href`; a click elsewhere, or on a link with no matching item, changes nothing |
| Gallery.Gallery.OnOverlayClick | src/js/Gallery.js:111-115 | a click closes the lightbox only when it hits the overlay |
| Popup.Popup.constructor | src/js/Popup.js:22-29 | a hidden popup with no variant class and no timers |
| Popup.Popup.Show | src/js/Popup.js:31-53 | sets the texts the markup has elements for, with `''` when a text is missing; sets the success class for `success` or no type, the error class for `error`, and neither for any other type; opens the popup and schedules a new timer while earlier timers stay scheduled |
| Popup.Popup.Close | src/js/Popup.js:55-64 | hides the popup and cancels only the last scheduled timer |
| Popup.Popup.TimerFires | src/js/Popup.js:50-52 | a firing timer closes the popup |
| Popup.Popup.OnPopupShow | src/js/Popup.js:78-82 | a request with the popup's id shows it as `Show` does: texts, variant, open, and a new timer added to the pending ones; a request with any other id leaves the whole popup unchanged |
| Popup.Popup.OnKeyDown | src/js/Popup.js:66-70 | Escape closes and hides the popup and clears the last scheduled timer, keeping texts and variant; any other key leaves the whole popup unchanged |
| Popup.Popup.OnOverlayClick | src/js/Popup.js:72-76 | a click on the overlay itself closes and hides the popup and clears the last scheduled timer, keeping texts and variant; a click on anything inside leaves the whole popup unchanged |
| Popup.EarlierTimerClosesLaterShow | src/js/Popup.js:50-52 | when a popup is shown twice, the first show's timer still closes it, whatever time is left on the second timer |
| Subscribe.Trim | src/js/SubscribeForm.js:54 | the result is a middle part of the input, with only white space cut from either end, and it neither starts nor ends with white space |
| Subscribe.TrimEmpty | src/js/SubscribeForm.js:54-59 | the trimmed value is empty exactly when the input is all white space |
| Subscribe.TrimIdempotent | src/js/SubscribeForm.js:54 | trimming a trimmed value changes nothing |
| Subscribe.IsValidEmail | src/js/SubscribeForm.js:22-25 | an accepted address has at least six characters |
| Subscribe.EmailIff | src/js/SubscribeForm.js:22-25 | the decision accepts a text exactly when the address pattern matches it: local part, `@`, domain, dot, and 2 to 6 letters after the last dot |
| Subscribe.ExactlyOneAt | src/js/SubscribeForm.js:23 | an accepted address contains exactly one `@` |
| Subscribe.SubscribeForm.constructor | src/js/SubscribeForm.js:14-20 | no error and not loading |
| Subscribe.SubscribeForm.ShowError | src/js/SubscribeForm.js:27-30 | the error text is the message and the field is marked invalid |
| Subscribe.SubscribeForm.ClearError | src/js/SubscribeForm.js:33-36 | the error text is empty and the field is not marked invalid |
| Subscribe.SubscribeForm.SetLoading | src/js/SubscribeForm.js:82-92 | the button's disabled and loading flags and the input's disabled flag all take the given value |
| Subscribe.SubscribeForm.OnSubmit | src/js/SubscribeForm.js:50-66 | an empty trimmed value ends with `Email is required`, and a malformed one with `Please enter a valid email address`; neither enters loading; a valid one clears the error, enters loading and submits the trimmed address |
| Subscribe.SubscribeForm.FinishSubmit | src/js/SubscribeForm.js:68-80 | acceptance requests a popup addressed to `success-popup` with type `success`, title `Success!` and a message starting with the thank-you text, and resets the field; rejection shows the server's message; loading ends either way |
| Subscribe.SubscribeForm.OnInput | src/js/SubscribeForm.js:107-111 | typing clears the error only when the field is marked invalid |
| Events.DispatchPopupShow | src/js/Popup.js:78-82 | a `popup:show` dispatched to all popups shows each popup with the requested id as `Show` does (texts, variant, open, a new pending timer) and leaves every other popup's whole state unchanged |
| Events.AcceptedSubscriptionShowsSuccess | src/js/SubscribeForm.js:71-74 | an accepted subscription ends with every popup whose id is `success-popup` open in the success variant, and the form empty and out of loading |
| Events.AddToCartFromCatalog | src/js/Products.js:168-179 | an add-to-cart click adds the named loaded product to the cart; a card whose id matches no loaded product leaves the cart unchanged |

## Left out

- `src/js/GalleryScroll.js` is not part of this model: it is animation
  driven by floating-point easing and pointer geometry.
- `src/js/Slider.js` is not part of this model: it configures the external
  Swiper library.
- `src/js/main.js` is not part of this model: it only creates the
  controllers.
- The `*Collection` classes and every `destroy` method (teardown) are not
  modelled. `CartCollection.destroy` calls a `destroy` that `Cart` does not
  define.
- The HTML templates are left out: `makeProductCard`, `makeItemHtml`,
  `renderProducts`, `sanitize` and `toLocaleString`. So are the modal
  markup of the gallery, focus handling and `document.body.style.overflow`.
  The rendered cart list is modelled as "empty notice" or "one row per
  item".
- The gallery's image preload (`onload`) is left out: `imageLoading` is set
  and never cleared.
- Network, timers and randomness are parameters:
  - the fetch outcome (`FetchResult`);
  - which timer fires (`TimerFires`, `AutoCloseFires`);
  - the server's answer (`Outcome`, for `Math.random() > 0.1`).
  Timer durations (1000 ms and 5000 ms, and the 1500 ms server delay) are
  not modelled.
- Products.Products.CompleteFetch: a successful response is assumed to be
  a list of products. An HTTP error and a body that fails to parse are both
  the single `Err` outcome.
- Products.Products.constructor: the show-more control is assumed present
  in the markup.
- The 5-second removal of a catalogue error message is not modelled. Errors
  accumulate in `errors`.
- Storage.StorageService.Keys: the order of the list follows the browser's
  key enumeration. The contract states only which names appear, and that
  each appears once.
- Storage.StorageService.constructor: keys and values are strings, so the
  `typeof key !== 'string'` branch of `#validateKey` cannot be reached.
  Whether storage works at all (`usable`) and whether it is full
  (`quotaFull`) are fixed properties of the environment. The console
  messages are not modelled.
- Json.Parse: JSON covers whitespace-free text with integer numbers, since
  that is what `Stringify` produces. `Stringify` escapes only `"` and `\`
  in strings; `JSON.stringify` also escapes control characters, so for
  strings holding those the stored text the `Set` and `OnProductAdd`
  contracts name differs from the browser's (the round trip still holds). Other inputs fail to parse, which
  `get` treats like a parse error (it returns the default).
- Cart.LoadItems: a stored value that is not a list of cart items loads
  as the empty list. The original would fail later on such data.
- Catalog.ProductRoundTrip: products are stored with their fields in a
  fixed order. Product ids are integers or strings.
- Dropdown.Dropdown.Open: the dropdowns listening on one scope are given as
  the `peers` argument, which must contain the opening dropdown.
- Dropdown, Search, Popup, SubscribeForm: each is assumed to start in the
  state its markup normally has: closed, hidden, or with no error.
- Subscribe.SubscribeForm.FinishSubmit: `form.reset()` is modelled as
  setting the field to the empty string. That is its default value in the
  markup.
- Gallery.Gallery.OnItemClick: a link without an `href` is not modelled,
  because links carry a source string.
