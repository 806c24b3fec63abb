/** The document-level custom events that connect the controllers: a
    `popup:show` reaches every popup's listener, and a `product:add` sent
    by the catalogue reaches the cart. */
module Events {
  import opened Wrappers
  import Cart
  import Products
  import Popup
  import Subscribe

  /** No popup appears twice among the listeners. */
  ghost predicate Distinct(popups: seq<Popup.Popup>) {
    forall i, j :: 0 <= i < j < |popups| ==> popups[i] != popups[j]
  }

  /** What showing `data` leaves in popup `p`, relative to its state
      before the dispatch. */
  twostate predicate ShownWith(p: Popup.Popup, data: Popup.PopupRequest)
    reads p
  {
    p.isOpen && p.isSuccess == (Popup.KindOf(data) == "success") && p.isError == (Popup.KindOf(data) == "error")
    && p.title == (if p.hasTitle then data.title.GetOr("") else old(p.title))
    && p.message == (if p.hasMessage then data.message.GetOr("") else old(p.message))
    && p.autoCloseTimeout == Some(old(p.nextTimer)) && p.pendingTimers == old(p.pendingTimers) + {old(p.nextTimer)}
  }

  /** Dispatching `popup:show` on the document: each popup's listener runs
      in turn. Exactly the popups whose id the request names are shown; every
      other one keeps its whole state. */
  method DispatchPopupShow(popups: seq<Popup.Popup>, data: Popup.PopupRequest)
    requires Distinct(popups)
    requires forall p :: p in popups ==> p.Valid()
    modifies set p | p in popups
    ensures forall p :: p in popups ==> p.Valid()
    ensures forall p :: p in popups && p.id == data.id ==> ShownWith(p, data)
    ensures forall p :: p in popups && p.id != data.id ==> unchanged(p)
  {
    var k := 0;
    while k < |popups|
      invariant 0 <= k <= |popups|
      invariant forall p :: p in popups ==> p.Valid()
      invariant forall j :: 0 <= j < k && popups[j].id == data.id ==> ShownWith(popups[j], data)
      invariant forall j :: 0 <= j < k && popups[j].id != data.id ==> unchanged(popups[j])
      invariant forall j :: k <= j < |popups| ==> unchanged(popups[j])
    {
      popups[k].OnPopupShow(data);
      k := k + 1;
    }
  }

  /** An accepted subscription ends with the success popup open, showing the
      success variant, and the form emptied and out of loading. */
  method AcceptedSubscriptionShowsSuccess(form: Subscribe.SubscribeForm, i: nat, popups: seq<Popup.Popup>)
    requires form.Valid() && i < |form.submissions|
    requires Distinct(popups) && forall p :: p in popups ==> p.Valid()
    modifies form, set p | p in popups
    ensures form.Valid() && form.value == "" && !form.buttonDisabled && !form.inputDisabled
    ensures forall p :: p in popups && p.id == "success-popup" ==> p.isOpen && p.isSuccess && !p.isError
  {
    var popup := form.FinishSubmit(i, Subscribe.Accepted);
    DispatchPopupShow(popups, popup.value);
  }

  /** An add-to-cart click in the catalogue, carried to the cart by
      `product:add`: the product the card names is added to the cart, and a
      click on a card of no loaded product changes nothing. */
  method AddToCartFromCatalog(catalogue: Products.Products, cart: Cart.Cart, pid: string)
    requires cart.Valid()
    modifies cart, cart.storage
    ensures cart.Valid()
    ensures Products.FindProduct(catalogue.products, pid).Some? ==>
              cart.items == Cart.AddProduct(old(cart.items), Products.FindProduct(catalogue.products, pid).value)
    ensures Products.FindProduct(catalogue.products, pid).None? ==> cart.items == old(cart.items)
  {
    var event := catalogue.OnAddToCartClick(Some(pid));
    cart.OnProductAdd(event.value);
  }
}
