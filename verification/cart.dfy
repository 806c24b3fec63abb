/** The cart: a list of line items merged by normalised product id, a count
    badge and an item list rendered from it, a panel that auto-opens on every
    addition and closes again on a single timer, and persistence of the list
    under one storage key. */
module Cart {
  import opened Wrappers
  import opened Text
  import opened Json
  import opened Catalog
  import opened Storage

  /** The storage key holding the item list. */
  const CartKey: string := "cartItem"

  /** `{...product, count}`: a product copied into the cart with its quantity. */
  datatype CartItem = CartItem(product: Product, count: int)

  /** One row of the rendered list; `productId` is the row's `data-product-id`. */
  datatype Row = Row(productId: string, images: string, title: string, alt: string, count: int)

  /** What the list element shows: the empty-cart notice or one row per item. */
  datatype ListView = EmptyNotice | Rows(rows: seq<Row>)

  function ItemId(it: CartItem): string {
    NormalizeId(it.product.id)
  }

  /** At most one item per normalised id, and every count at least 1. */
  predicate WellFormed(items: seq<CartItem>) {
    (forall i, j :: 0 <= i < j < |items| ==> ItemId(items[i]) != ItemId(items[j]))
    && (forall i :: 0 <= i < |items| ==> items[i].count >= 1)
  }

  // ------------------------------------------------------------- line items

  /** `items.find(...)`: the position of the first item whose normalised id is `id`. */
  function FindId(items: seq<CartItem>, id: string): (r: Option<nat>)
    ensures r.Some? ==> r.value < |items| && ItemId(items[r.value]) == id
    ensures r.Some? ==> forall j :: 0 <= j < r.value ==> ItemId(items[j]) != id
    ensures r.None? ==> forall j :: 0 <= j < |items| ==> ItemId(items[j]) != id
    decreases |items|
  {
    if items == [] then None
    else if ItemId(items[0]) == id then Some(0)
    else match FindId(items[1..], id)
      case Some(k) => Some(k + 1)
      case None => None
  }

  /** The list after a `product:add` carrying `p`. */
  function AddProduct(items: seq<CartItem>, p: Product): seq<CartItem> {
    match FindId(items, NormalizeId(p.id))
    case Some(i) => items[i := items[i].(count := items[i].count + 1)]
    case None => items + [CartItem(p, 1)]
  }

  /** The list after removing normalised id `id`: `items.filter(...)`. */
  function RemoveId(items: seq<CartItem>, id: string): (r: seq<CartItem>)
    ensures |r| <= |items|
    decreases |items|
  {
    if items == [] then []
    else (if ItemId(items[0]) == id then [] else [items[0]]) + RemoveId(items[1..], id)
  }

  /** The `reduce` in `renderCounter`: the sum of all counts. */
  function TotalCount(items: seq<CartItem>): int
    decreases |items|
  {
    if items == [] then 0 else items[0].count + TotalCount(items[1..])
  }

  /** The badge text, or None when there is no badge. */
  function Badge(items: seq<CartItem>): Option<string> {
    var total := TotalCount(items);
    if total == 0 then None else Some(IntToString(total))
  }

  function RowOf(it: CartItem): Row {
    Row(ItemId(it), it.product.images, it.product.title, it.product.alt, it.count)
  }

  function View(items: seq<CartItem>): ListView {
    if |items| == 0 then EmptyNotice else Rows(seq(|items|, i requires 0 <= i < |items| => RowOf(items[i])))
  }

  // ------------------------------------------------------------ stored form

  function ItemToJson(it: CartItem): Json {
    Obj(ProductMembers(it.product) + [Member("count", Num(it.count))])
  }

  function ItemFromJson(j: Json): Option<CartItem> {
    match j
    case Obj(ms) => (
      var (p, rest) :- ProductFromMembers(ms);
      if |rest| == 1 && rest[0].key == "count" && rest[0].value.Num?
      then Some(CartItem(p, rest[0].value.n))
      else None)
    case _ => None
  }

  function ItemListToJson(items: seq<CartItem>): seq<Json>
    decreases |items|
  {
    if items == [] then [] else [ItemToJson(items[0])] + ItemListToJson(items[1..])
  }

  function ItemListFromJson(js: seq<Json>): Option<seq<CartItem>>
    decreases |js|
  {
    if js == [] then Some([])
    else
      var it :- ItemFromJson(js[0]);
      var more :- ItemListFromJson(js[1..]);
      Some([it] + more)
  }

  /** What `set('cartItem', items)` stores. */
  function ItemsToJson(items: seq<CartItem>): Json {
    Arr(ItemListToJson(items))
  }

  /** The list a new cart starts with over a working store: `get('cartItem', [])`
      read as an item list, and the empty list when the stored value is not one. */
  function LoadItems(store: map<string, string>): seq<CartItem> {
    match GetFrom(store, CartKey, Arr([]))
    case Arr(js) => ItemListFromJson(js).GetOr([])
    case _ => []
  }

  // ----------------------------------------------------------------- lemmas

  /** Adding a product whose id is already in the list increments the first
      such item's count and leaves the length and every other item alone. */
  lemma AddMerges(items: seq<CartItem>, p: Product, i: nat)
    requires i < |items| && ItemId(items[i]) == NormalizeId(p.id)
    requires forall j :: 0 <= j < i ==> ItemId(items[j]) != NormalizeId(p.id)
    ensures |AddProduct(items, p)| == |items|
    ensures AddProduct(items, p)[i] == CartItem(items[i].product, items[i].count + 1)
    ensures forall k :: 0 <= k < |items| && k != i ==> AddProduct(items, p)[k] == items[k]
  {
    var r := FindId(items, NormalizeId(p.id));
    assert r.Some?;
    assert r.value == i;
  }

  /** Adding a product with a new id appends it with count 1. */
  lemma AddAppends(items: seq<CartItem>, p: Product)
    requires forall j :: 0 <= j < |items| ==> ItemId(items[j]) != NormalizeId(p.id)
    ensures AddProduct(items, p) == items + [CartItem(p, 1)]
  {
  }

  lemma AddWellFormed(items: seq<CartItem>, p: Product)
    requires WellFormed(items)
    ensures WellFormed(AddProduct(items, p))
  {
  }

  /** Remove keeps exactly the items with another id. */
  lemma {:induction false} RemoveMembers(items: seq<CartItem>, id: string)
    ensures forall x :: x in RemoveId(items, id) <==> x in items && ItemId(x) != id
    decreases |items|
  {
    if items != [] {
      RemoveMembers(items[1..], id);
      assert items == [items[0]] + items[1..];
    }
  }

  lemma {:induction false} RemoveWellFormed(items: seq<CartItem>, id: string)
    requires WellFormed(items)
    ensures WellFormed(RemoveId(items, id))
    decreases |items|
  {
    if items != [] {
      var tail := items[1..];
      TailWellFormed(items);
      RemoveWellFormed(tail, id);
      RemoveMembers(tail, id);
      var rest := RemoveId(tail, id);
      if ItemId(items[0]) != id {
        assert RemoveId(items, id) == [items[0]] + rest;
        ConsWellFormed(items[0], rest);
      } else {
        assert RemoveId(items, id) == rest;
      }
    }
  }

  /** The tail of a well-formed list is well formed and holds no item with
      the head's id. */
  lemma TailWellFormed(items: seq<CartItem>)
    requires WellFormed(items) && items != []
    ensures WellFormed(items[1..])
    ensures forall x :: x in items[1..] ==> ItemId(x) != ItemId(items[0])
  {
    var tail := items[1..];
    forall i, j | 0 <= i < j < |tail|
      ensures ItemId(tail[i]) != ItemId(tail[j])
    {
      assert tail[i] == items[i + 1] && tail[j] == items[j + 1];
    }
    forall x | x in tail
      ensures ItemId(x) != ItemId(items[0])
    {
      var m :| 0 <= m < |tail| && tail[m] == x;
      assert tail[m] == items[m + 1];
    }
  }

  /** An item with a fresh id and a positive count may go in front of a
      well-formed list. */
  lemma ConsWellFormed(x: CartItem, rest: seq<CartItem>)
    requires WellFormed(rest) && x.count >= 1
    requires forall y :: y in rest ==> ItemId(y) != ItemId(x)
    ensures WellFormed([x] + rest)
  {
    var r := [x] + rest;
    forall i, j | 0 <= i < j < |r|
      ensures ItemId(r[i]) != ItemId(r[j])
    {
      assert r[j] == rest[j - 1];
      if i > 0 {
        assert r[i] == rest[i - 1];
      } else {
        assert rest[j - 1] in rest;
      }
    }
  }

  /** Removing distributes over concatenation, so it keeps the kept items in
      their order. */
  lemma {:induction false} RemoveConcat(a: seq<CartItem>, b: seq<CartItem>, id: string)
    ensures RemoveId(a + b, id) == RemoveId(a, id) + RemoveId(b, id)
    decreases |a|
  {
    if a != [] {
      assert (a + b)[1..] == a[1..] + b;
      RemoveConcat(a[1..], b, id);
    } else {
      assert a + b == b;
    }
  }

  lemma {:induction false} RemoveAbsent(items: seq<CartItem>, id: string)
    requires forall j :: 0 <= j < |items| ==> ItemId(items[j]) != id
    ensures RemoveId(items, id) == items
    decreases |items|
  {
    if items != [] {
      RemoveAbsent(items[1..], id);
      assert [items[0]] + items[1..] == items;
    }
  }

  /** Removing the id of the one item between two stretches without it
      leaves the two stretches joined. */
  lemma RemoveSplit(before: seq<CartItem>, x: CartItem, after: seq<CartItem>)
    requires forall j :: 0 <= j < |before| ==> ItemId(before[j]) != ItemId(x)
    requires forall j :: 0 <= j < |after| ==> ItemId(after[j]) != ItemId(x)
    ensures RemoveId(before + [x] + after, ItemId(x)) == before + after
  {
    var id := ItemId(x);
    var front := before + [x];
    RemoveConcat(front, after, id);
    RemoveConcat(before, [x], id);
    RemoveAbsent(before, id);
    RemoveAbsent(after, id);
    assert RemoveId([x], id) == [];
    assert RemoveId(front, id) == before;
  }

  /** The list shows the empty notice exactly for an empty cart, and
      otherwise one row per item, in order, carrying the item's id. */
  lemma ViewRows(items: seq<CartItem>)
    ensures View(items).EmptyNotice? <==> items == []
    ensures View(items).Rows? ==> |View(items).rows| == |items|
    ensures View(items).Rows? ==>
              forall k :: 0 <= k < |items| ==>
                View(items).rows[k].productId == ItemId(items[k]) && View(items).rows[k].count == items[k].count
  {
  }

  /** In a well-formed list no other item shares item `k`'s id. */
  lemma OthersDiffer(items: seq<CartItem>, k: nat)
    requires WellFormed(items) && k < |items|
    ensures forall j :: 0 <= j < |items| && j != k ==> ItemId(items[j]) != ItemId(items[k])
  {
  }

  /** A click on the delete button of row `k` removes exactly item `k`. */
  lemma RemoveRow(items: seq<CartItem>, k: nat)
    requires WellFormed(items) && k < |items|
    ensures RemoveId(items, ItemId(items[k])) == items[..k] + items[k + 1..]
  {
    var x := items[k];
    var before, after := items[..k], items[k + 1..];
    OthersDiffer(items, k);
    assert forall j :: 0 <= j < |before| ==> before[j] == items[j];
    assert forall j :: 0 <= j < |after| ==> after[j] == items[k + 1 + j];
    assert items == before + [x] + after;
    RemoveSplit(before, x, after);
  }

  lemma {:induction false} TotalAppend(items: seq<CartItem>, x: CartItem)
    ensures TotalCount(items + [x]) == TotalCount(items) + x.count
    decreases |items|
  {
    if items != [] {
      assert (items + [x])[1..] == items[1..] + [x];
      TotalAppend(items[1..], x);
    }
  }

  lemma {:induction false} TotalIncrement(items: seq<CartItem>, i: nat)
    requires i < |items|
    ensures TotalCount(items[i := items[i].(count := items[i].count + 1)]) == TotalCount(items) + 1
    decreases |items|
  {
    var r := items[i := items[i].(count := items[i].count + 1)];
    if i > 0 {
      assert r[1..] == items[1..][i - 1 := items[i].(count := items[i].count + 1)];
      TotalIncrement(items[1..], i - 1);
    } else {
      assert r[1..] == items[1..];
    }
  }

  /** Every addition raises the badge total by exactly one. */
  lemma AddTotal(items: seq<CartItem>, p: Product)
    ensures TotalCount(AddProduct(items, p)) == TotalCount(items) + 1
  {
    match FindId(items, NormalizeId(p.id))
    case Some(i) => TotalIncrement(items, i);
    case None => TotalAppend(items, CartItem(p, 1));
  }

  lemma {:induction false} TotalAtLeastLength(items: seq<CartItem>)
    requires forall i :: 0 <= i < |items| ==> items[i].count >= 1
    ensures TotalCount(items) >= |items|
    decreases |items|
  {
    if items != [] {
      TotalAtLeastLength(items[1..]);
    }
  }

  /** In a well-formed cart the badge is absent exactly when the cart is
      empty, and otherwise shows the total in decimal. */
  lemma BadgeExactly(items: seq<CartItem>)
    requires WellFormed(items)
    ensures Badge(items).None? <==> items == []
    ensures Badge(items).Some? ==> AllDigits(Badge(items).value) && DigitsValue(Badge(items).value) == TotalCount(items)
  {
    TotalAtLeastLength(items);
    if items != [] {
      NatToStringRoundTrip(TotalCount(items));
    }
  }

  /** The worked example: the same product added twice gives one row with
      quantity 2 and the badge "2". */
  lemma AddTwice(p: Product)
    ensures AddProduct(AddProduct([], p), p) == [CartItem(p, 2)]
    ensures Badge(AddProduct(AddProduct([], p), p)) == Some("2")
  {
    var once := AddProduct([], p);
    assert once == [CartItem(p, 1)];
    assert FindId(once, NormalizeId(p.id)) == Some(0);
    var twice := AddProduct(once, p);
    assert twice == [CartItem(p, 2)];
    assert TotalCount(twice) == 2 + TotalCount([]);
    assert IntToString(2) == NatToString(2) == [DigitChar(2)];
  }

  lemma {:induction false} ItemListRoundTrip(items: seq<CartItem>)
    ensures ItemListFromJson(ItemListToJson(items)) == Some(items)
    decreases |items|
  {
    if items != [] {
      ItemListRoundTrip(items[1..]);
      var it := items[0];
      ProductRoundTrip(it.product, [Member("count", Num(it.count))]);
      assert ItemFromJson(ItemToJson(it)) == Some(it);
      var js := ItemListToJson(items);
      assert js[0] == ItemToJson(it) && js[1..] == ItemListToJson(items[1..]);
      assert [it] + items[1..] == items;
    }
  }

  /** A cart constructed over the store that a save left behind starts with
      the saved list. */
  lemma ReloadAfterSave(store: map<string, string>, items: seq<CartItem>)
    ensures LoadItems(store[FullKey(CartKey) := Stringify(ItemsToJson(items))]) == items
  {
    GetAfterSet(store, CartKey, ItemsToJson(items), Arr([]));
    ItemListRoundTrip(items);
  }

  /** After the key is removed a new cart starts empty. */
  lemma ReloadAfterClear(store: map<string, string>)
    ensures LoadItems(store - {FullKey(CartKey)}) == []
  {
    HasAfterRemove(store, CartKey, Arr([]));
  }

  // ------------------------------------------------------------- the widget

  class Cart {
    var items: seq<CartItem>
    /** `is-visible` on the cart body. */
    var panelVisible: bool
    /** `autoCloseTimeout` holds a timer that has neither fired nor been cleared. */
    var closeTimerPending: bool
    /** The count span on the icon, when there is one. */
    var badge: Option<string>
    /** The contents of the list element. */
    var list: ListView
    const storage: StorageService

    /** What is on screen is what the items say. */
    ghost predicate Valid()
      reads this, storage
    {
      badge == Badge(items) && list == View(items) && storage.Valid()
    }

    /** Loads the saved list (default `[]`) and renders it. `bodyVisible`
        is the panel's state in the markup. */
    constructor (storage: StorageService, bodyVisible: bool)
      requires storage.Valid()
      modifies storage
      ensures Valid() && this.storage == storage
      ensures storage.store == old(storage.ProbedStore())
      ensures items == if storage.usable then LoadItems(storage.store) else []
      ensures panelVisible == bodyVisible && !closeTimerPending
    {
      var loaded := storage.Get(CartKey, Arr([]));
      var start := if loaded.Arr? then ItemListFromJson(loaded.elems).GetOr([]) else [];
      this.storage := storage;
      items := start;
      badge := Badge(start);
      list := View(start);
      panelVisible := bodyVisible;
      closeTimerPending := false;
    }

    method RenderCounter()
      modifies this
      ensures badge == Badge(items)
      ensures items == old(items) && list == old(list)
      ensures panelVisible == old(panelVisible) && closeTimerPending == old(closeTimerPending)
    {
      var count := TotalCount(items);
      if count == 0 {
        badge := None;
        return;
      }
      badge := Some(IntToString(count));
    }

    method RenderList()
      modifies this
      ensures list == View(items)
      ensures list.EmptyNotice? <==> items == []
      ensures items == old(items) && badge == old(badge)
      ensures panelVisible == old(panelVisible) && closeTimerPending == old(closeTimerPending)
    {
      list := View(items);
    }

    /** Shows the panel and replaces any pending close timer by a new one. */
    method ToggleAutoOpen()
      modifies this
      ensures panelVisible && closeTimerPending
      ensures items == old(items) && badge == old(badge) && list == old(list)
    {
      panelVisible := true;
      // `clearTimeout` of the old timer, then `setTimeout` of the new one
      closeTimerPending := false;
      closeTimerPending := true;
    }

    /** The auto-close timer fires. */
    method AutoCloseFires()
      requires closeTimerPending
      modifies this
      ensures !panelVisible && !closeTimerPending
      ensures items == old(items) && badge == old(badge) && list == old(list)
    {
      panelVisible := false;
      closeTimerPending := false;
    }

    /** A `product:add` event; `getProduct` is None when the event carries no product. */
    method OnProductAdd(getProduct: Option<Product>)
      requires Valid()
      modifies this, storage
      ensures Valid()
      ensures getProduct.None? ==>
                items == old(items) && panelVisible == old(panelVisible)
                && closeTimerPending == old(closeTimerPending) && storage.store == old(storage.store)
                && storage.isAvailable == old(storage.isAvailable)
      ensures getProduct.Some? ==>
                items == AddProduct(old(items), getProduct.value)
                && panelVisible && closeTimerPending
                && storage.store == if storage.usable && !storage.quotaFull
                  then old(storage.ProbedStore())[FullKey(CartKey) := Stringify(ItemsToJson(items))]
                  else old(storage.ProbedStore())
      ensures WellFormed(old(items)) ==> WellFormed(items)
    {
      if getProduct.None? {
        return;
      }
      var p := getProduct.value;
      var productId := NormalizeId(p.id);
      var existing := FindId(items, productId);
      if existing.Some? {
        var i := existing.value;
        items := items[i := items[i].(count := items[i].count + 1)];
      } else {
        items := items + [CartItem(p, 1)];
      }
      if WellFormed(old(items)) {
        AddWellFormed(old(items), p);
      }
      RenderCounter();
      RenderList();
      ToggleAutoOpen();
      var _ := storage.Set(CartKey, ItemsToJson(items));
    }

    /** A click in the list; `productId` is the `data-product-id` of the row
        whose delete button was hit, or None when the click hit no such button. */
    method OnRemoveClick(productId: Option<string>)
      requires Valid()
      modifies this, storage
      ensures Valid()
      ensures panelVisible == old(panelVisible) && closeTimerPending == old(closeTimerPending)
      ensures productId.None? ==>
                items == old(items) && storage.store == old(storage.store)
                && storage.isAvailable == old(storage.isAvailable)
      ensures productId.Some? ==>
                items == RemoveId(old(items), productId.value)
                && storage.store == if storage.usable && !storage.quotaFull
                  then old(storage.ProbedStore())[FullKey(CartKey) := Stringify(ItemsToJson(items))]
                  else old(storage.ProbedStore())
      ensures WellFormed(old(items)) ==> WellFormed(items)
    {
      if productId.None? {
        return;
      }
      items := RemoveId(items, productId.value);
      if WellFormed(old(items)) {
        RemoveWellFormed(old(items), productId.value);
      }
      RenderCounter();
      RenderList();
      var _ := storage.Set(CartKey, ItemsToJson(items));
    }

    method OnIconClick()
      modifies this
      ensures panelVisible == !old(panelVisible)
      ensures closeTimerPending == old(closeTimerPending)
      ensures items == old(items) && badge == old(badge) && list == old(list)
    {
      panelVisible := !panelVisible;
    }

    /** A click anywhere: closes a visible panel, and cancels the timer, when
        the target is outside the cart and not an add-to-cart button. */
    method OnDocumentClick(insideRoot: bool, onAddButton: bool)
      modifies this
      ensures var closes := old(panelVisible) && !insideRoot && !onAddButton;
        panelVisible == (old(panelVisible) && !closes)
        && closeTimerPending == (old(closeTimerPending) && !closes)
      ensures items == old(items) && badge == old(badge) && list == old(list)
    {
      if panelVisible && !insideRoot && !onAddButton {
        panelVisible := false;
        closeTimerPending := false;
      }
    }

    /** A click on the delete button of a row, as both listeners see it: the
        list's listener removes the product and re-renders the rows, which
        detaches the clicked button, so when the same click reaches the
        document its target is no longer inside the cart and the open panel
        closes with its timer cleared. */
    method OnDeleteButtonClick(productId: string)
      requires Valid()
      modifies this, storage
      ensures Valid()
      ensures items == RemoveId(old(items), productId)
      ensures storage.store == if storage.usable && !storage.quotaFull
                then old(storage.ProbedStore())[FullKey(CartKey) := Stringify(ItemsToJson(items))]
                else old(storage.ProbedStore())
      ensures !panelVisible
      ensures closeTimerPending == (old(closeTimerPending) && !old(panelVisible))
    {
      OnRemoveClick(Some(productId));
      OnDocumentClick(false, false);
    }

    /** Empties the list and deletes the stored key (rather than saving `[]`). */
    method ClearCart()
      requires Valid()
      modifies this, storage
      ensures Valid() && items == []
      ensures panelVisible == old(panelVisible) && closeTimerPending == old(closeTimerPending)
      ensures storage.store == if storage.usable
        then old(storage.ProbedStore()) - {FullKey(CartKey)}
        else old(storage.ProbedStore())
    {
      items := [];
      RenderList();
      RenderCounter();
      var _ := storage.Remove(CartKey);
    }
  }
}
