/** The catalogue pager: fetches the product list a page at a time, appends
    each page to what it holds, removes the show-more control after a short
    page, and answers add-to-cart clicks with the product they name.
    A fetch is split into its start (up to the network wait) and its
    completion, so several fetches may be in flight at once. */
module Products {
  import opened Wrappers
  import opened Text
  import opened Catalog
  import Json

  const Endpoint: string := "https://6954e85b1cd5294d2c7dd661.mockapi.io/products"

  /** Products per page. */
  const Limit: int := 4

  const LoadError: string := "Failed to load products. Please try again."

  const PageQuery: string := Endpoint + "?page="

  /** The query parameters after `?page=`: the page, then the limit. */
  function PageParams(page: int, limit: int): string {
    IntToString(page) + "&limit=" + IntToString(limit)
  }

  /** The request for one page: the endpoint with `page` and `limit` as query
      parameters, in that order. Read back, the digits after `?page=` are
      the page and the digits after `&limit=` are the limit. */
  function RequestUrl(page: int, limit: int): (url: string)
    ensures StartsWith(url, PageQuery) && url[|PageQuery|..] == PageParams(page, limit)
    ensures page >= 0 && limit >= 0 ==>
              var q := url[|PageQuery|..];
              var k := Json.DigitRun(q);
              k + 7 <= |q| && q[k..k + 7] == "&limit="
              && DigitsValue(q[..k]) == page
              && AllDigits(q[k + 7..]) && DigitsValue(q[k + 7..]) == limit
  {
    StartsWithConcat(PageQuery, PageParams(page, limit));
    if page >= 0 && limit >= 0 then
      ParamsReadBack(page, limit);
      PageQuery + PageParams(page, limit)
    else
      PageQuery + PageParams(page, limit)
  }

  lemma ParamsReadBack(page: nat, limit: nat)
    ensures var q := PageParams(page, limit);
      var k := Json.DigitRun(q);
      k + 7 <= |q| && q[k..k + 7] == "&limit="
      && AllDigits(q[..k]) && DigitsValue(q[..k]) == page
      && AllDigits(q[k + 7..]) && DigitsValue(q[k + 7..]) == limit
  {
    assert PageParams(page, limit) == NatToString(page) + "&limit=" + NatToString(limit);
    Json.NumbersAround(page, "&limit=", limit);
  }

  /** The parameters split at their first `&`. */
  lemma ParamsShape(p: int, l: int)
    ensures PageParams(p, l) == IntToString(p) + ['&'] + ("limit=" + IntToString(l))
  {
    assert "&limit=" == ['&'] + "limit=";
  }

  /** Different pages or limits give different query parameters. */
  lemma PageParamsInjective(p: int, q: int, l: int, m: int)
    ensures PageParams(p, l) == PageParams(q, m) ==> p == q && l == m
  {
    if PageParams(p, l) == PageParams(q, m) {
      var r1, r2 := "limit=" + IntToString(l), "limit=" + IntToString(m);
      ParamsShape(p, l);
      ParamsShape(q, m);
      NoMarkInNumber(p, '&');
      NoMarkInNumber(q, '&');
      SplitAtMark(IntToString(p), IntToString(q), '&', r1, r2);
      StartsWithConcat("limit=", IntToString(l));
      StartsWithConcat("limit=", IntToString(m));
      IntToStringInjective(p, q);
      IntToStringInjective(l, m);
    }
  }

  /** Different pages or limits are requested under different URLs. */
  lemma RequestUrlInjective(p: int, q: int, l: int, m: int)
    ensures RequestUrl(p, l) == RequestUrl(q, m) ==> p == q && l == m
  {
    PageParamsInjective(p, q, l, m);
  }

  /** The position of the first product whose id, as a string, is `pid`,
      or -1. */
  function FirstIndexOf(products: seq<Product>, pid: string): (k: int)
    ensures -1 <= k < |products|
    ensures k >= 0 ==> NormalizeId(products[k].id) == pid
                       && forall j :: 0 <= j < k ==> NormalizeId(products[j].id) != pid
    ensures k == -1 ==> forall j :: 0 <= j < |products| ==> NormalizeId(products[j].id) != pid
    decreases |products|
  {
    if products == [] then -1
    else if NormalizeId(products[0].id) == pid then 0
    else
      var tail := products[1..];
      var k := FirstIndexOf(tail, pid);
      assert forall j :: 0 <= j < |tail| ==> tail[j] == products[j + 1];
      if k == -1 then -1 else k + 1
  }

  /** `products.find(...)`: the first product whose id, as a string, is `pid`. */
  function FindProduct(products: seq<Product>, pid: string): (r: Option<Product>)
    ensures r.Some? ==> r.value in products && NormalizeId(r.value.id) == pid
    ensures r.None? ==> forall k :: 0 <= k < |products| ==> NormalizeId(products[k].id) != pid
    ensures r.Some? ==>
              exists k :: 0 <= k < |products| && products[k] == r.value
                          && forall j :: 0 <= j < k ==> NormalizeId(products[j].id) != pid
  {
    var k := FirstIndexOf(products, pid);
    if k == -1 then None else Some(products[k])
  }

  /** The outcome of one fetch, as the network delivers it. */
  datatype FetchResult = Ok(list: seq<Product>) | Err

  /** Who started a fetch: `init` or a show-more click. */
  datatype Origin = FromInit | FromShowMore

  datatype Request = Request(origin: Origin, url: string)

  /** The show-more control: present, with or without its loading class, or
      removed for good. */
  datatype Control = Present(loading: bool) | Removed

  /** Whether a completed fetch moves to the next page. A short page when the
      control is already gone fails on the control's removal, and that
      failure is reported like a network error. */
  predicate Advances(control: Control, result: FetchResult) {
    result.Ok? && (|result.list| >= Limit || control.Present?)
  }

  predicate InFlight(pending: seq<Request>, origin: Origin) {
    exists k :: 0 <= k < |pending| && pending[k].origin == origin
  }

  /** No caller has two fetches in flight. */
  predicate OneEach(pending: seq<Request>) {
    forall j, k :: 0 <= j < k < |pending| ==> pending[j].origin != pending[k].origin
  }

  lemma InFlightAppend(pending: seq<Request>, r: Request, origin: Origin)
    ensures InFlight(pending + [r], origin) <==> InFlight(pending, origin) || r.origin == origin
  {
    var after := pending + [r];
    if InFlight(pending, origin) {
      var k :| 0 <= k < |pending| && pending[k].origin == origin;
      assert after[k] == pending[k];
    }
    if r.origin == origin {
      assert after[|pending|] == r;
    }
    if InFlight(after, origin) {
      var k :| 0 <= k < |after| && after[k].origin == origin;
      if k < |pending| {
        assert after[k] == pending[k];
      }
    }
  }

  /** Completing fetch `i` leaves in flight exactly the other callers' fetches. */
  lemma InFlightRemove(pending: seq<Request>, i: nat, origin: Origin)
    requires i < |pending| && OneEach(pending)
    ensures OneEach(pending[..i] + pending[i + 1..])
    ensures InFlight(pending[..i] + pending[i + 1..], origin)
        <==> InFlight(pending, origin) && pending[i].origin != origin
  {
    var rest := pending[..i] + pending[i + 1..];
    assert forall k :: 0 <= k < |rest| ==> rest[k] == pending[if k < i then k else k + 1];
    if InFlight(pending, origin) && pending[i].origin != origin {
      var k :| 0 <= k < |pending| && pending[k].origin == origin;
      assert rest[if k < i then k else k - 1] == pending[k];
    }
  }

  class Products {
    var page: int
    var isLoading: bool
    var products: seq<Product>
    var showMore: Control
    /** The loading class on the product list, shown during the first fetch. */
    var listLoading: bool
    /** The error messages shown, oldest first. */
    var errors: seq<string>
    /** Fetches started and not yet completed. */
    var pending: seq<Request>

    /** The show-more flag is set exactly while a show-more fetch is in
        flight, the list's loading class exactly while the first fetch is,
        and no caller has two fetches in flight. */
    ghost predicate Valid()
      reads this
    {
      page >= 1
      && (isLoading <==> InFlight(pending, FromShowMore))
      && (listLoading <==> InFlight(pending, FromInit))
      && OneEach(pending)
    }

    /** The constructor, followed by `init` up to its network wait. */
    constructor ()
      ensures Valid()
      ensures page == 1 && !isLoading && products == [] && errors == []
      ensures listLoading && showMore == Present(true)
      ensures pending == [Request(FromInit, RequestUrl(1, Limit))]
    {
      page := 1;
      isLoading := false;
      products := [];
      showMore := Present(false);
      errors := [];
      pending := [];
      listLoading := true;
      new;
      StartFetch(FromInit);
      assert pending[0].origin == FromInit;
    }

    /** `fetchAndRender` up to its network wait. */
    method StartFetch(origin: Origin)
      modifies this
      ensures pending == old(pending) + [Request(origin, RequestUrl(page, Limit))]
      ensures showMore == if old(showMore).Present? then Present(true) else Removed
      ensures page == old(page) && products == old(products) && errors == old(errors)
      ensures isLoading == old(isLoading) && listLoading == old(listLoading)
    {
      if showMore.Present? {
        showMore := Present(true);
      }
      var url := RequestUrl(page, Limit);
      pending := pending + [Request(origin, url)];
    }

    /** A click on show-more: ignored while a show-more fetch is in flight.
        The listener sits on the control itself, so once the control is
        removed no click reaches it. */
    method OnShowMoreClick()
      requires Valid() && showMore.Present?
      modifies this
      ensures Valid()
      ensures old(isLoading) ==> pending == old(pending) && showMore == old(showMore)
      ensures !old(isLoading) ==>
                isLoading
                && pending == old(pending) + [Request(FromShowMore, RequestUrl(page, Limit))]
                && showMore == Present(true)
      ensures page == old(page) && products == old(products) && errors == old(errors)
      ensures listLoading == old(listLoading)
    {
      if isLoading {
        return;
      }
      isLoading := true;
      ghost var was := pending;
      StartFetch(FromShowMore);
      InFlightAppend(was, pending[|pending| - 1], FromShowMore);
      InFlightAppend(was, pending[|pending| - 1], FromInit);
    }

    /** Fetch `i` of those in flight completes with `result`: the rest of
        `fetchAndRender`, then the rest of its caller. */
    method CompleteFetch(i: nat, result: FetchResult)
      requires Valid() && i < |pending|
      modifies this
      ensures Valid()
      ensures pending == old(pending[..i] + pending[i + 1..])
      ensures products == old(products) + (if result.Ok? then result.list else [])
      ensures page == old(page) + (if Advances(old(showMore), result) then 1 else 0)
      ensures errors == old(errors) + (if Advances(old(showMore), result) then [] else [LoadError])
      ensures showMore == if old(showMore).Removed? || (result.Ok? && |result.list| < Limit)
        then Removed else Present(false)
      ensures old(pending[i].origin) == FromInit ==> !listLoading && isLoading == old(isLoading)
      ensures old(pending[i].origin) == FromShowMore ==> !isLoading && listLoading == old(listLoading)
    {
      var request := pending[i];
      InFlightRemove(pending, i, FromInit);
      InFlightRemove(pending, i, FromShowMore);
      pending := pending[..i] + pending[i + 1..];
      match result {
        case Ok(list) =>
          products := products + list;
          if |list| < Limit {
            if showMore.Removed? {
              errors := errors + [LoadError];
            } else {
              showMore := Removed;
              page := page + 1;
            }
          } else {
            page := page + 1;
          }
        case Err =>
          errors := errors + [LoadError];
      }
      if showMore.Present? {
        showMore := Present(false);
      }
      if request.origin == FromInit {
        listLoading := false;
      } else {
        isLoading := false;
      }
    }

    /** A click in the list. `pid` is the `data-pid` of the card whose
        add-to-cart button was hit, or None when the click hit no such
        button; the result is the `product:add` event sent, if any, and the
        product it carries. */
    method OnAddToCartClick(pid: Option<string>) returns (event: Option<Option<Product>>)
      ensures pid.None? <==> event.None?
      ensures pid.Some? ==> event == Some(FindProduct(products, pid.value))
    {
      if pid.None? {
        return None;
      }
      var getProduct := FindProduct(products, pid.value);
      event := Some(getProduct);
    }
  }

  /** `init` does not raise the show-more flag, so a show-more click while the
      first page is still loading requests that same page again. */
  method UnguardedFirstFetch() returns (pager: Products)
    ensures fresh(pager) && pager.Valid()
    ensures |pager.pending| == 2 && pager.pending[0].url == pager.pending[1].url == RequestUrl(1, Limit)
  {
    pager := new Products();
    pager.OnShowMoreClick();
  }
}
