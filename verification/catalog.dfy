/** The product record that the catalogue endpoint returns and that the cart
    copies into its line items, with its identity rule and its stored form. */
module Catalog {
  import opened Wrappers
  import opened Text
  import opened Json

  /** A product id as the endpoint sends it: a number or a string. */
  datatype ProductId = NumId(n: int) | StrId(s: string)

  datatype Label = Label(kind: string, value: string)

  datatype Product = Product(
    id: ProductId,
    title: string,
    text: string,
    images: string,
    alt: string,
    price: int,
    priceOld: Option<int>,
    labels: seq<Label>,
    shareUrl: string,
    likeUrl: string)

  /** `String(id)`: ids are compared as strings, so the number 7 and the
      string "7" name the same product. */
  function NormalizeId(id: ProductId): (s: string)
    ensures id.NumId? && id.n >= 0 ==> AllDigits(s) && DigitsValue(s) == id.n
    ensures id.NumId? && id.n < 0 ==>
              |s| > 1 && s[0] == '-' && AllDigits(s[1..]) && DigitsValue(s[1..]) == -id.n
    ensures id.StrId? ==> s == id.s
  {
    match id
    case NumId(n) =>
      if n >= 0 then
        NatToStringRoundTrip(n);
        IntToString(n)
      else
        NatToStringRoundTrip(-n);
        assert IntToString(n)[1..] == NatToString(-n);
        IntToString(n)
    case StrId(s) => s
  }

  /** A numeric id and the string of its decimal digits name the same
      product. */
  lemma NumericIdMatchesItsText(n: int)
    ensures NormalizeId(NumId(n)) == NormalizeId(StrId(IntToString(n)))
  {
  }

  /** Normalising loses nothing between ids of the same kind. */
  lemma NormalizeIdInjective(a: ProductId, b: ProductId)
    requires a.NumId? == b.NumId?
    ensures NormalizeId(a) == NormalizeId(b) ==> a == b
  {
    if a.NumId? {
      IntToStringInjective(a.n, b.n);
    }
  }

  // ------------------------------------------------------------ stored form

  function IdToJson(id: ProductId): Json {
    match id
    case NumId(n) => Num(n)
    case StrId(s) => Str(s)
  }

  function IdFromJson(j: Json): Option<ProductId> {
    match j
    case Num(n) => Some(NumId(n))
    case Str(s) => Some(StrId(s))
    case _ => None
  }

  function LabelToJson(l: Label): Json {
    Obj([Member("type", Str(l.kind)), Member("value", Str(l.value))])
  }

  function LabelFromJson(j: Json): Option<Label> {
    match j
    case Obj(ms) =>
      if |ms| == 2 && ms[0].key == "type" && ms[0].value.Str? && ms[1].key == "value" && ms[1].value.Str?
      then Some(Label(ms[0].value.s, ms[1].value.s))
      else None
    case _ => None
  }

  function LabelsToJson(ls: seq<Label>): (js: seq<Json>)
    ensures |js| == |ls|
    decreases |ls|
  {
    if ls == [] then [] else [LabelToJson(ls[0])] + LabelsToJson(ls[1..])
  }

  function LabelsFromJson(js: seq<Json>): Option<seq<Label>>
    decreases |js|
  {
    if js == [] then Some([])
    else
      var l :- LabelFromJson(js[0]);
      var more :- LabelsFromJson(js[1..]);
      Some([l] + more)
  }

  /** The members of the stored object, in the order the endpoint sends them;
      `priceOld` is present only when the product has one. */
  function ProductMembers(p: Product): seq<Member> {
    [ Member("id", IdToJson(p.id)),
      Member("title", Str(p.title)),
      Member("text", Str(p.text)),
      Member("images", Str(p.images)),
      Member("alt", Str(p.alt)),
      Member("price", Num(p.price)) ]
    + (if p.priceOld.Some? then [Member("priceOld", Num(p.priceOld.value))] else [])
    + [ Member("labels", Arr(LabelsToJson(p.labels))),
        Member("shareUrl", Str(p.shareUrl)),
        Member("likeUrl", Str(p.likeUrl)) ]
  }

  /** Takes the first member, which must carry `key`. */
  function Take(ms: seq<Member>, key: string): Option<(Json, seq<Member>)> {
    if ms != [] && ms[0].key == key then Some((ms[0].value, ms[1..])) else None
  }

  function TakeStr(ms: seq<Member>, key: string): Option<(string, seq<Member>)> {
    var (v, rest) :- Take(ms, key);
    if v.Str? then Some((v.s, rest)) else None
  }

  function TakeNum(ms: seq<Member>, key: string): Option<(int, seq<Member>)> {
    var (v, rest) :- Take(ms, key);
    if v.Num? then Some((v.n, rest)) else None
  }

  /** Reads a product from the front of a member list; returns it and the
      members after it. */
  function ProductFromMembers(ms: seq<Member>): Option<(Product, seq<Member>)> {
    var (head, ms) :- ProductHeadFromMembers(ms);
    var (id, title, text, images, alt) := head;
    var (price, ms) :- TakeNum(ms, "price");
    var (more, ms) :- ProductTailFromMembers(ms);
    var (priceOld, labels, shareUrl, likeUrl) := more;
    Some((Product(id, title, text, images, alt, price, priceOld, labels, shareUrl, likeUrl), ms))
  }

  /** The members up to `price`: the id and the four texts. */
  function ProductHeadFromMembers(ms: seq<Member>): Option<((ProductId, string, string, string, string), seq<Member>)> {
    var (idv, ms) :- Take(ms, "id");
    var id :- IdFromJson(idv);
    var (title, ms) :- TakeStr(ms, "title");
    var (text, ms) :- TakeStr(ms, "text");
    var (images, ms) :- TakeStr(ms, "images");
    var (alt, ms) :- TakeStr(ms, "alt");
    Some(((id, title, text, images, alt), ms))
  }

  /** The members after `price`: the optional `priceOld`, then labels and links. */
  function ProductTailFromMembers(ms: seq<Member>): Option<((Option<int>, seq<Label>, string, string), seq<Member>)> {
    var (priceOld, ms) :-
      if ms != [] && ms[0].key == "priceOld" then
        (var (was, ms) :- TakeNum(ms, "priceOld"); Some((Some(was), ms)))
      else Some((None, ms));
    var (labelsv, ms) :- Take(ms, "labels");
    var labels :- if labelsv.Arr? then LabelsFromJson(labelsv.elems) else None;
    var (shareUrl, ms) :- TakeStr(ms, "shareUrl");
    var (likeUrl, ms) :- TakeStr(ms, "likeUrl");
    Some(((priceOld, labels, shareUrl, likeUrl), ms))
  }

  lemma {:induction false} LabelsRoundTrip(ls: seq<Label>)
    ensures LabelsFromJson(LabelsToJson(ls)) == Some(ls)
    decreases |ls|
  {
    if ls != [] {
      LabelsRoundTrip(ls[1..]);
      var js := LabelsToJson(ls);
      assert js[0] == LabelToJson(ls[0]) && js[1..] == LabelsToJson(ls[1..]);
      assert [ls[0]] + ls[1..] == ls;
    }
  }

  lemma TakeCons(m: Member, ms: seq<Member>)
    ensures Take([m] + ms, m.key) == Some((m.value, ms))
  {
    assert ([m] + ms)[1..] == ms;
  }

  function OptionalPriceOld(p: Product): seq<Member> {
    if p.priceOld.Some? then [Member("priceOld", Num(p.priceOld.value))] else []
  }

  /** The members from `priceOld` on, followed by `rest`, one member at a time. */
  function TailThen(p: Product, rest: seq<Member>): seq<Member> {
    OptionalPriceOld(p)
    + ([Member("labels", Arr(LabelsToJson(p.labels)))]
    + ([Member("shareUrl", Str(p.shareUrl))]
    + ([Member("likeUrl", Str(p.likeUrl))] + rest)))
  }

  /** All members followed by `rest`, one member at a time. */
  function MembersThen(p: Product, rest: seq<Member>): seq<Member> {
    [Member("id", IdToJson(p.id))]
    + ([Member("title", Str(p.title))]
    + ([Member("text", Str(p.text))]
    + ([Member("images", Str(p.images))]
    + ([Member("alt", Str(p.alt))]
    + ([Member("price", Num(p.price))] + TailThen(p, rest))))))
  }

  lemma MembersThenIsConcat(p: Product, rest: seq<Member>)
    ensures ProductMembers(p) + rest == MembersThen(p, rest)
  {
  }

  lemma TailRoundTrip(p: Product, rest: seq<Member>)
    ensures ProductTailFromMembers(TailThen(p, rest)) == Some(((p.priceOld, p.labels, p.shareUrl, p.likeUrl), rest))
  {
    LabelsRoundTrip(p.labels);
    var r2 := [Member("likeUrl", Str(p.likeUrl))] + rest;
    var r1 := [Member("shareUrl", Str(p.shareUrl))] + r2;
    var r0 := [Member("labels", Arr(LabelsToJson(p.labels)))] + r1;
    TakeCons(Member("labels", Arr(LabelsToJson(p.labels))), r1);
    TakeCons(Member("shareUrl", Str(p.shareUrl)), r2);
    TakeCons(Member("likeUrl", Str(p.likeUrl)), rest);
    if p.priceOld.Some? {
      TakeCons(Member("priceOld", Num(p.priceOld.value)), r0);
    } else {
      assert TailThen(p, rest) == r0;
    }
  }

  /** The members up to `price`, followed by anything, read back one by one. */
  lemma HeadRoundTrip(p: Product, after: seq<Member>)
    ensures ProductHeadFromMembers(
              [Member("id", IdToJson(p.id))]
              + ([Member("title", Str(p.title))]
              + ([Member("text", Str(p.text))]
              + ([Member("images", Str(p.images))]
              + ([Member("alt", Str(p.alt))] + after)))))
            == Some(((p.id, p.title, p.text, p.images, p.alt), after))
  {
    var r3 := [Member("alt", Str(p.alt))] + after;
    var r2 := [Member("images", Str(p.images))] + r3;
    var r1 := [Member("text", Str(p.text))] + r2;
    var r0 := [Member("title", Str(p.title))] + r1;
    TakeCons(Member("id", IdToJson(p.id)), r0);
    TakeCons(Member("title", Str(p.title)), r1);
    TakeCons(Member("text", Str(p.text)), r2);
    TakeCons(Member("images", Str(p.images)), r3);
    TakeCons(Member("alt", Str(p.alt)), after);
    assert IdFromJson(IdToJson(p.id)) == Some(p.id);
  }

  /** A product's members, followed by anything, read back as that product. */
  lemma ProductRoundTrip(p: Product, rest: seq<Member>)
    ensures ProductFromMembers(ProductMembers(p) + rest) == Some((p, rest))
  {
    MembersThenIsConcat(p, rest);
    var r5 := TailThen(p, rest);
    var r4 := [Member("price", Num(p.price))] + r5;
    HeadRoundTrip(p, r4);
    TakeCons(Member("price", Num(p.price)), r5);
    TailRoundTrip(p, rest);
  }
}
