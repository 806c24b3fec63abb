/** The image gallery: a lightbox over the linked images of one container,
    with previous/next navigation that wraps around and a "k / n" counter. */
module Gallery {
  import opened Wrappers
  import opened Text
  import opened Json

  /** A gallery link as found in the markup: its `href` and the `alt` of
      its image, when it has an image with one. */
  datatype Link = Link(href: string, imageAlt: Option<string>)

  datatype Item = Item(src: string, alt: string)

  /** `collectItems`: one item per link, in document order, with an empty alt
      where the link has none. */
  function CollectItems(links: seq<Link>): (items: seq<Item>)
    ensures |items| == |links|
    ensures forall k :: 0 <= k < |links| ==> items[k].src == links[k].href
    ensures forall k :: 0 <= k < |links| ==> links[k].imageAlt.None? ==> items[k].alt == ""
  {
    seq(|links|, k requires 0 <= k < |links| => Item(links[k].href, links[k].imageAlt.GetOr("")))
  }

  /** JavaScript's `%`: the remainder takes the sign of the dividend. */
  function JsRem(a: int, n: int): int
    requires n > 0
  {
    if a >= 0 then a % n else -((-a) % n)
  }

  /** `changeSlide`'s index arithmetic: `(i + d + n) % n`. */
  function Step(i: int, d: int, n: int): int
    requires n > 0
  {
    JsRem(i + d + n, n)
  }

  /** A step of one either way from a valid index stays a valid index, and
      is the neighbouring index taken round the circle. */
  lemma StepInRange(i: int, d: int, n: int)
    requires n > 0 && 0 <= i < n && (d == 1 || d == -1)
    ensures 0 <= Step(i, d, n) < n
    ensures Step(i, d, n) == (i + d) % n
  {
    var a := i + d;
    assert Step(i, d, n) == (a + n) % n;
    if a == n {
      ModOfModulus(n);
    } else if a == -1 {
      ModMinusOne(n);
    } else {
      ModShift(a, n);
      ModSmall(a, n);
    }
  }

  /** Next from the last index wraps to the first, previous from the first
      wraps to the last. */
  lemma StepWraps(n: int)
    requires n > 0
    ensures Step(n - 1, 1, n) == 0
    ensures Step(0, -1, n) == n - 1
  {
    assert n - 1 + 1 + n == 2 * n;
  }

  /** Next then previous, or previous then next, comes back to the start. */
  lemma StepInverse(i: int, n: int)
    requires n > 0 && 0 <= i < n
    ensures Step(Step(i, 1, n), -1, n) == i
    ensures Step(Step(i, -1, n), 1, n) == i
  {
    var up, down := Step(i, 1, n), Step(i, -1, n);
    StepInRange(i, 1, n);
    StepInRange(i, -1, n);
    StepInRange(up, -1, n);
    StepInRange(down, 1, n);
    if i == n - 1 {
      StepWraps(n);
      assert up == 0;
    } else {
      ModSmall(i + 1, n);
    }
    if i == 0 {
      StepWraps(n);
      assert down == n - 1;
    } else {
      ModSmall(i - 1, n);
    }
    if up == 0 {
      StepWraps(n);
    } else {
      ModSmall(up - 1, n);
    }
    if down == n - 1 {
      StepWraps(n);
    } else {
      ModSmall(down + 1, n);
    }
  }

  lemma ModSmall(a: int, n: int)
    requires 0 <= a < n
    ensures a % n == a
  {
  }

  lemma ModShift(a: int, n: int)
    requires 0 <= a < n
    ensures (a + n) % n == a
  {
  }

  lemma ModOfModulus(n: int)
    requires n > 0
    ensures n % n == 0 && (n + n) % n == 0
  {
  }

  lemma ModMinusOne(n: int)
    requires n > 0
    ensures (-1) % n == n - 1 && (n - 1) % n == n - 1
  {
  }

  /** The counter: the one-based position, a slash, the item count. Read
      back from the text, the leading digit run is the position and the
      digits after " / " are the count. */
  function CounterText(activeIndex: int, n: int): (s: string)
    ensures activeIndex >= 0 && n >= 0 ==>
              var k := DigitRun(s);
              k + 3 <= |s| && s[k..k + 3] == " / "
              && DigitsValue(s[..k]) == activeIndex + 1
              && AllDigits(s[k + 3..]) && DigitsValue(s[k + 3..]) == n
  {
    if activeIndex >= 0 && n >= 0 then
      CounterReadBack(activeIndex, n);
      IntToString(activeIndex + 1) + " / " + IntToString(n)
    else
      IntToString(activeIndex + 1) + " / " + IntToString(n)
  }

  lemma CounterReadBack(i: nat, n: nat)
    ensures var s := IntToString(i + 1) + " / " + IntToString(n);
      var k := DigitRun(s);
      k + 3 <= |s| && s[k..k + 3] == " / "
      && AllDigits(s[..k]) && DigitsValue(s[..k]) == i + 1
      && AllDigits(s[k + 3..]) && DigitsValue(s[k + 3..]) == n
  {
    NumbersAround(i + 1, " / ", n);
  }

  lemma DigitsSplit(a: string, b: string, c: string, d: string)
    requires AllDigits(a) && AllDigits(c)
    requires a + " / " + b == c + " / " + d
    ensures a == c && b == d
  {
    var s := a + " / " + b;
    assert s == a + (" / " + b) && s == c + (" / " + d);
    DigitRunOf(a, " / " + b);
    DigitRunOf(c, " / " + d);
    assert a == s[..|a|] && c == s[..|c|];
    assert b == s[|a| + 3..] && d == s[|c| + 3..];
  }

  /** Different positions or counts show different counters. */
  lemma CounterTextInjective(i: nat, n: nat, j: nat, m: nat)
    ensures CounterText(i, n) == CounterText(j, m) ==> i == j && n == m
  {
    if CounterText(i, n) == CounterText(j, m) {
      DigitsSplit(NatToString(i + 1), NatToString(n), NatToString(j + 1), NatToString(m));
      NatToStringInjective(i + 1, j + 1);
      NatToStringInjective(n, m);
    }
  }

  /** `items.findIndex(...)`: the first item showing `href`, or -1. */
  function FindIndexBySrc(items: seq<Item>, href: string): (r: int)
    ensures -1 <= r < |items|
    ensures r >= 0 ==> items[r].src == href && forall j :: 0 <= j < r ==> items[j].src != href
    ensures r == -1 ==> forall j :: 0 <= j < |items| ==> items[j].src != href
    decreases |items|
  {
    if items == [] then -1
    else if items[0].src == href then 0
    else
      var r := FindIndexBySrc(items[1..], href);
      if r == -1 then -1 else r + 1
  }

  class Gallery {
    const items: seq<Item>
    /** Whether the lightbox was built and the handlers bound. */
    const initialized: bool
    var activeIndex: int
    /** `is-open` on the lightbox. */
    var isOpen: bool
    /** `is-loading` on the lightbox, set while the active image loads. */
    var imageLoading: bool
    var counter: string

    /** The gallery is built only over at least one item, its index is
        always a valid one, and an open lightbox shows the active position. */
    ghost predicate Valid()
      reads this
    {
      (initialized <==> |items| > 0)
      && (initialized ==> 0 <= activeIndex < |items|)
      && (isOpen ==> initialized && counter == CounterText(activeIndex, |items|))
    }

    constructor (links: seq<Link>)
      ensures Valid() && !isOpen && activeIndex == 0
      ensures items == CollectItems(links) && (initialized <==> |links| > 0)
    {
      items := CollectItems(links);
      initialized := |links| > 0;
      activeIndex := 0;
      isOpen := false;
      imageLoading := false;
      counter := "";
    }

    /** Shows the active item: starts loading its image and updates the
        counter. */
    method UpdateContent()
      requires initialized && 0 <= activeIndex < |items|
      modifies this
      ensures counter == CounterText(activeIndex, |items|) && imageLoading
      ensures activeIndex == old(activeIndex) && isOpen == old(isOpen)
    {
      imageLoading := true;
      counter := CounterText(activeIndex, |items|);
    }

    /** Opens the lightbox on item `index`; -1 (no such item) does nothing. */
    method Open(index: int)
      requires Valid() && initialized && -1 <= index < |items|
      modifies this
      ensures Valid()
      ensures index == -1 ==> activeIndex == old(activeIndex) && isOpen == old(isOpen)
      ensures index != -1 ==> activeIndex == index && isOpen
    {
      if index == -1 {
        return;
      }
      activeIndex := index;
      UpdateContent();
      isOpen := true;
    }

    method Close()
      requires Valid()
      modifies this
      ensures Valid() && !isOpen && activeIndex == old(activeIndex)
    {
      isOpen := false;
    }

    /** Moves one item back (-1) or forward (1), round the circle. */
    method ChangeSlide(direction: int)
      requires Valid() && initialized && (direction == 1 || direction == -1)
      modifies this
      ensures Valid() && isOpen == old(isOpen)
      ensures activeIndex == (old(activeIndex) + direction) % |items|
    {
      StepInRange(activeIndex, direction, |items|);
      activeIndex := Step(activeIndex, direction, |items|);
      UpdateContent();
    }

    /** A key press on the document: Escape closes, the arrows navigate, and
        nothing happens while the lightbox is closed. */
    method OnKeyDown(key: string)
      requires Valid() && initialized
      modifies this
      ensures Valid()
      ensures !old(isOpen) ==> activeIndex == old(activeIndex) && !isOpen
      ensures old(isOpen) && key == "Escape" ==> !isOpen && activeIndex == old(activeIndex)
      ensures old(isOpen) && key == "ArrowLeft" ==> isOpen && activeIndex == (old(activeIndex) - 1) % |items|
      ensures old(isOpen) && key == "ArrowRight" ==> isOpen && activeIndex == (old(activeIndex) + 1) % |items|
      ensures key !in {"Escape", "ArrowLeft", "ArrowRight"} ==> activeIndex == old(activeIndex) && isOpen == old(isOpen)
    {
      if !isOpen {
        return;
      }
      if key == "Escape" {
        Close();
      } else if key == "ArrowLeft" {
        ChangeSlide(-1);
      } else if key == "ArrowRight" {
        ChangeSlide(1);
      }
    }

    /** A click in the container; `href` is that of the gallery link hit, or
        None when the click hit no link. Opens the first item with that
        source. */
    method OnItemClick(href: Option<string>)
      requires Valid() && initialized
      modifies this
      ensures Valid()
      ensures href.None? ==> activeIndex == old(activeIndex) && isOpen == old(isOpen)
      ensures href.Some? && FindIndexBySrc(items, href.value) >= 0 ==>
                isOpen && items[activeIndex].src == href.value
                && forall j :: 0 <= j < activeIndex ==> items[j].src != href.value
      ensures href.Some? && FindIndexBySrc(items, href.value) == -1 ==>
                activeIndex == old(activeIndex) && isOpen == old(isOpen)
    {
      if href.Some? {
        var index := FindIndexBySrc(items, href.value);
        Open(index);
      }
    }

    /** A click in the lightbox closes it only when it hits the overlay. */
    method OnOverlayClick(onOverlay: bool)
      requires Valid()
      modifies this
      ensures Valid() && isOpen == (old(isOpen) && !onOverlay)
      ensures activeIndex == old(activeIndex)
    {
      if onOverlay {
        Close();
      }
    }
  }
}
