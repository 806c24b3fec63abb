/** Addressed popups. Each popup answers only the `popup:show` requests that
    carry its element id; showing one sets its texts and at most one variant
    class, opens it and schedules its automatic close. */
module Popup {
  import opened Wrappers

  /** The detail of a `popup:show` event; a field the sender left out is None. */
  datatype PopupRequest = PopupRequest(id: string, kind: Option<string>, title: Option<string>, message: Option<string>)

  /** The destructuring defaults of `show`: type `'success'`, empty texts. */
  function KindOf(data: PopupRequest): (k: string)
    ensures data.kind.None? ==> k == "success"
    ensures data.kind.Some? ==> k == data.kind.value
  {
    data.kind.GetOr("success")
  }

  class Popup {
    /** The root element's id. */
    const id: string
    /** Whether the markup has a title element and a message element. */
    const hasTitle: bool
    const hasMessage: bool
    /** `is-open` on the root. */
    var isOpen: bool
    /** The root's `hidden` attribute. */
    var hidden: bool
    var isSuccess: bool
    var isError: bool
    var title: string
    var message: string
    /** `autoCloseTimeout`: the handle of the last timer `show` scheduled. */
    var autoCloseTimeout: Option<nat>
    /** Timers scheduled and neither fired nor cleared. */
    var pendingTimers: set<nat>
    /** The handle the next scheduled timer receives. */
    var nextTimer: nat

    /** Open exactly when not hidden, never both variants, and every timer
        handle was handed out already. */
    ghost predicate Valid()
      reads this
    {
      isOpen == !hidden
      && !(isSuccess && isError)
      && (forall t :: t in pendingTimers ==> 0 < t < nextTimer)
      && (autoCloseTimeout.Some? ==> 0 < autoCloseTimeout.value < nextTimer)
      && nextTimer > 0
    }

    /** The pending timers once `close` has cleared the last scheduled one. */
    ghost function TimersAfterClose(): set<nat>
      reads this
    {
      if autoCloseTimeout.Some? then pendingTimers - {autoCloseTimeout.value} else pendingTimers
    }

    /** A popup as the markup delivers it: hidden, with no variant. */
    constructor (id: string, hasTitle: bool, hasMessage: bool)
      ensures Valid() && !isOpen && this.id == id
      ensures this.hasTitle == hasTitle && this.hasMessage == hasMessage
      ensures pendingTimers == {} && autoCloseTimeout == None
    {
      this.id := id;
      this.hasTitle := hasTitle;
      this.hasMessage := hasMessage;
      isOpen := false;
      hidden := true;
      isSuccess := false;
      isError := false;
      title := "";
      message := "";
      autoCloseTimeout := None;
      pendingTimers := {};
      nextTimer := 1;
    }

    /** Fills in and opens the popup, and schedules a new close timer;
        a timer of an earlier `show` stays scheduled. */
    method Show(data: PopupRequest)
      requires Valid()
      modifies this
      ensures Valid() && isOpen
      ensures isSuccess == (KindOf(data) == "success") && isError == (KindOf(data) == "error")
      ensures title == if hasTitle then data.title.GetOr("") else old(title)
      ensures message == if hasMessage then data.message.GetOr("") else old(message)
      ensures autoCloseTimeout == Some(old(nextTimer)) && old(nextTimer) !in old(pendingTimers)
      ensures pendingTimers == old(pendingTimers) + {old(nextTimer)}
    {
      var kind := KindOf(data);
      title := if hasTitle then data.title.GetOr("") else title;
      message := if hasMessage then data.message.GetOr("") else message;
      isSuccess := kind == "success";
      isError := kind != "success" && kind == "error";
      hidden := false;
      isOpen := true;
      var handle := nextTimer;
      nextTimer := nextTimer + 1;
      pendingTimers := pendingTimers + {handle};
      autoCloseTimeout := Some(handle);
    }

    /** Hides the popup and clears the last scheduled timer. */
    method Close()
      requires Valid()
      modifies this
      ensures Valid() && !isOpen && hidden
      ensures pendingTimers == if old(autoCloseTimeout).Some? then old(pendingTimers) - {old(autoCloseTimeout).value} else old(pendingTimers)
      ensures isSuccess == old(isSuccess) && isError == old(isError)
      ensures title == old(title) && message == old(message)
      ensures autoCloseTimeout == old(autoCloseTimeout) && nextTimer == old(nextTimer)
    {
      isOpen := false;
      if autoCloseTimeout.Some? {
        pendingTimers := pendingTimers - {autoCloseTimeout.value};
      }
      hidden := true;
    }

    /** Timer `t` fires and closes the popup. */
    method TimerFires(t: nat)
      requires Valid() && t in pendingTimers
      modifies this
      ensures Valid() && !isOpen
      ensures t !in pendingTimers && autoCloseTimeout == old(autoCloseTimeout)
      ensures autoCloseTimeout.Some? ==> autoCloseTimeout.value !in pendingTimers
    {
      pendingTimers := pendingTimers - {t};
      Close();
    }

    /** A `popup:show` request: acted on only when addressed to this popup. */
    method OnPopupShow(data: PopupRequest)
      requires Valid()
      modifies this
      ensures Valid()
      ensures data.id == id ==> isOpen && isSuccess == (KindOf(data) == "success") && isError == (KindOf(data) == "error")
      ensures data.id == id ==>
                title == (if hasTitle then data.title.GetOr("") else old(title))
                && message == (if hasMessage then data.message.GetOr("") else old(message))
      ensures data.id == id ==>
                autoCloseTimeout == Some(old(nextTimer)) && pendingTimers == old(pendingTimers) + {old(nextTimer)}
      ensures data.id != id ==> unchanged(this)
    {
      if data.id == id {
        Show(data);
      }
    }

    /** A key press on the document: Escape closes the popup. */
    method OnKeyDown(key: string)
      requires Valid()
      modifies this
      ensures Valid()
      ensures isOpen == (old(isOpen) && key != "Escape")
      ensures key == "Escape" ==> hidden && pendingTimers == old(TimersAfterClose())
      ensures key == "Escape" ==>
                isSuccess == old(isSuccess) && isError == old(isError) && title == old(title)
                && message == old(message) && autoCloseTimeout == old(autoCloseTimeout) && nextTimer == old(nextTimer)
      ensures key != "Escape" ==> unchanged(this)
    {
      if key == "Escape" {
        Close();
      }
    }

    /** A click on the overlay element's listener; closes only when the
        target is the overlay itself and not something inside it. */
    method OnOverlayClick(targetIsOverlay: bool)
      requires Valid()
      modifies this
      ensures Valid()
      ensures isOpen == (old(isOpen) && !targetIsOverlay)
      ensures targetIsOverlay ==> hidden && pendingTimers == old(TimersAfterClose())
      ensures targetIsOverlay ==>
                isSuccess == old(isSuccess) && isError == old(isError) && title == old(title)
                && message == old(message) && autoCloseTimeout == old(autoCloseTimeout) && nextTimer == old(nextTimer)
      ensures !targetIsOverlay ==> unchanged(this)
    {
      if targetIsOverlay {
        Close();
      }
    }
  }

  /** `show` does not clear the timer of an earlier `show`: when the popup is
      shown twice, the first timer closes the second showing, whatever time
      is left on the second timer. */
  method EarlierTimerClosesLaterShow(p: Popup, first: PopupRequest, second: PopupRequest)
    requires p.Valid() && first.id == p.id && second.id == p.id
    modifies p
    ensures p.Valid() && !p.isOpen
    ensures p.autoCloseTimeout.Some? && p.autoCloseTimeout.value !in p.pendingTimers
  {
    p.OnPopupShow(first);
    var firstTimer := p.autoCloseTimeout.value;
    p.OnPopupShow(second);
    assert firstTimer in p.pendingTimers;
    assert p.isOpen;
    p.TimerFires(firstTimer);
  }
}
