/** The header search: a form that a button shows and hides. While shown it
    listens on the document for Escape and for clicks outside itself. */
module Search {

  class Search {
    /** `is-active` on the form. */
    var isActive: bool
    /** The button's `aria-expanded`. */
    var ariaExpanded: string
    /** Whether the document click and keydown handlers are registered. */
    var listening: bool

    /** The attribute and the document listeners follow the active state. */
    ghost predicate Valid()
      reads this
    {
      ariaExpanded == (if isActive then "true" else "false") && listening == isActive
    }

    /** A search as the markup delivers it: hidden. */
    constructor ()
      ensures Valid() && !isActive
    {
      isActive := false;
      ariaExpanded := "false";
      listening := false;
    }

    /** `toggleExternalListeners`: registers or removes both document handlers. */
    method ToggleExternalListeners(shouldAdd: bool)
      modifies this
      ensures listening == shouldAdd
      ensures isActive == old(isActive) && ariaExpanded == old(ariaExpanded)
    {
      listening := shouldAdd;
    }

    /** Shows a hidden search; does nothing to an active one. */
    method Open()
      requires Valid()
      modifies this
      ensures Valid() && isActive
      ensures old(isActive) ==> ariaExpanded == old(ariaExpanded) && listening == old(listening)
    {
      if isActive {
        return;
      }
      isActive := true;
      ariaExpanded := "true";
      ToggleExternalListeners(true);
    }

    /** Hides an active search; does nothing to a hidden one. */
    method Close()
      requires Valid()
      modifies this
      ensures Valid() && !isActive
      ensures !old(isActive) ==> ariaExpanded == old(ariaExpanded) && listening == old(listening)
    {
      if !isActive {
        return;
      }
      isActive := false;
      ariaExpanded := "false";
      ToggleExternalListeners(false);
    }

    /** The button click. */
    method ToggleClickButton()
      requires Valid()
      modifies this
      ensures Valid() && isActive == !old(isActive)
    {
      if isActive {
        Close();
      } else {
        Open();
      }
    }

    /** A click on the document; `inside` says whether its target lies in
        the search's root. */
    method OnDocumentClick(inside: bool)
      requires Valid()
      modifies this
      ensures Valid()
      ensures isActive == (old(isActive) && inside)
    {
      if !inside {
        Close();
      }
    }

    /** A key press on the document. */
    method OnKeyDown(key: string)
      requires Valid()
      modifies this
      ensures Valid()
      ensures isActive == (old(isActive) && key != "Escape")
    {
      if key == "Escape" {
        Close();
      }
    }
  }
}
