/** Header dropdowns. Each is open or closed; while open it listens on the
    document for Escape and for clicks outside itself. Opening one announces
    it on its scope (the nearest header ancestor, or the document), and every
    other dropdown listening on that scope closes. */
module Dropdown {
  import opened Wrappers

  /** Where a dropdown announces its opening: the header element it sits in,
      or the document when it has no header ancestor. */
  datatype Scope = Header(header: nat) | WholeDocument

  /** `this.rootElement.closest(header) || document`. */
  function ScopeOf(headerAncestor: Option<nat>): (s: Scope)
    ensures headerAncestor.Some? <==> s.Header?
    ensures headerAncestor.Some? ==> s.header == headerAncestor.value
  {
    match headerAncestor
    case Some(h) => Header(h)
    case None => WholeDocument
  }

  class Dropdown {
    /** `is-open` on the list. */
    var isOpen: bool
    /** The button's `aria-expanded`. */
    var ariaExpanded: string
    /** Whether the document keydown and click handlers are registered. */
    var listening: bool
    const scope: Scope

    /** The attribute and the document listeners follow the open state. */
    ghost predicate Valid()
      reads this
    {
      ariaExpanded == (if isOpen then "true" else "false") && listening == isOpen
    }

    /** A dropdown as the markup delivers it: closed. */
    constructor (headerAncestor: Option<nat>)
      ensures Valid() && !isOpen
      ensures scope == ScopeOf(headerAncestor)
    {
      isOpen := false;
      ariaExpanded := "false";
      listening := false;
      scope := ScopeOf(headerAncestor);
    }

    /** `toggleExternalListeners`: registers or removes both document handlers. */
    method ToggleExternalListeners(shouldAdd: bool)
      modifies this
      ensures listening == shouldAdd
      ensures isOpen == old(isOpen) && ariaExpanded == old(ariaExpanded)
    {
      listening := shouldAdd;
    }

    /** Closes an open dropdown; does nothing to a closed one. */
    method Close()
      requires Valid()
      modifies this
      ensures Valid() && !isOpen
      ensures !old(isOpen) ==> ariaExpanded == old(ariaExpanded) && listening == old(listening)
    {
      if !isOpen {
        return;
      }
      isOpen := false;
      ariaExpanded := "false";
      ToggleExternalListeners(false);
    }

    /** Opens a closed dropdown and announces it to `peers`, the dropdowns
        listening on its scope (itself among them); every other one closes.
        Does nothing to an open dropdown. */
    method Open(peers: seq<Dropdown>)
      requires Valid() && this in peers
      requires forall p :: p in peers ==> p.Valid() && p.scope == scope
      modifies set p | p in peers
      ensures Valid() && isOpen
      ensures forall p :: p in peers ==> p.Valid()
      ensures old(isOpen) ==> forall p :: p in peers ==> p.isOpen == old(p.isOpen)
      ensures !old(isOpen) ==> forall p :: p in peers && p != this ==> !p.isOpen
    {
      if isOpen {
        return;
      }
      isOpen := true;
      ariaExpanded := "true";
      ToggleExternalListeners(true);
      var k := 0;
      while k < |peers|
        invariant 0 <= k <= |peers|
        invariant isOpen && Valid()
        invariant forall p :: p in peers ==> p.Valid()
        invariant forall j :: 0 <= j < k && peers[j] != this ==> !peers[j].isOpen
      {
        peers[k].OnOtherDropdownOpen(this);
        k := k + 1;
      }
    }

    /** A `dropdown:open` announcement from `sender` on this dropdown's scope. */
    method OnOtherDropdownOpen(sender: Dropdown)
      requires Valid()
      modifies this
      ensures Valid()
      ensures isOpen == (old(isOpen) && sender == this)
    {
      if sender != this {
        Close();
      }
    }

    /** The button click. */
    method Toggle(peers: seq<Dropdown>)
      requires Valid() && this in peers
      requires forall p :: p in peers ==> p.Valid() && p.scope == scope
      modifies set p | p in peers
      ensures Valid() && isOpen == !old(isOpen)
      ensures forall p :: p in peers ==> p.Valid()
      ensures old(isOpen) ==> forall p :: p in peers && p != this ==> p.isOpen == old(p.isOpen)
      ensures !old(isOpen) ==> forall p :: p in peers && p != this ==> !p.isOpen
    {
      if isOpen {
        Close();
      } else {
        Open(peers);
      }
    }

    /** A key press on the document. */
    method OnKeyDown(key: string)
      requires Valid()
      modifies this
      ensures Valid()
      ensures isOpen == (old(isOpen) && key != "Escape")
    {
      if key == "Escape" {
        Close();
      }
    }

    /** A click on the document; `inside` says whether its target lies in
        this dropdown's root. */
    method OnDocumentClick(inside: bool)
      requires Valid()
      modifies this
      ensures Valid()
      ensures isOpen == (old(isOpen) && inside)
    {
      if !inside {
        Close();
      }
    }
  }

  /** At most one dropdown of the scope is open. */
  ghost predicate AtMostOneOpen(peers: seq<Dropdown>)
    reads set p | p in peers
  {
    forall p, q :: p in peers && q in peers && p.isOpen && q.isOpen ==> p == q
  }

  /** A button click on any dropdown of the scope keeps at most one of them
      open: an opening closes all the others, a closing opens none. */
  method ToggleKeepsOneOpen(d: Dropdown, peers: seq<Dropdown>)
    requires d in peers && AtMostOneOpen(peers)
    requires forall p :: p in peers ==> p.Valid() && p.scope == d.scope
    modifies set p | p in peers
    ensures AtMostOneOpen(peers)
  {
    d.Toggle(peers);
  }
}
