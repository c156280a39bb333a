/** Which elements the widget measures and listens on
    (`_setViewWatcher`, `_setMouseMoveWatcher`, js/tiltfx.js:248-278).
    `document.querySelector` is a parameter: it maps a selector to the
    element it finds, to no match (JavaScript `null`), or to the
    SyntaxError it throws on a selector it cannot parse. */
module Watchers {
  import opened Wrappers
  import Config

  /** An element of the page: the widget's own wrapper (`.tilt`) or some
      other node. */
  datatype Element = Wrapper | Node(id: nat)

  /** What one `document.querySelector` call does with a selector. */
  datatype Lookup = Found(element: Element) | NoMatch | Invalid

  /** The given selector of one watcher, if the `element` options hold a
      truthy one. */
  function Selector(element: Option<Config.ElementOpts>, forView: bool): (r: Option<string>)
    ensures r.Some? <==> element.Some? && Config.SelectorGiven(
              if forView then element.value.viewWatcher else element.value.mouseMoveWatcher)
    ensures r.Some? ==> r.value != ""
    ensures r.Some? ==> r == (if forView then element.value.viewWatcher else element.value.mouseMoveWatcher)
  {
    if element.None? then None
    else
      var s := if forView then element.value.viewWatcher else element.value.mouseMoveWatcher;
      if Config.SelectorGiven(s) then s else None
  }

  /** The element whose size drives the movement formula. A given selector
      is used only when it matches; with no match, or no selector, the
      wrapper is used. A selector the lookup rejects fails with that
      selector. */
  function ViewWatcher(element: Option<Config.ElementOpts>, query: string -> Lookup)
    : (r: Result<Element, string>)
    ensures var sel := Selector(element, true);
            && (r.Failure? <==> sel.Some? && query(sel.value).Invalid?)
            && (r.Failure? ==> r.error == sel.value)
            && (sel.Some? && query(sel.value).Found? ==> r == Success(query(sel.value).element))
    ensures r.Success? && r.value != Wrapper ==>
              && Selector(element, true).Some?
              && query(Selector(element, true).value) == Found(r.value)
  {
    match Selector(element, true)
    case None => Success(Wrapper)
    case Some(sel) =>
      match query(sel)
      case Found(e) => Success(e)
      case NoMatch => Success(Wrapper)
      case Invalid => Failure(sel)
  }

  /** The element whose `mousemove` events drive the widget. A given
      selector is used as it resolves, even to no element (`None`); only
      when no selector is given does it default to the view watcher. A
      selector the lookup rejects fails with that selector. */
  function MouseMoveWatcher(element: Option<Config.ElementOpts>, query: string -> Lookup, view: Element)
    : (r: Result<Option<Element>, string>)
    ensures var sel := Selector(element, false);
            && (r.Failure? <==> sel.Some? && query(sel.value).Invalid?)
            && (r.Failure? ==> r.error == sel.value)
            && (r == Success(None) <==> sel.Some? && query(sel.value).NoMatch?)
            && (sel.None? ==> r == Success(Some(view)))
            && (sel.Some? && query(sel.value).Found? ==> r == Success(Some(query(sel.value).element)))
  {
    match Selector(element, false)
    case None => Success(Some(view))
    case Some(sel) =>
      match query(sel)
      case Found(e) => Success(Some(e))
      case NoMatch => Success(None)
      case Invalid => Failure(sel)
  }

  /** The two lookups treat a selector that matches nothing differently:
      the same selector leaves the view watcher on the wrapper but leaves
      the mouse-move watcher `null`. */
  lemma UnresolvedSelectorDiffers(sel: string, query: string -> Lookup)
    requires sel != "" && query(sel).NoMatch?
    ensures ViewWatcher(Some(Config.ElementOpts(Some(sel), Some(sel))), query) == Success(Wrapper)
    ensures MouseMoveWatcher(Some(Config.ElementOpts(Some(sel), Some(sel))), query, Wrapper) == Success(None)
  {
  }

  /** With no `element` options (or both selectors falsy) the lookup is
      never consulted and both watchers are the wrapper. */
  lemma DefaultsToWrapper(element: Option<Config.ElementOpts>, query: string -> Lookup)
    requires element.None? || (!Config.SelectorGiven(element.value.viewWatcher)
                               && !Config.SelectorGiven(element.value.mouseMoveWatcher))
    ensures ViewWatcher(element, query) == Success(Wrapper)
    ensures MouseMoveWatcher(element, query, Wrapper) == Success(Some(Wrapper))
  {
  }

  /** A lookup is only ever made for a given selector, so a lookup that
      rejects every selector fails a watcher exactly when that watcher's
      selector is given. */
  lemma InvalidOnlyWhenGiven(element: Option<Config.ElementOpts>, query: string -> Lookup, view: Element)
    requires forall s :: query(s) == Invalid
    ensures ViewWatcher(element, query).Failure? <==>
              element.Some? && Config.SelectorGiven(element.value.viewWatcher)
    ensures MouseMoveWatcher(element, query, view).Failure? <==>
              element.Some? && Config.SelectorGiven(element.value.mouseMoveWatcher)
  {
  }
}
