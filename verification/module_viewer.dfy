/**
 The module library's PDF viewer (src/Modules/Modules.jsx): which module is
 open, the page count the document reports once loaded, and the current
 page, moved by Previous/Next buttons that are disabled at the ends.
 Rendering is outside the model; the page count arrives as an event.
 */
module ModuleViewer {
  import opened Wrappers

  datatype Viewer = Viewer(selected: Option<string>, numPages: Option<int>, page: int)

  /** Nothing open, page count unknown, page 1. */
  const Initial: Viewer := Viewer(None, None, 1)

  /** JavaScript coerces `null` to 0 in `Math.min` and in `>=`. */
  function PagesOrZero(v: Viewer): int {
    v.numPages.GetOr(0)
  }

  /** Opening a module selects its document and resets the page to 1; the page count is left as it was. */
  function OpenModule(v: Viewer, url: string): (r: Viewer)
    ensures r.selected == Some(url) && r.page == 1 && r.numPages == v.numPages
  {
    v.(selected := Some(url), page := 1)
  }

  /** Closing forgets the document and its page count but keeps the page number. */
  function Close(v: Viewer): (r: Viewer)
    ensures r.selected.None? && r.numPages.None? && r.page == v.page
  {
    v.(selected := None, numPages := None)
  }

  /**
   The document reported its page count: only the count changes, and a
   document that was still loading on page 1 stays in range for any count of
   at least one page.
   */
  function DocumentLoaded(v: Viewer, pages: int): (r: Viewer)
    ensures r.numPages == Some(pages) && r.page == v.page && r.selected == v.selected
    ensures Consistent(v) && v.selected.Some? && v.numPages.None? && pages >= 1 ==> Consistent(r)
  {
    v.(numPages := Some(pages))
  }

  /** Previous is disabled on page 1, exactly where clicking it would change nothing. */
  predicate PreviousDisabled(v: Viewer)
    ensures v.page >= 1 ==> (PreviousDisabled(v) <==> Previous(v) == v)
    ensures !PreviousDisabled(v) ==> Previous(v).page == v.page - 1
  {
    v.page <= 1
  }

  /**
   Next is disabled at or past the last page, exactly where clicking it would
   change nothing once the count is known, and on every page while the count
   is unknown (where clicking would move to page 0).
   */
  predicate NextDisabled(v: Viewer)
    ensures v.numPages.Some? && v.page <= v.numPages.value ==> (NextDisabled(v) <==> Next(v) == v)
    ensures v.numPages.None? && v.page >= 1 ==> NextDisabled(v)
    ensures !NextDisabled(v) ==> Next(v).page == v.page + 1
  {
    v.page >= PagesOrZero(v)
  }

  /** Previous: `max(page - 1, 1)`. */
  function Previous(v: Viewer): (r: Viewer)
    ensures r.page >= 1
    ensures v.page > 1 ==> r.page == v.page - 1
    ensures v.page <= 1 ==> r.page == 1
    ensures r.selected == v.selected && r.numPages == v.numPages
  {
    v.(page := if v.page - 1 > 1 then v.page - 1 else 1)
  }

  /** Next: `min(page + 1, numPages)`, with an unknown count read as 0. */
  function Next(v: Viewer): (r: Viewer)
    ensures r.page <= PagesOrZero(v)
    ensures v.page < PagesOrZero(v) ==> r.page == v.page + 1
    ensures v.page >= PagesOrZero(v) ==> r.page == PagesOrZero(v)
    ensures r.selected == v.selected && r.numPages == v.numPages
  {
    var cap := PagesOrZero(v);
    v.(page := if v.page + 1 < cap then v.page + 1 else cap)
  }

  /** While the count is unknown, Next is disabled on every page the viewer can show. */
  lemma NextInertWhileUnknown(v: Viewer)
    requires v.numPages.None? && v.page >= 1
    ensures NextDisabled(v)
  {
  }

  /** From any page before the last, Next then Previous comes back to the same page. */
  lemma NextThenPrevious(v: Viewer)
    requires v.numPages.Some? && 1 <= v.page < v.numPages.value
    ensures Previous(Next(v)) == v
  {
  }

  datatype Event = Open(url: string) | CloseViewer | Loaded(pages: int) | ClickPrevious | ClickNext

  /**
   Which events can happen: a card can be clicked only while no module is
   open; the count is reported once per opened document, and a document has
   at least one page; the close and page buttons exist only while a module
   is open, and disabled buttons fire nothing.
   */
  predicate Enabled(v: Viewer, e: Event) {
    match e
    case Open(_) => v.selected.None?
    case CloseViewer => v.selected.Some?
    case Loaded(n) => v.selected.Some? && v.numPages.None? && n >= 1
    case ClickPrevious => v.selected.Some? && !PreviousDisabled(v)
    case ClickNext => v.selected.Some? && !NextDisabled(v)
  }

  function Step(v: Viewer, e: Event): Viewer {
    match e
    case Open(url) => OpenModule(v, url)
    case CloseViewer => Close(v)
    case Loaded(n) => DocumentLoaded(v, n)
    case ClickPrevious => Previous(v)
    case ClickNext => Next(v)
  }

  /** A session: events that cannot happen in the current state have no effect. */
  function Run(v: Viewer, es: seq<Event>): Viewer
    decreases |es|
  {
    if es == [] then v
    else Run(if Enabled(v, es[0]) then Step(v, es[0]) else v, es[1..])
  }

  /** The pager invariant: the page is at least 1 and, once the count is known, at most the count. */
  predicate Consistent(v: Viewer) {
    && v.page >= 1
    && (v.numPages.Some? ==> v.selected.Some? && v.page <= v.numPages.value)
    && (v.selected.Some? && v.numPages.None? ==> v.page == 1)
  }

  lemma StepPreservesConsistent(v: Viewer, e: Event)
    requires Consistent(v) && Enabled(v, e)
    ensures Consistent(Step(v, e))
  {
  }

  /** Every state a session reaches keeps the page within `[1, numPages]`. */
  lemma {:induction false} RunKeepsPageInRange(v: Viewer, es: seq<Event>)
    requires Consistent(v)
    ensures Consistent(Run(v, es))
    decreases |es|
  {
    if es != [] {
      var w := if Enabled(v, es[0]) then Step(v, es[0]) else v;
      if Enabled(v, es[0]) {
        StepPreservesConsistent(v, es[0]);
      }
      RunKeepsPageInRange(w, es[1..]);
    }
  }

  /** In particular, from the viewer's initial state. */
  lemma ReachableStatesConsistent(es: seq<Event>)
    ensures Consistent(Run(Initial, es))
  {
    RunKeepsPageInRange(Initial, es);
  }
}
