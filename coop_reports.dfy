/**
 * The co-op report overlay (src/components/CoopReports.tsx).
 *
 * Two pieces of state, the open report (or none) and the saved scroll offset, plus two
 * refs that stash the inline `overflow` of `body` and `html`. Opening a report saves
 * `window.scrollY` and scrolls to the top; closing scrolls back. An effect keyed on the
 * open report hides the page's overflow while a report is open and restores the stashed
 * values otherwise; its cleanup restores them too.
 *
 * The browser is the record `Page`. React's order is followed: an event handler sets
 * state and scrolls at once; the re-render that follows runs the previous effect's
 * cleanup and then the effect again, but only if the open report changed.
 */
module CoopReports {
  import opened Wrappers

  /** The five report ids. */
  datatype ReportId = Respawn | Ccs | Respawn2 | Ea | Ea2

  /** The report bodies the overlay can show. */
  datatype ReportBody = RespawnReport | CcsReport | RespawnReport2 | EA1 | EA2

  /** The id as the source spells it. */
  /** Every key is a non-empty, hence truthy, string. */
  function Key(id: ReportId): (s: string)
    ensures |s| > 0
  {
    match id
    case Respawn => "respawn-2025"
    case Ccs => "ccs-2025"
    case Respawn2 => "respawn2-2025"
    case Ea => "ea-2025"
    case Ea2 => "ea2-2025"
  }

  /** The id a string names, if any. */
  function IdOfKey(s: string): (r: Option<ReportId>)
    ensures r.Some? ==> Key(r.value) == s
  {
    if s == "respawn-2025" then Some(Respawn)
    else if s == "ccs-2025" then Some(Ccs)
    else if s == "respawn2-2025" then Some(Respawn2)
    else if s == "ea-2025" then Some(Ea)
    else if s == "ea2-2025" then Some(Ea2)
    else None
  }

  /** Every id is named by its own key and by no other. */
  lemma KeyRoundTrip(id: ReportId)
    ensures IdOfKey(Key(id)) == Some(id)
  {
  }

  /** Which body each id selects. */
  function BodyOf(id: ReportId): (b: ReportBody)
    ensures b == RespawnReport <==> Key(id) == "respawn-2025"
    ensures b == CcsReport <==> Key(id) == "ccs-2025"
    ensures b == RespawnReport2 <==> Key(id) == "respawn2-2025"
    ensures b == EA1 <==> Key(id) == "ea-2025"
    ensures b == EA2 <==> Key(id) == "ea2-2025"
  {
    match id
    case Respawn => RespawnReport
    case Ccs => CcsReport
    case Respawn2 => RespawnReport2
    case Ea => EA1
    case Ea2 => EA2
  }

  /**
   * The bodies inside the overlay: one conditional per report, compared by key.
   * None without an open report, and otherwise exactly the body of the open report.
   */
  function Overlay(active: Option<ReportId>): (bodies: seq<ReportBody>)
    ensures active.None? <==> bodies == []
    ensures active.Some? ==> bodies == [BodyOf(active.value)]
  {
    if active.None? then []
    else
      var key := Key(active.value);
      (if key == "respawn-2025" then [RespawnReport] else []) +
      (if key == "ccs-2025" then [CcsReport] else []) +
      (if key == "respawn2-2025" then [RespawnReport2] else []) +
      (if key == "ea-2025" then [EA1] else []) +
      (if key == "ea2-2025" then [EA2] else [])
  }

  /** Different ids select different bodies. */
  lemma BodyOfInjective(a: ReportId, b: ReportId)
    requires BodyOf(a) == BodyOf(b)
    ensures a == b
  {
  }

  /** The browser state the component touches. */
  datatype Page = Page(scrollY: nat, bodyOverflow: string, htmlOverflow: string)

  /** The component's state and refs, with the browser. */
  datatype View = View(
    activeReport: Option<ReportId>,
    savedScrollY: nat,
    bodyOverflowRef: string,
    htmlOverflowRef: string,
    page: Page)

  const Hidden: string := "hidden"

  /** `s || ""`: the empty string is the only falsy string, so this is `s` itself. */
  function OrEmpty(s: string): (r: string)
    ensures r == s
  {
    if s == "" then "" else s
  }

  /** The body of the effect for the open report. */
  function LockEffect(v: View): (r: View)
    ensures r.activeReport == v.activeReport && r.savedScrollY == v.savedScrollY
    ensures r.page.scrollY == v.page.scrollY
    ensures v.activeReport.Some? ==>
      r.bodyOverflowRef == v.page.bodyOverflow && r.htmlOverflowRef == v.page.htmlOverflow &&
      r.page.bodyOverflow == Hidden && r.page.htmlOverflow == Hidden
    ensures v.activeReport.None? ==>
      r.bodyOverflowRef == v.bodyOverflowRef && r.htmlOverflowRef == v.htmlOverflowRef &&
      r.page.bodyOverflow == v.bodyOverflowRef && r.page.htmlOverflow == v.htmlOverflowRef
  {
    if v.activeReport.Some? then
      v.(bodyOverflowRef := v.page.bodyOverflow, htmlOverflowRef := v.page.htmlOverflow,
         page := v.page.(bodyOverflow := Hidden, htmlOverflow := Hidden))
    else
      v.(page := v.page.(bodyOverflow := OrEmpty(v.bodyOverflowRef), htmlOverflow := OrEmpty(v.htmlOverflowRef)))
  }

  /** The cleanup of an effect run: both overflows back to the stashed values. */
  function LockCleanup(v: View): (r: View)
    ensures r.activeReport == v.activeReport && r.savedScrollY == v.savedScrollY
    ensures r.bodyOverflowRef == v.bodyOverflowRef && r.htmlOverflowRef == v.htmlOverflowRef
    ensures r.page == Page(v.page.scrollY, v.bodyOverflowRef, v.htmlOverflowRef)
  {
    v.(page := v.page.(bodyOverflow := OrEmpty(v.bodyOverflowRef), htmlOverflow := OrEmpty(v.htmlOverflowRef)))
  }

  /** The re-render after a handler: cleanup and effect again only if the open report changed. */
  function AfterRender(before: Option<ReportId>, v: View): (r: View)
    ensures v.activeReport == before ==> r == v
    ensures r.activeReport == v.activeReport && r.savedScrollY == v.savedScrollY
    ensures r.page.scrollY == v.page.scrollY
    ensures r.bodyOverflowRef == v.bodyOverflowRef && r.htmlOverflowRef == v.htmlOverflowRef
    ensures v.activeReport != before ==> Locked(r)
  {
    if v.activeReport == before then v else LockEffect(LockCleanup(v))
  }

  /**
   * Mounting on page `p`: no report, refs empty, and the effect's else branch writes the
   * empty refs, so any inline overflow the page had is cleared rather than kept.
   */
  function Mount(p: Page): (v: View)
    ensures v.activeReport.None? && v.savedScrollY == 0
    ensures v.bodyOverflowRef == "" && v.htmlOverflowRef == ""
    ensures v.page == Page(p.scrollY, "", "")
  {
    LockEffect(View(None, 0, "", "", p))
  }

  /**
   * `openReport(id)`: nothing for a null id; otherwise save the scroll offset, open the
   * report and scroll to the top.
   */
  function AfterOpen(v: View, id: Option<ReportId>): (r: View)
    ensures id.None? ==> r == v
    ensures id.Some? ==> r.activeReport == id && r.savedScrollY == v.page.scrollY && r.page.scrollY == 0
  {
    if id.None? then v
    else AfterRender(v.activeReport,
                     v.(savedScrollY := v.page.scrollY, activeReport := id, page := v.page.(scrollY := 0)))
  }

  /** `closeReport()`: no report open, and the page scrolled back to the saved offset. */
  function AfterClose(v: View): (r: View)
    ensures r.activeReport.None? && r.savedScrollY == v.savedScrollY
    ensures r.page.scrollY == v.savedScrollY
  {
    AfterRender(v.activeReport, v.(activeReport := None, page := v.page.(scrollY := v.savedScrollY)))
  }

  /** Unmounting: the last effect's cleanup restores both overflows from the refs. */
  function AfterUnmount(v: View): (p: Page)
    ensures p == Page(v.page.scrollY, v.bodyOverflowRef, v.htmlOverflowRef)
  {
    LockCleanup(v).page
  }

  /**
   * The scroll lock: both overflows hidden while a report is open, and equal to the
   * stashed values while none is.
   */
  predicate Locked(v: View) {
    (v.activeReport.Some? ==> v.page.bodyOverflow == Hidden && v.page.htmlOverflow == Hidden) &&
    (v.activeReport.None? ==> v.page.bodyOverflow == v.bodyOverflowRef && v.page.htmlOverflow == v.htmlOverflowRef)
  }

  /** The lock holds after mount. */
  lemma MountLocked(p: Page)
    ensures Locked(Mount(p))
  {
  }

  /** Opening keeps the lock and never changes the refs. */
  lemma OpenKeepsLock(v: View, id: Option<ReportId>)
    requires Locked(v)
    ensures Locked(AfterOpen(v, id))
    ensures AfterOpen(v, id).bodyOverflowRef == v.bodyOverflowRef
    ensures AfterOpen(v, id).htmlOverflowRef == v.htmlOverflowRef
  {
  }

  /** Closing keeps the lock and never changes the refs. */
  lemma CloseKeepsLock(v: View)
    requires Locked(v)
    ensures Locked(AfterClose(v))
    ensures AfterClose(v).bodyOverflowRef == v.bodyOverflowRef
    ensures AfterClose(v).htmlOverflowRef == v.htmlOverflowRef
  {
  }

  /**
   * Opening a report from the closed state and closing it again gives back the page as it
   * was at open time: the scroll offset and both overflows.
   */
  lemma OpenCloseRestoresPage(v: View, id: ReportId)
    requires Locked(v) && v.activeReport.None?
    ensures AfterClose(AfterOpen(v, Some(id))).page == v.page
    ensures AfterClose(AfterOpen(v, Some(id))) == v.(savedScrollY := v.page.scrollY)
  {
  }

  /** Unmounting with a report open restores both overflows to their values at open time. */
  lemma UnmountWhileOpenRestoresOverflow(v: View, id: ReportId)
    requires Locked(v) && v.activeReport.None?
    ensures var p := AfterUnmount(AfterOpen(v, Some(id)));
      p.bodyOverflow == v.page.bodyOverflow && p.htmlOverflow == v.page.htmlOverflow
  {
  }

  /** A click on a card link or on the back button. */
  datatype Event = Open(id: Option<ReportId>) | Close

  function AfterEvent(v: View, e: Event): View {
    match e
    case Open(id) => AfterOpen(v, id)
    case Close => AfterClose(v)
  }

  /** The view after `events`, in order. */
  function AfterEvents(v: View, events: seq<Event>): View
    decreases |events|
  {
    if events == [] then v else AfterEvents(AfterEvent(v, events[0]), events[1..])
  }

  /** Any run of events keeps the lock and the refs. */
  lemma {:induction false} EventsKeepLock(v: View, events: seq<Event>)
    requires Locked(v)
    ensures Locked(AfterEvents(v, events))
    ensures AfterEvents(v, events).bodyOverflowRef == v.bodyOverflowRef
    ensures AfterEvents(v, events).htmlOverflowRef == v.htmlOverflowRef
    decreases |events|
  {
    if events != [] {
      match events[0] {
        case Open(id) => OpenKeepsLock(v, id);
        case Close => CloseKeepsLock(v);
      }
      EventsKeepLock(AfterEvent(v, events[0]), events[1..]);
    }
  }

  /**
   * From mount on, the refs only ever hold "": the cleanup writes them back into the page
   * just before the effect stashes the page's values. So with no report open both
   * overflows are "", whatever they were before mount; with one open both are hidden.
   */
  lemma OverflowAfterMount(p: Page, events: seq<Event>)
    ensures var v := AfterEvents(Mount(p), events);
      v.bodyOverflowRef == "" && v.htmlOverflowRef == "" &&
      (v.activeReport.None? ==> v.page.bodyOverflow == "" && v.page.htmlOverflow == "") &&
      (v.activeReport.Some? ==> v.page.bodyOverflow == Hidden && v.page.htmlOverflow == Hidden)
  {
    EventsKeepLock(Mount(p), events);
  }

  /** The mounted section: its state, its refs and the browser page. */
  class ReportsSection {
    var activeReport: Option<ReportId>
    var savedScrollY: nat
    var bodyOverflowRef: string
    var htmlOverflowRef: string
    var page: Page
    var mounted: bool

    function Snapshot(): View
      reads this
    {
      View(activeReport, savedScrollY, bodyOverflowRef, htmlOverflowRef, page)
    }

    /** Mounting on page `p`: initial state, then the first effect run. */
    constructor (p: Page)
      ensures mounted && Snapshot() == Mount(p)
    {
      activeReport := None;
      savedScrollY := 0;
      bodyOverflowRef, htmlOverflowRef := "", "";
      page := p;
      mounted := true;
      new;
      RunLockEffect();
    }

    /** The effect keyed on `activeReport`. */
    method RunLockEffect()
      modifies this
      ensures mounted == old(mounted)
      ensures Snapshot() == LockEffect(old(Snapshot()))
    {
      if activeReport.Some? {
        bodyOverflowRef := page.bodyOverflow;
        htmlOverflowRef := page.htmlOverflow;
        page := page.(bodyOverflow := Hidden);
        page := page.(htmlOverflow := Hidden);
      } else {
        page := page.(bodyOverflow := OrEmpty(bodyOverflowRef));
        page := page.(htmlOverflow := OrEmpty(htmlOverflowRef));
      }
    }

    /** The cleanup returned by the effect. */
    method RunLockCleanup()
      modifies this
      ensures mounted == old(mounted)
      ensures Snapshot() == LockCleanup(old(Snapshot()))
    {
      page := page.(bodyOverflow := OrEmpty(bodyOverflowRef));
      page := page.(htmlOverflow := OrEmpty(htmlOverflowRef));
    }

    /** The re-render after a handler ran, given the open report before it. */
    method Rerender(before: Option<ReportId>)
      modifies this
      ensures mounted == old(mounted)
      ensures Snapshot() == AfterRender(before, old(Snapshot()))
    {
      if activeReport != before {
        RunLockCleanup();
        RunLockEffect();
      }
    }

    /** `openReport(id)`. */
    method OpenReport(id: Option<ReportId>)
      requires mounted
      modifies this
      ensures mounted
      ensures Snapshot() == AfterOpen(old(Snapshot()), id)
    {
      if id.None? {
        return;
      }
      var before := activeReport;
      var y := page.scrollY;
      savedScrollY := y;
      activeReport := id;
      page := page.(scrollY := 0);
      Rerender(before);
    }

    /** `closeReport()`. */
    method CloseReport()
      requires mounted
      modifies this
      ensures mounted
      ensures Snapshot() == AfterClose(old(Snapshot()))
    {
      var before := activeReport;
      activeReport := None;
      page := page.(scrollY := savedScrollY);
      Rerender(before);
    }

    /** Unmounting: the last effect's cleanup runs. */
    method Unmount()
      requires mounted
      modifies this
      ensures !mounted
      ensures page == AfterUnmount(old(Snapshot()))
      ensures activeReport == old(activeReport) && savedScrollY == old(savedScrollY)
      ensures bodyOverflowRef == old(bodyOverflowRef) && htmlOverflowRef == old(htmlOverflowRef)
    {
      RunLockCleanup();
      mounted := false;
    }

    /** The bodies the overlay renders now. */
    function Rendered(): seq<ReportBody>
      reads this
    {
      Overlay(activeReport)
    }
  }
}
