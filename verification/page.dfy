/**
  The application shell (`Home`): the document currently held, which tab is
  shown, and whether the profile image is framed as a circle. Every handler
  replaces some of these three values and keeps the rest.
 */
module Page {
  import opened Cv

  datatype Tab = FormTab | PreviewTab

  datatype Shell = Shell(cvData: CVData, activeTab: Tab, isCircular: bool)

  /** The state on mount: the empty document, the form tab, a circular frame. */
  const InitialShell: Shell := Shell(EmptyCV, FormTab, true)

  /** The form's submit callback: hold the submitted document and show the preview. */
  function HandleSubmit(s: Shell, d: CVData): (r: Shell)
    ensures r.cvData == d && r.activeTab == PreviewTab
    ensures r.isCircular == s.isCircular
  {
    s.(cvData := d, activeTab := PreviewTab)
  }

  /** The live-change callback: hold the new document, stay on the current tab. */
  function HandleFormChange(s: Shell, d: CVData): (r: Shell)
    ensures r.cvData == d
    ensures r.activeTab == s.activeTab && r.isCircular == s.isCircular
  {
    s.(cvData := d)
  }

  /** A click on a tab trigger. */
  function SetActiveTab(s: Shell, t: Tab): (r: Shell)
    ensures r.activeTab == t
    ensures r.cvData == s.cvData && r.isCircular == s.isCircular
  {
    s.(activeTab := t)
  }

  /**
    The setter handed to the form as `onImageShapeChange`. The form does not
    declare that prop, so nothing in the program calls it.
   */
  function SetIsCircular(s: Shell, circular: bool): (r: Shell)
    ensures r.isCircular == circular
    ensures r.cvData == s.cvData && r.activeTab == s.activeTab
  {
    s.(isCircular := circular)
  }

  /** The page opens on the form tab, with a circular frame, holding the blank document. */
  lemma InitialShellIsBlank()
    ensures IsBlank(InitialShell.cvData)
    ensures InitialShell.activeTab == FormTab && InitialShell.isCircular
  {
  }

  /** Submitting the same document twice is the same as submitting it once. */
  lemma HandleSubmitIdempotent(s: Shell, d: CVData)
    ensures HandleSubmit(HandleSubmit(s, d), d) == HandleSubmit(s, d)
  {
  }

  /** A submit overrides any earlier live change. */
  lemma SubmitAbsorbsFormChange(s: Shell, d: CVData, d': CVData)
    ensures HandleSubmit(HandleFormChange(s, d), d') == HandleSubmit(s, d')
  {
  }

  // ---------------------------------------------------------------------
  // The shell as an event-driven state machine.

  datatype ShellEvent =
    | Submitted(doc: CVData)
    | FormChanged(doc: CVData)
    | TabChanged(tab: Tab)
    | ShapeChanged(circular: bool)

  function Apply(s: Shell, e: ShellEvent): Shell
  {
    match e
    case Submitted(d) => HandleSubmit(s, d)
    case FormChanged(d) => HandleFormChange(s, d)
    case TabChanged(t) => SetActiveTab(s, t)
    case ShapeChanged(c) => SetIsCircular(s, c)
  }

  /** The events handled in order, oldest first. */
  function RunShell(s: Shell, evs: seq<ShellEvent>): Shell
    decreases |evs|
  {
    if |evs| == 0 then s else RunShell(Apply(s, evs[0]), evs[1..])
  }

  /** What an event writes into the document slot, if anything. */
  function DocWritten(e: ShellEvent): Option<CVData>
  {
    if e.Submitted? || e.FormChanged? then Some(e.doc) else None
  }

  /** What an event writes into the tab slot, if anything. */
  function TabWritten(e: ShellEvent): Option<Tab>
  {
    match e
    case Submitted(_) => Some(PreviewTab)
    case TabChanged(t) => Some(t)
    case _ => None
  }

  /** What an event writes into the shape slot, if anything. */
  function ShapeWritten(e: ShellEvent): Option<bool>
  {
    if e.ShapeChanged? then Some(e.circular) else None
  }

  /** The value written last by `evs` through `written`, or `init` if none writes. */
  function Latest<T>(evs: seq<ShellEvent>, written: ShellEvent -> Option<T>, init: T): T
    decreases |evs|
  {
    if |evs| == 0 then init
    else
      match written(evs[|evs| - 1])
      case Some(v) => v
      case None => Latest(evs[..|evs| - 1], written, init)
  }

  /** Handling one more event after a run is the run extended by that event. */
  lemma {:induction false} RunShellSnoc(s: Shell, evs: seq<ShellEvent>, e: ShellEvent)
    ensures RunShell(s, evs + [e]) == Apply(RunShell(s, evs), e)
    decreases |evs|
  {
    if |evs| == 0 {
      assert [e][1..] == [];
    } else {
      assert (evs + [e])[1..] == evs[1..] + [e];
      RunShellSnoc(Apply(s, evs[0]), evs[1..], e);
    }
  }

  /**
    Each of the three slots holds what the last event writing it wrote: the
    document of the last submit or live change, the tab of the last submit
    or tab click, the shape of the last shape-setter call.
   */
  lemma {:induction false} RunShellIsLatestWrite(s: Shell, evs: seq<ShellEvent>)
    ensures RunShell(s, evs) ==
      Shell(Latest(evs, DocWritten, s.cvData), Latest(evs, TabWritten, s.activeTab), Latest(evs, ShapeWritten, s.isCircular))
    decreases |evs|
  {
    if |evs| > 0 {
      var front := evs[..|evs| - 1];
      var e := evs[|evs| - 1];
      assert evs == front + [e];
      RunShellSnoc(s, front, e);
      RunShellIsLatestWrite(s, front);
    }
  }

  /** Tab clicks and shape-setter calls never alter the held document. */
  lemma DocumentOnlyFromForm(s: Shell, evs: seq<ShellEvent>)
    requires forall k :: 0 <= k < |evs| ==> evs[k].TabChanged? || evs[k].ShapeChanged?
    ensures RunShell(s, evs).cvData == s.cvData
  {
    RunShellIsLatestWrite(s, evs);
    LatestNoneWritten(evs, DocWritten, s.cvData);
  }

  /**
    Only submits and tab clicks can happen, because the form calls neither the
    live-change callback nor the shape setter. From the initial page, the
    frame therefore stays circular.
   */
  lemma FrameStaysCircular(evs: seq<ShellEvent>)
    requires forall k :: 0 <= k < |evs| ==> evs[k].Submitted? || evs[k].TabChanged?
    ensures RunShell(InitialShell, evs).isCircular
  {
    RunShellIsLatestWrite(InitialShell, evs);
    LatestNoneWritten(evs, ShapeWritten, true);
  }

  /** A slot that no event writes keeps its initial value. */
  lemma {:induction false} LatestNoneWritten<T>(evs: seq<ShellEvent>, written: ShellEvent -> Option<T>, init: T)
    requires forall k :: 0 <= k < |evs| ==> written(evs[k]).None?
    ensures Latest(evs, written, init) == init
    decreases |evs|
  {
    if |evs| > 0 {
      assert written(evs[|evs| - 1]).None?;
      LatestNoneWritten(evs[..|evs| - 1], written, init);
    }
  }
}
