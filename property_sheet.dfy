/**
 * The Property Sheet view (PropertySheet): which part and selection it
 * shows, whether it is hidden or pinned, and which workbench events it lets
 * through to its current page.
 *
 * `SheetState` and the `After...` functions are the specification of each
 * event handler; `PropertySheet` is the view itself, whose methods change
 * its fields as the Java class does and are proved against those functions.
 * The page-book superclass (PageBookView) is not modelled: each call passed
 * on to it is recorded, and the page it shows afterwards is an input.
 */
module PropertySheetView {
  import opened Wrappers

  /**
   * A workbench part: its object identity and the id of its site, both fixed
   * for the part's lifetime. Its title can change while it stays the same
   * part, and is read only when a description is written, so it is not a
   * field here.
   */
  datatype Part = Part(id: nat, siteId: string)

  /** A selection made in some part; equal selections are equal values. */
  datatype Selection = Selection(id: nat)

  /** A property sheet page shown by the view. */
  datatype Page = Page(id: nat)

  /** A `selectionChanged(part, selection)` call received by a page. */
  datatype Notification = Notification(page: Page, part: Part, selection: Selection)

  /** An event handler of the page-book superclass, called by the view. */
  datatype PageBookCall = BookActivated(part: Part) | BookHidden(part: Part)
                        | BookVisible(part: Part) | BookClosed(part: Part)

  /** The view's content description: blank, or the text naming the part it is pinned to (by its title at that moment). */
  datatype Description = Blank | PinnedTo(part: Part)

  /** A "show in" context: one made by a property sheet (a part and a selection), or any other kind. */
  datatype ShowInContext = PropertyShowInContext(part: Part, selection: Option<Selection>) | OtherContext

  /** A workbench page as seen when the view opens: its selection and its active part. */
  datatype WorkbenchPage = WorkbenchPage(selection: Option<Selection>, activePart: Option<Part>)

  /**
   * How `selectionChanged` ends: the event is ignored, it is accepted, or
   * (a selection coming with no part) `isImportant` dereferences the missing
   * part and a NullPointerException leaves the handler before any change.
   */
  datatype Reaction = Ignored | Accepted | NullPartFault

  /** The site id of the Help view, which never drives the property sheet. */
  const HelpViewId := "org.eclipse.help.ui.HelpView"

  datatype SheetState = SheetState(
    self: Part,
    hidden: bool,
    pinned: bool,
    currentPart: Option<Part>,
    currentSelection: Option<Selection>,
    bootstrapSelection: Option<Selection>,
    currentPage: Option<Page>,
    notifications: seq<Notification>,
    pageBookCalls: seq<PageBookCall>,
    description: Description)

  /** A part the view follows: none while pinned, never itself, never the Help view. */
  predicate IsImportant(s: SheetState, p: Part): (r: bool)
    ensures s.pinned ==> !r
    ensures p == s.self || p.siteId == HelpViewId ==> !r
    ensures !s.pinned && p != s.self && p.siteId != HelpViewId ==> r
  {
    !s.pinned && p != s.self && p.siteId != HelpViewId
  }

  /** `updateContentDescription`: name the current part only while pinned to one. */
  function Describe(pinned: bool, currentPart: Option<Part>): (d: Description)
    ensures d != Blank <==> pinned && currentPart.Some?
    ensures d != Blank ==> d.part == currentPart.value
  {
    if pinned && currentPart.Some? then PinnedTo(currentPart.value) else Blank
  }

  /** The description always matches the pin state and the current part. */
  ghost predicate Consistent(s: SheetState) {
    s.description == Describe(s.pinned, s.currentPart)
  }

  function Redescribed(s: SheetState): SheetState {
    s.(description := Describe(s.pinned, s.currentPart))
  }

  /** Pass an event on to the page book, which then shows `pageAfter`. */
  function ViaPageBook(s: SheetState, call: PageBookCall, pageAfter: Option<Page>): SheetState {
    s.(pageBookCalls := s.pageBookCalls + [call], currentPage := pageAfter)
  }

  /** Tell the current page, if there is one, about `sel` in `part`. */
  function NotifyPage(s: SheetState, part: Part, sel: Selection): SheetState {
    match s.currentPage
    case Some(page) => s.(notifications := s.notifications + [Notification(page, part, sel)])
    case None => s
  }

  /** The decision of `selectionChanged`. */
  function SelectionReaction(s: SheetState, part: Option<Part>, sel: Option<Selection>): Reaction {
    if sel.None? then Ignored
    else if part.None? then NullPartFault
    else if !IsImportant(s, part.value) || sel == s.currentSelection then Ignored
    else if s.hidden && part != s.currentPart then Ignored
    else Accepted
  }

  /** The state after `selectionChanged(part, sel)`. */
  function AfterSelectionChanged(s: SheetState, part: Option<Part>, sel: Option<Selection>): SheetState {
    if SelectionReaction(s, part, sel) != Accepted then s
    else Redescribed(NotifyPage(s.(currentPart := part, currentSelection := sel), part.value, sel.value))
  }

  /**
   * The state after `partActivated(part)`; `contributing` is the part the
   * activated one reports through its contributed-contents adapter, if any.
   */
  function AfterPartActivated(s: SheetState, part: Part, contributing: Option<Part>, pageAfter: Option<Page>): SheetState {
    if s.hidden then
      if part == s.self then s.(hidden := false) else s
    else
      var source := if contributing.Some? then contributing.value else part;
      var s1 := ViaPageBook(s, BookActivated(source), pageAfter);
      var s2 := if IsImportant(s1, part) then s1.(currentPart := Some(part), currentSelection := None) else s1;
      match s2.bootstrapSelection
      case Some(boot) => NotifyPage(s2, part, boot).(bootstrapSelection := None)
      case None => s2
  }

  /** The state after `partHidden(part)`. */
  function AfterPartHidden(s: SheetState, part: Part, pageAfter: Option<Page>): SheetState {
    var s1 := if part == s.self then s.(hidden := true) else s;
    if !s1.pinned then ViaPageBook(s1, BookHidden(part), pageAfter) else s1
  }

  /** The state after `partVisible(part)`. */
  function AfterPartVisible(s: SheetState, part: Part, pageAfter: Option<Page>): SheetState {
    if s.hidden && part == s.self then s.(hidden := false)
    else ViaPageBook(s, BookVisible(part), pageAfter)
  }

  /** The state after `partClosed(part)`: closing the part the sheet is pinned to unpins it. */
  function AfterPartClosed(s: SheetState, part: Part, pageAfter: Option<Page>): SheetState {
    var s1 := if s.pinned && Some(part) == s.currentPart then Redescribed(s.(pinned := false)) else s;
    ViaPageBook(s1, BookClosed(part), pageAfter)
  }

  /** The state after `setPinned(pinned)`. */
  function AfterSetPinned(s: SheetState, pinned: bool): SheetState {
    Redescribed(s.(pinned := pinned))
  }

  /** Whether `show(context)` takes the context: only an unpinned sheet, only its own kind of context. */
  predicate ShowAccepts(s: SheetState, context: ShowInContext) {
    !s.pinned && context.PropertyShowInContext?
  }

  /** The state after `show(context)`: activate the context's part, then select its selection. */
  function AfterShow(s: SheetState, context: ShowInContext, contributing: Option<Part>, pageAfter: Option<Page>): SheetState {
    if ShowAccepts(s, context) then
      AfterSelectionChanged(AfterPartActivated(s, context.part, contributing, pageAfter),
                            Some(context.part), context.selection)
    else s
  }

  /** The events the view receives, with the inputs that come from outside the model. */
  datatype Event =
    | Activated(part: Part, contributing: Option<Part>, pageAfter: Option<Page>)
    | Hidden(part: Part, pageAfter: Option<Page>)
    | Visible(part: Part, pageAfter: Option<Page>)
    | Closed(part: Part, pageAfter: Option<Page>)
    | SelectionChanged(source: Option<Part>, selection: Option<Selection>)
    | Show(context: ShowInContext, contributing: Option<Part>, pageAfter: Option<Page>)
    | SetPinned(pinned: bool)

  function Step(s: SheetState, e: Event): SheetState {
    match e
    case Activated(p, c, pg) => AfterPartActivated(s, p, c, pg)
    case Hidden(p, pg) => AfterPartHidden(s, p, pg)
    case Visible(p, pg) => AfterPartVisible(s, p, pg)
    case Closed(p, pg) => AfterPartClosed(s, p, pg)
    case SelectionChanged(p, sel) => AfterSelectionChanged(s, p, sel)
    case Show(ctx, c, pg) => AfterShow(s, ctx, c, pg)
    case SetPinned(b) => AfterSetPinned(s, b)
  }

  /** The state after the events `es`, in order. */
  function Run(s: SheetState, es: seq<Event>): SheetState
    decreases |es|
  {
    if es == [] then s else Run(Step(s, es[0]), es[1..])
  }

  // ---------------------------------------------------------------------
  // Properties of the event handlers
  // ---------------------------------------------------------------------

  /**
   * `selectionChanged` is accepted exactly when the selection is present, its
   * part is present and important, the selection differs from the current
   * one, and a hidden view hears only from its current part.
   */
  lemma SelectionAcceptedExactly(s: SheetState, part: Option<Part>, sel: Option<Selection>)
    ensures SelectionReaction(s, part, sel) == Accepted <==>
              sel.Some? && part.Some? && IsImportant(s, part.value) && sel != s.currentSelection &&
              (s.hidden ==> part == s.currentPart)
    ensures SelectionReaction(s, part, sel) == NullPartFault <==> sel.Some? && part.None?
  {
  }

  /**
   * A missing selection, an unimportant part, the current selection again,
   * or (while hidden) a part other than the current one: nothing changes and
   * no page hears of it. A missing part with a selection faults, also
   * before any change.
   */
  lemma IgnoredSelectionChangesNothing(s: SheetState, part: Option<Part>, sel: Option<Selection>)
    requires sel.None? || part.None? || !IsImportant(s, part.value) || sel == s.currentSelection ||
             (s.hidden && part != s.currentPart)
    ensures SelectionReaction(s, part, sel) != Accepted
    ensures AfterSelectionChanged(s, part, sel) == s
  {
  }

  /** An accepted selection becomes the current one and reaches the current page, if any, as exactly that pair. */
  lemma AcceptedSelection(s: SheetState, part: Part, sel: Selection)
    requires SelectionReaction(s, Some(part), Some(sel)) == Accepted
    ensures var r := AfterSelectionChanged(s, Some(part), Some(sel));
            r.currentPart == Some(part) && r.currentSelection == Some(sel) &&
            r.notifications == s.notifications + (if s.currentPage.Some? then [Notification(s.currentPage.value, part, sel)] else []) &&
            r.hidden == s.hidden && r.pinned == s.pinned && r.bootstrapSelection == s.bootstrapSelection &&
            r.currentPage == s.currentPage && r.pageBookCalls == s.pageBookCalls
  {
  }

  /** A pinned sheet follows nothing: selections are not accepted and activations keep the current part and selection. */
  lemma PinnedSheetFollowsNothing(s: SheetState, part: Part, sel: Option<Selection>, contributing: Option<Part>, pageAfter: Option<Page>)
    requires s.pinned
    ensures SelectionReaction(s, Some(part), sel) == Ignored
    ensures AfterSelectionChanged(s, Some(part), sel) == s
    ensures var r := AfterPartActivated(s, part, contributing, pageAfter);
            r.currentPart == s.currentPart && r.currentSelection == s.currentSelection && r.pinned
  {
  }

  /** While hidden, activation changes nothing, except that activating the view itself makes it visible again. */
  lemma HiddenActivation(s: SheetState, part: Part, contributing: Option<Part>, pageAfter: Option<Page>)
    requires s.hidden
    ensures AfterPartActivated(s, part, contributing, pageAfter) == if part == s.self then s.(hidden := false) else s
  {
  }

  /**
   * A visible view's activation: an important part becomes the current part
   * with no selection yet; in every case the opening selection is used up,
   * going to the current page (if any) together with the activated part.
   */
  lemma VisibleActivation(s: SheetState, part: Part, contributing: Option<Part>, pageAfter: Option<Page>)
    requires !s.hidden
    ensures var r := AfterPartActivated(s, part, contributing, pageAfter);
            r.bootstrapSelection.None? && !r.hidden && r.pinned == s.pinned && r.currentPage == pageAfter &&
            (IsImportant(s, part) ==> r.currentPart == Some(part) && r.currentSelection.None?) &&
            (!IsImportant(s, part) ==> r.currentPart == s.currentPart && r.currentSelection == s.currentSelection) &&
            r.pageBookCalls == s.pageBookCalls + [BookActivated(if contributing.Some? then contributing.value else part)] &&
            r.notifications == s.notifications +
              (if s.bootstrapSelection.Some? && pageAfter.Some?
               then [Notification(pageAfter.value, part, s.bootstrapSelection.value)] else [])
  {
  }

  /** Hiding the view marks it hidden; a pinned view does not pass hide events on. */
  lemma HidingAndShowingTheView(s: SheetState, part: Part, pageAfter: Option<Page>)
    ensures AfterPartHidden(s, s.self, pageAfter).hidden
    ensures part != s.self ==> AfterPartHidden(s, part, pageAfter).hidden == s.hidden
    ensures s.pinned ==> AfterPartHidden(s, part, pageAfter).pageBookCalls == s.pageBookCalls
    ensures s.hidden ==> AfterPartVisible(s, s.self, pageAfter) == s.(hidden := false)
    ensures part != s.self ==> AfterPartVisible(s, part, pageAfter).hidden == s.hidden
  {
  }

  /** Closing the part a pinned sheet shows unpins it and clears the description; closing another part keeps the pin. */
  lemma ClosingUnpins(s: SheetState, part: Part, pageAfter: Option<Page>)
    ensures var r := AfterPartClosed(s, part, pageAfter);
            (s.pinned && Some(part) == s.currentPart ==> !r.pinned && r.description == Blank) &&
            (Some(part) != s.currentPart ==> r.pinned == s.pinned && r.description == s.description) &&
            r.currentPart == s.currentPart && r.pageBookCalls == s.pageBookCalls + [BookClosed(part)]
  {
  }

  /** `show` refuses every context while pinned, and any context not made by a property sheet. */
  lemma ShowRefusal(s: SheetState, context: ShowInContext, contributing: Option<Part>, pageAfter: Option<Page>)
    requires s.pinned || !context.PropertyShowInContext?
    ensures !ShowAccepts(s, context)
    ensures AfterShow(s, context, contributing, pageAfter) == s
  {
  }

  /** Showing a visible, unpinned view an important part with a selection makes that part and selection current. */
  lemma ShowDisplaysContext(s: SheetState, part: Part, sel: Selection, contributing: Option<Part>, pageAfter: Option<Page>)
    requires !s.hidden && IsImportant(s, part)
    ensures var r := AfterShow(s, PropertyShowInContext(part, Some(sel)), contributing, pageAfter);
            r.currentPart == Some(part) && r.currentSelection == Some(sel) && r.bootstrapSelection.None? &&
            (pageAfter.Some? ==> r.notifications[|r.notifications| - 1] == Notification(pageAfter.value, part, sel))
  {
    var a := AfterPartActivated(s, part, contributing, pageAfter);
    VisibleActivation(s, part, contributing, pageAfter);
    assert IsImportant(a, part);
    assert SelectionReaction(a, Some(part), Some(sel)) == Accepted;
    AcceptedSelection(a, part, sel);
  }

  /** Every handler keeps the description consistent with the pin state and the current part. */
  lemma StepConsistent(s: SheetState, e: Event)
    requires Consistent(s)
    ensures Consistent(Step(s, e))
  {
    match e
    case Show(ctx, c, pg) =>
      if ShowAccepts(s, ctx) {
        var a := AfterPartActivated(s, ctx.part, c, pg);
        assert Consistent(a);
      }
    case _ =>
  }

  /**
   * Over any run of events, the content description is non-blank only while
   * the sheet is pinned to a current part.
   */
  lemma {:induction false} RunConsistent(s: SheetState, es: seq<Event>)
    requires Consistent(s)
    ensures Consistent(Run(s, es))
    ensures Run(s, es).description != Blank <==> Run(s, es).pinned && Run(s, es).currentPart.Some?
    decreases |es|
  {
    if es != [] {
      StepConsistent(s, es[0]);
      RunConsistent(Step(s, es[0]), es[1..]);
    }
  }

  lemma StepOnlyAppends(s: SheetState, e: Event)
    ensures Step(s, e).self == s.self
    ensures s.notifications <= Step(s, e).notifications
    ensures s.pageBookCalls <= Step(s, e).pageBookCalls
  {
    match e
    case Show(ctx, c, pg) =>
      if ShowAccepts(s, ctx) {
        var a := AfterPartActivated(s, ctx.part, c, pg);
        assert s.notifications <= a.notifications && s.pageBookCalls <= a.pageBookCalls;
      }
    case _ =>
  }

  /** The view's identity never changes, pages only ever receive more notifications, and calls to the page book only accumulate. */
  lemma {:induction false} RunOnlyAppends(s: SheetState, es: seq<Event>)
    ensures Run(s, es).self == s.self
    ensures s.notifications <= Run(s, es).notifications
    ensures s.pageBookCalls <= Run(s, es).pageBookCalls
    decreases |es|
  {
    if es != [] {
      StepOnlyAppends(s, es[0]);
      RunOnlyAppends(Step(s, es[0]), es[1..]);
    }
  }

  /** Once the opening selection is used up, no event brings it back. */
  lemma {:induction false} BootstrapUsedOnce(s: SheetState, es: seq<Event>)
    requires s.bootstrapSelection.None?
    ensures Run(s, es).bootstrapSelection.None?
    decreases |es|
  {
    if es != [] {
      BootstrapUsedOnce(Step(s, es[0]), es[1..]);
    }
  }

  /** The pin changes only through `setPinned` or by closing the part the sheet is pinned to. */
  lemma PinChangesOnlyByRequestOrClose(s: SheetState, e: Event)
    requires Step(s, e).pinned != s.pinned
    ensures e.SetPinned? || (e.Closed? && s.pinned && Some(e.part) == s.currentPart)
  {
  }

  /** The view's hidden flag changes only on events about the view itself. */
  lemma HiddenChangesOnlyForSelf(s: SheetState, e: Event)
    requires Step(s, e).hidden != s.hidden
    ensures ((e.Activated? || e.Hidden? || e.Visible?) && e.part == s.self) ||
            (e.Show? && e.context.PropertyShowInContext? && e.context.part == s.self)
  {
  }

  // ---------------------------------------------------------------------
  // The view
  // ---------------------------------------------------------------------

  class PropertySheet {
    /** The view's own identity as a workbench part. */
    const self: Part
    var hidden: bool
    /** The checked state of the pin action. */
    var pinned: bool
    var currentPart: Option<Part>
    var currentSelection: Option<Selection>
    var bootstrapSelection: Option<Selection>
    /** The page the page book currently shows. */
    var currentPage: Option<Page>
    var notifications: seq<Notification>
    var pageBookCalls: seq<PageBookCall>
    var description: Description

    function State(): SheetState
      reads this
    {
      SheetState(self, hidden, pinned, currentPart, currentSelection, bootstrapSelection,
                 currentPage, notifications, pageBookCalls, description)
    }

    ghost predicate Valid()
      reads this
    {
      Consistent(State())
    }

    /** A new view: visible, unpinned, following nothing. */
    constructor (self: Part)
      ensures Valid()
      ensures State() == SheetState(self, false, false, None, None, None, None, [], [], Blank)
    {
      this.self := self;
      hidden, pinned := false, false;
      currentPart, currentSelection, bootstrapSelection := None, None, None;
      currentPage := None;
      notifications, pageBookCalls := [], [];
      description := Blank;
    }

    /** `getBootstrapPart`: remember the page's selection for the first activation, and answer its active part. */
    method GetBootstrapPart(page: Option<WorkbenchPage>) returns (p: Option<Part>)
      requires Valid()
      modifies this
      ensures Valid()
      ensures page.Some? ==> p == page.value.activePart &&
                             State() == old(State()).(bootstrapSelection := page.value.selection)
      ensures page.None? ==> p.None? && State() == old(State())
    {
      if page.Some? {
        bootstrapSelection := page.value.selection;
        return page.value.activePart;
      }
      return None;
    }

    /**
     * Whether the pin action is checked. The constructor creates the action
     * and only `dispose` sets it back to `null`, so it always exists here.
     */
    predicate IsPinned(): (r: bool)
      reads this
      ensures r <==> State().pinned
    {
      pinned
    }

    method UpdateContentDescription()
      modifies this
      ensures State() == Redescribed(old(State()))
    {
      if IsPinned() && currentPart.Some? {
        description := PinnedTo(currentPart.value);
      } else {
        description := Blank;
      }
    }

    method PassToPageBook(call: PageBookCall, pageAfter: Option<Page>)
      modifies this
      ensures State() == ViaPageBook(old(State()), call, pageAfter)
    {
      pageBookCalls := pageBookCalls + [call];
      currentPage := pageAfter;
    }

    method SelectionChanged(part: Option<Part>, sel: Option<Selection>) returns (reaction: Reaction)
      requires Valid()
      modifies this
      ensures Valid()
      ensures reaction == SelectionReaction(old(State()), part, sel)
      ensures State() == AfterSelectionChanged(old(State()), part, sel)
    {
      if sel.None? {
        return Ignored;
      }
      if part.None? {
        return NullPartFault;   // isImportant dereferences the missing part
      }
      if !IsImportant(State(), part.value) || sel == currentSelection {
        return Ignored;
      }
      if hidden && (part.None? || part != currentPart) {
        return Ignored;
      }
      currentPart := part;
      currentSelection := sel;
      if currentPage.Some? {
        notifications := notifications + [Notification(currentPage.value, currentPart.value, currentSelection.value)];
      }
      UpdateContentDescription();
      reaction := Accepted;
    }

    method PartActivated(part: Part, contributing: Option<Part>, pageAfter: Option<Page>)
      requires Valid()
      modifies this
      ensures Valid()
      ensures State() == AfterPartActivated(old(State()), part, contributing, pageAfter)
    {
      if hidden {
        if self == part {
          hidden := false;
        }
        return;
      }
      if contributing.Some? {
        PassToPageBook(BookActivated(contributing.value), pageAfter);
      } else {
        PassToPageBook(BookActivated(part), pageAfter);
      }
      if IsImportant(State(), part) {
        currentPart := Some(part);
        currentSelection := None;
      }
      if bootstrapSelection.Some? {
        if currentPage.Some? {
          notifications := notifications + [Notification(currentPage.value, part, bootstrapSelection.value)];
        }
        bootstrapSelection := None;
      }
    }

    method PartHidden(part: Part, pageAfter: Option<Page>)
      requires Valid()
      modifies this
      ensures Valid()
      ensures State() == AfterPartHidden(old(State()), part, pageAfter)
    {
      if self == part {
        hidden := true;
      }
      if !IsPinned() {
        PassToPageBook(BookHidden(part), pageAfter);
      }
    }

    method PartVisible(part: Part, pageAfter: Option<Page>)
      requires Valid()
      modifies this
      ensures Valid()
      ensures State() == AfterPartVisible(old(State()), part, pageAfter)
    {
      if hidden && self == part {
        hidden := false;
        return;
      }
      PassToPageBook(BookVisible(part), pageAfter);
    }

    method PartClosed(part: Part, pageAfter: Option<Page>)
      requires Valid()
      modifies this
      ensures Valid()
      ensures State() == AfterPartClosed(old(State()), part, pageAfter)
    {
      if IsPinned() && Some(part) == currentPart {
        pinned := false;              // the pin action's listener refreshes the description
        UpdateContentDescription();
      }
      PassToPageBook(BookClosed(part), pageAfter);
    }

    method SetPinned(p: bool)
      requires Valid()
      modifies this
      ensures Valid()
      ensures State() == AfterSetPinned(old(State()), p)
    {
      pinned := p;
      UpdateContentDescription();
    }

    method Show(context: ShowInContext, contributing: Option<Part>, pageAfter: Option<Page>) returns (shown: bool)
      requires Valid()
      modifies this
      ensures Valid()
      ensures shown == ShowAccepts(old(State()), context)
      ensures State() == AfterShow(old(State()), context, contributing, pageAfter)
    {
      if !IsPinned() && context.PropertyShowInContext? {
        PartActivated(context.part, contributing, pageAfter);
        var _ := SelectionChanged(Some(context.part), context.selection);
        return true;
      }
      return false;
    }
  }
}
