# Decision logic of the Eclipse workbench UI, modelled and proved in Dafny

This project models the small pieces of decision logic in six classes of the
Eclipse Platform UI, over abstract identifiers (parts, selections, handlers,
menu elements, tab items). No widget, no dependency-injection container and
no extension registry is involved.

| file | module | models |
|---|---|---|
| `property_sheet.dfy` | `PropertySheetView` | The Property Sheet view. It decides which part and selection it follows and whether it is hidden or pinned. It also decides which part, selection and visibility events reach its current page. |
| `part_handler_service.dfy` | `PartHandlerService` | Finding the handler for a command. The search runs up a part's containment chain. |
| `ice_adapter.dfy` | `ICEAdapter` | Property lookup on extension configuration elements, including the constructed "label". Also the adapter-factory answers. |
| `application_model.dfy` | `ApplicationModel` | The application root of the e4 model. It has two lazily created containment lists and reflective `eGet`/`eSet`/`eUnset`/`eIsSet`. |
| `menu_show_processor.dfy` | `DynamicMenus` | The menu show processor. It keeps one-shot clean-up tasks per menu. It also installs the elements that dynamic menu contributions supply. |
| `tab_decorations.dfy` | `TabDecorations` | A tabbed property page that maps each tab to a number of decoration images. |
| `wrappers.dfy` | `Wrappers` | `Option`, standing for a Java reference that may be `null`. |

How the pieces are modelled:

- **Property Sheet.** `SheetState` holds everything the view keeps: its own identity, `hidden`, the pin action's checked state, `currentPart`, `currentSelection`, `bootstrapSelection`, the page the page book shows, the notifications pages received, the calls passed on to the page-book superclass, and the content description. Each event handler has a transition function (`AfterPartActivated`, `AfterSelectionChanged`, …). The class `PropertySheet` has these values as fields. Its methods update them step by step, as the Java does, and each method is proved equal to its transition function. Lemmas about the transition functions state the view's rules. `Run` applies a sequence of events, and lemmas over `Run` state what holds after any history.
- **Handler lookup.** A part value carries its handler list and its parent part. Every containment chain is therefore finite and acyclic. `FindFirstHandlerFor` keeps the shape of the Java method: a loop over the part's handlers, then recursion on the parent. It is proved equal to an independent definition: the first matching handler in the concatenated handler lists of the chain (`FirstFor(ChainHandlers(p), c)`).
- **Application root.** Each list is an `EList` object that is `null` until its getter first runs, so list identity is modelled. EMF object lists are unique: `addAll` skips objects the list already holds. `EList.AddAll` models that, and `AppendUnique` specifies it. The value given to `eSet` is a Java object: a collection, a list object (possibly the feature's own list, which the clear empties before `addAll` reads it), `null` or a non-collection; the last two end in an exception after the clear.
- **Dynamic menus.** The element attributes the processor sets are maps keyed by element: id, parent, contribution object, and transient data. An element may appear more than once among the supplied elements, or be the contribution itself. The maps handle this exactly, with no precondition. Both loops of `processDynamicElements` are proved equal to folds (`ProcessChildren`, `AssignAll`). Calls to the renderer, the contribution factory and `@AboutToShow` methods are recorded as `Action`s. What those calls return is an input (`Environment`).

Behaviour of the code as written that the model follows:

- `selectionChanged` with a non-null selection and a `null` part throws. `isImportant` calls `part.getSite()` (`bundles/org.eclipse.ui.views/src/org/eclipse/ui/views/properties/PropertySheet.java:252`) before the `part == null` test at line 351 is reached. The model returns `NullPartFault` and changes no state. The later null test can therefore never be true.
- In `processDynamicElements`, a contribution whose own element id is `null` gives its elements ids of the form `"null.<j>"`. This is Java's string concatenation of a `null` (`JavaText`).
- `pendingCleanup` starts empty (`bundles/org.eclipse.e4.ui.workbench.renderers.swt/src/org/eclipse/e4/ui/workbench/renderers/swt/MenuManagerShowProcessor.java:65`). No code in the class ever adds to it, so in the class as shipped `cleanUp` always returns at its emptiness test. `CleanUp` is still specified for every map.
- In `partClosed`, unpinning goes through `setChecked(false)`. The listener that `createPartControl` registers on the pin action then refreshes the content description (`bundles/org.eclipse.ui.views/src/org/eclipse/ui/views/properties/PropertySheet.java:139-145`). The model assumes the view's control has been created, so the listener is registered.

## Model

| member | source | states |
|---|---|---|
| PropertySheetView.Describe | bundles/org.eclipse.ui.views/src/org/eclipse/ui/views/properties/PropertySheet.java:367-373 | The description is non-blank exactly when the sheet is pinned and has a current part, and it then names that part. |
| PropertySheetView.IsImportant | bundles/org.eclipse.ui.views/src/org/eclipse/ui/views/properties/PropertySheet.java:249-254 | A pinned sheet follows no part; the sheet itself and the Help view are never followed; any other part is. |
| PropertySheetView.SelectionAcceptedExactly | bundles/org.eclipse.ui.views/src/org/eclipse/ui/views/properties/PropertySheet.java:344-353 | Both directions: a selection change is accepted iff the selection and part are present, the part is important (not pinned, not the sheet itself, not the Help view), the selection differs from the current one, and a hidden sheet hears only from its current part. It faults iff a selection comes with no part. |
| PropertySheetView.IgnoredSelectionChangesNothing | bundles/org.eclipse.ui.views/src/org/eclipse/ui/views/properties/PropertySheet.java:346-353 | A null selection, an unimportant part, an equal selection, or (while hidden) a foreign or missing part leaves the whole state unchanged and notifies no page. |
| PropertySheetView.AcceptedSelection | bundles/org.eclipse.ui.views/src/org/eclipse/ui/views/properties/PropertySheet.java:355-364 | After an accepted change the part and selection are current, the current page (if any) receives exactly that pair, and hidden, pin, opening selection, page and page-book calls are unchanged. |
| PropertySheetView.PinnedSheetFollowsNothing | bundles/org.eclipse.ui.views/src/org/eclipse/ui/views/properties/PropertySheet.java:249-254 | While pinned, no selection change is accepted and no activation changes the current part or selection. |
| PropertySheetView.HiddenActivation | bundles/org.eclipse.ui.views/src/org/eclipse/ui/views/properties/PropertySheet.java:302-309 | Activation while hidden changes nothing, except that activating the sheet itself clears hidden. |
| PropertySheetView.VisibleActivation | bundles/org.eclipse.ui.views/src/org/eclipse/ui/views/properties/PropertySheet.java:310-337 | A visible activation is passed to the page book (for the contributing part when there is one), makes an important part current with no selection, keeps the current part otherwise, hands the opening selection to the page then shown, and always clears the opening selection. |
| PropertySheetView.HidingAndShowingTheView | bundles/org.eclipse.ui.views/src/org/eclipse/ui/views/properties/PropertySheet.java:271-295 | Hiding the sheet sets hidden; a pinned sheet passes no hide event on; showing a hidden sheet clears hidden and passes nothing on; events about other parts leave hidden alone. |
| PropertySheetView.ClosingUnpins | bundles/org.eclipse.ui.views/src/org/eclipse/ui/views/properties/PropertySheet.java:260-265 | Closing the current part of a pinned sheet unpins it and blanks the description; closing another part keeps the pin; the close is always passed to the page book. |
| PropertySheetView.ShowRefusal | bundles/org.eclipse.ui.views/src/org/eclipse/ui/views/properties/PropertySheet.java:427-436 | show refuses every context while pinned, and every context not made by a property sheet, changing nothing. |
| PropertySheetView.ShowDisplaysContext | bundles/org.eclipse.ui.views/src/org/eclipse/ui/views/properties/PropertySheet.java:427-436 | Showing a visible unpinned sheet an important part with a selection makes both current, uses up the opening selection, and the last notification of the page shown is that pair. |
| PropertySheetView.StepConsistent | bundles/org.eclipse.ui.views/src/org/eclipse/ui/views/properties/PropertySheet.java:139-145 | Every event handler keeps the description consistent with the pin state and the current part. |
| PropertySheetView.RunConsistent | bundles/org.eclipse.ui.views/src/org/eclipse/ui/views/properties/PropertySheet.java:367-373 | After any sequence of events the description is non-blank iff the sheet is pinned to a current part. |
| PropertySheetView.StepOnlyAppends | bundles/org.eclipse.ui.views/src/org/eclipse/ui/views/properties/PropertySheet.java:355-362 | One event never changes the sheet's identity and only appends to the notifications and to the page-book calls. |
| PropertySheetView.RunOnlyAppends | bundles/org.eclipse.ui.views/src/org/eclipse/ui/views/properties/PropertySheet.java:355-362 | Over any run the sheet's identity is fixed and notifications and page-book calls only grow by appending. |
| PropertySheetView.BootstrapUsedOnce | bundles/org.eclipse.ui.views/src/org/eclipse/ui/views/properties/PropertySheet.java:330-337 | Once the opening selection is used, no sequence of events restores it. |
| PropertySheetView.PinChangesOnlyByRequestOrClose | bundles/org.eclipse.ui.views/src/org/eclipse/ui/views/properties/PropertySheet.java:438-445 | The pin changes only by setPinned or by closing the part a pinned sheet shows. |
| PropertySheetView.HiddenChangesOnlyForSelf | bundles/org.eclipse.ui.views/src/org/eclipse/ui/views/properties/PropertySheet.java:271-309 | The hidden flag changes only on activation, hide or visibility events about the sheet itself (directly or through show). |
| PropertySheetView.PropertySheet.constructor | bundles/org.eclipse.ui.views/src/org/eclipse/ui/views/properties/PropertySheet.java:109-115 | A new view is visible, unpinned, follows no part or selection and has a blank description. |
| PropertySheetView.PropertySheet.GetBootstrapPart | bundles/org.eclipse.ui.views/src/org/eclipse/ui/views/properties/PropertySheet.java:214-221 | With a workbench page, remembers its selection as the opening selection and answers its active part; without one, answers null and changes nothing. |
| PropertySheetView.PropertySheet.UpdateContentDescription | bundles/org.eclipse.ui.views/src/org/eclipse/ui/views/properties/PropertySheet.java:367-373 | The description becomes the one Describe gives for the pin state and current part. |
| PropertySheetView.PropertySheet.IsPinned | bundles/org.eclipse.ui.views/src/org/eclipse/ui/views/properties/PropertySheet.java:409-411 | The view is pinned exactly when the pin action is checked (the constructor creates the action and only the omitted `dispose` clears it, so the null test at 410 always passes). |
| PropertySheetView.PropertySheet.SelectionChanged | bundles/org.eclipse.ui.views/src/org/eclipse/ui/views/properties/PropertySheet.java:344-365 | Returns the reaction SelectionReaction decides and leaves exactly the state AfterSelectionChanged gives; keeps the description consistent. |
| PropertySheetView.PropertySheet.PartActivated | bundles/org.eclipse.ui.views/src/org/eclipse/ui/views/properties/PropertySheet.java:302-338 | The new state is AfterPartActivated of the old one; keeps the description consistent. |
| PropertySheetView.PropertySheet.PartHidden | bundles/org.eclipse.ui.views/src/org/eclipse/ui/views/properties/PropertySheet.java:285-295 | The new state is AfterPartHidden of the old one. |
| PropertySheetView.PropertySheet.PartVisible | bundles/org.eclipse.ui.views/src/org/eclipse/ui/views/properties/PropertySheet.java:271-279 | The new state is AfterPartVisible of the old one. |
| PropertySheetView.PropertySheet.PartClosed | bundles/org.eclipse.ui.views/src/org/eclipse/ui/views/properties/PropertySheet.java:260-265 | The new state is AfterPartClosed of the old one. |
| PropertySheetView.PropertySheet.SetPinned | bundles/org.eclipse.ui.views/src/org/eclipse/ui/views/properties/PropertySheet.java:442-445 | Sets the pin to the given value and re-describes; the new state is AfterSetPinned. |
| PropertySheetView.PropertySheet.Show | bundles/org.eclipse.ui.views/src/org/eclipse/ui/views/properties/PropertySheet.java:427-436 | Returns true exactly when unpinned and given a property-sheet context; the new state is activation of the context's part followed by its selection, else unchanged. |
| PartHandlerService.FirstFor | bundles/org.eclipse.e4.ui.workbench/src/org/eclipse/e4/workbench/ui/renderers/swt/PartHandlerService.java:25-31 | The first handler of a list bound to the command: a found handler is in the list and bound to the command; nothing is found iff no handler of the list is bound to it. |
| PartHandlerService.FirstForIsFirst | bundles/org.eclipse.e4.ui.workbench/src/org/eclipse/e4/workbench/ui/renderers/swt/PartHandlerService.java:25-31 | A found handler sits at an index before which no handler is bound to the command, so it is the earliest match. |
| PartHandlerService.FirstForAppend | bundles/org.eclipse.e4.ui.workbench/src/org/eclipse/e4/workbench/ui/renderers/swt/PartHandlerService.java:25-32 | Looking in a + b finds the first match of a if any, else the first match of b. |
| PartHandlerService.FindFirstHandlerFor | bundles/org.eclipse.e4.ui.workbench/src/org/eclipse/e4/workbench/ui/renderers/swt/PartHandlerService.java:21-33 | The loop-and-recurse lookup returns the first handler bound to the command in the handler lists of the chain, part first; from a null part it returns null. |
| PartHandlerService.Service.GetHandler | bundles/org.eclipse.e4.ui.workbench/src/org/eclipse/e4/workbench/ui/renderers/swt/PartHandlerService.java:17-19 | getHandler is the lookup starting from the service's own part. |
| PartHandlerService.OwnHandlerWins | bundles/org.eclipse.e4.ui.workbench/src/org/eclipse/e4/workbench/ui/renderers/swt/PartHandlerService.java:25-31 | A part with a handler for the command answers with the first one in its own list order, whatever its ancestors hold. |
| PartHandlerService.NoOwnHandlerDefersToParent | bundles/org.eclipse.e4.ui.workbench/src/org/eclipse/e4/workbench/ui/renderers/swt/PartHandlerService.java:32 | A part with no handler for the command answers exactly as its parent does. |
| PartHandlerService.NoHandlerOnChain | bundles/org.eclipse.e4.ui.workbench/src/org/eclipse/e4/workbench/ui/renderers/swt/PartHandlerService.java:21-33 | If no part on the ancestor chain has a handler for the command, the lookup returns null. |
| PartHandlerService.NothingFoundMeansNoHandler | bundles/org.eclipse.e4.ui.workbench/src/org/eclipse/e4/workbench/ui/renderers/swt/PartHandlerService.java:21-33 | Conversely, a null result means no part on the chain has a handler for the command. |
| ICEAdapter.Label | bundles/org.eclipse.e4.ui.workbench/src/org/eclipse/e4/workbench/modeling/ICEAdapter.java:35-51 | Name and id: "name [id]"; name only: the name; id only: the id; neither: the element's own name. |
| ICEAdapter.LabelStartsWithName | bundles/org.eclipse.e4.ui.workbench/src/org/eclipse/e4/workbench/modeling/ICEAdapter.java:40-44 | A present name is always a prefix of the label. |
| ICEAdapter.LabelEndsWithId | bundles/org.eclipse.e4.ui.workbench/src/org/eclipse/e4/workbench/modeling/ICEAdapter.java:42-46 | A present id always ends the label, followed by "]" when a name precedes it. |
| ICEAdapter.LabelEmpty | bundles/org.eclipse.e4.ui.workbench/src/org/eclipse/e4/workbench/modeling/ICEAdapter.java:39-51 | The label is empty exactly when the part chosen to build it is empty (a name with no id, an id alone, or the element name). |
| ICEAdapter.GetProperty | bundles/org.eclipse.e4.ui.workbench/src/org/eclipse/e4/workbench/modeling/ICEAdapter.java:31-63 | "label" gives the label, "classImpl" the executable extension of the element, and any other id the attribute of that id, null when absent. |
| ICEAdapter.Adapter.GetAdapter | bundles/org.eclipse.e4.ui.workbench/src/org/eclipse/e4/workbench/modeling/ICEAdapter.java:15-17 | getAdapter returns the very factory it is called on (same object identity) for any object and adapter type. |
| ICEAdapter.Adapter.GetAdapterList | bundles/org.eclipse.e4.ui.workbench/src/org/eclipse/e4/workbench/modeling/ICEAdapter.java:19-21 | The adapter list has exactly one entry, the model handler type. |
| ApplicationModel.EList.Clear | bundles/org.eclipse.e4.ui.model.workbench/src/org/eclipse/e4/ui/model/internal/application/MApplicationImpl.java:152 | Clearing a list leaves it empty. |
| ApplicationModel.EList.AddAll | bundles/org.eclipse.e4.ui.model.workbench/src/org/eclipse/e4/ui/model/internal/application/MApplicationImpl.java:153 | Adding to a containment list appends, in order, each object not already present (AppendUnique). |
| ApplicationModel.AppendUnique | bundles/org.eclipse.e4.ui.model.workbench/src/org/eclipse/e4/ui/model/internal/application/MApplicationImpl.java:153 | The unique append keeps the old list as a prefix and grows by at most the number of added objects. |
| ApplicationModel.AppendUniqueContents | bundles/org.eclipse.e4.ui.model.workbench/src/org/eclipse/e4/ui/model/internal/application/MApplicationImpl.java:151-154 | A unique append keeps the old list as a prefix, holds exactly the objects of both, and never creates a duplicate. |
| ApplicationModel.AppendUniqueToEmpty | bundles/org.eclipse.e4.ui.model.workbench/src/org/eclipse/e4/ui/model/internal/application/MApplicationImpl.java:151-154 | Clearing and then adding a duplicate-free value gives exactly that value, in order. |
| ApplicationModel.MApplication.constructor | bundles/org.eclipse.e4.ui.model.workbench/src/org/eclipse/e4/ui/model/internal/application/MApplicationImpl.java:72-74 | A new application has neither list yet. |
| ApplicationModel.MApplication.GetWindows | bundles/org.eclipse.e4.ui.model.workbench/src/org/eclipse/e4/ui/model/internal/application/MApplicationImpl.java:91-96 | The first call creates an empty, new list; every later call returns that same list with its contents unchanged; the command list is untouched. |
| ApplicationModel.MApplication.GetCommand | bundles/org.eclipse.e4.ui.model.workbench/src/org/eclipse/e4/ui/model/internal/application/MApplicationImpl.java:103-108 | The same lazy creation for the command list; the windows list is untouched. |
| ApplicationModel.MApplication.EGet | bundles/org.eclipse.e4.ui.model.workbench/src/org/eclipse/e4/ui/model/internal/application/MApplicationImpl.java:132-140 | Windows and Command return the list the matching getter returns (creating it on first use); other ids go to the superclass. |
| ApplicationModel.MApplication.ESet | bundles/org.eclipse.e4.ui.model.workbench/src/org/eclipse/e4/ui/model/internal/application/MApplicationImpl.java:149-161 | The feature's list (same object if it existed) is cleared, then receives the unique append of what the value held beforehand; a value that is the feature's own list leaves it empty; `null` and a non-collection leave it empty and end in NullPointerException or ClassCastException; other ids go to the superclass; the other list is unchanged. |
| ApplicationModel.ClearAndAdd | bundles/org.eclipse.e4.ui.model.workbench/src/org/eclipse/e4/ui/model/internal/application/MApplicationImpl.java:152-153 | One list case of eSet: the list ends as AddedAfterClear says and the outcome is the one OutcomeOf gives. |
| ApplicationModel.AddedAfterClear | bundles/org.eclipse.e4.ui.model.workbench/src/org/eclipse/e4/ui/model/internal/application/MApplicationImpl.java:152-153 | After clear then addAll, the list holds exactly the objects the value held beforehand, for a collection or another list; nothing when the value is the list itself, `null` or not a collection. |
| ApplicationModel.OutcomeOf | bundles/org.eclipse.e4.ui.model.workbench/src/org/eclipse/e4/ui/model/internal/application/MApplicationImpl.java:153 | eSet on a list feature completes exactly for a collection or list value; `null` throws NullPointerException and a non-collection ClassCastException. |
| ApplicationModel.MApplication.EUnset | bundles/org.eclipse.e4.ui.model.workbench/src/org/eclipse/e4/ui/model/internal/application/MApplicationImpl.java:169-179 | The feature's list ends up empty and eIsSet is false for it; the other feature's list is unchanged. |
| ApplicationModel.MApplication.EIsSet | bundles/org.eclipse.e4.ui.model.workbench/src/org/eclipse/e4/ui/model/internal/application/MApplicationImpl.java:187-195 | For Windows and Command, true iff the list exists and is not empty; other ids are the superclass's to answer. |
| ApplicationModel.SetThenRead | bundles/org.eclipse.e4.ui.model.workbench/src/org/eclipse/e4/ui/model/internal/application/MApplicationImpl.java:151-154 | After eSet with a duplicate-free collection value, eGet returns a list holding exactly that value, and eIsSet holds iff it is non-empty. |
| ApplicationModel.SetToOwnList | bundles/org.eclipse.e4.ui.model.workbench/src/org/eclipse/e4/ui/model/internal/application/MApplicationImpl.java:132-154 | eSet(f, eGet(f)) leaves the list empty and eIsSet false, because clear runs before addAll reads the same list. |
| DynamicMenus.MenuManagerShowProcessor.constructor | bundles/org.eclipse.e4.ui.workbench.renderers.swt/src/org/eclipse/e4/ui/workbench/renderers/swt/MenuManagerShowProcessor.java:65 | The processor starts with no pending clean-up. |
| DynamicMenus.MenuManagerShowProcessor.CleanUp | bundles/org.eclipse.e4.ui.workbench.renderers.swt/src/org/eclipse/e4/ui/workbench/renderers/swt/MenuManagerShowProcessor.java:192-203 | With nothing pending nothing changes; otherwise only the menu's entry is removed, and its task, if present, runs exactly once. |
| DynamicMenus.MenuManagerShowProcessor.ProcessDynamicElements | bundles/org.eclipse.e4.ui.workbench.renderers.swt/src/org/eclipse/e4/ui/workbench/renderers/swt/MenuManagerShowProcessor.java:137-190 | The element attributes and the recorded actions end up as the fold ProcessChildren over the menu's children gives; pending clean-ups are untouched. |
| DynamicMenus.MenuManagerShowProcessor.ProcessDynamicElement | bundles/org.eclipse.e4.ui.workbench.renderers.swt/src/org/eclipse/e4/ui/workbench/renderers/swt/MenuManagerShowProcessor.java:143-188 | One dynamic child is processed exactly as ProcessChild describes. |
| DynamicMenus.MenuManagerShowProcessor.AssignContributedElements | bundles/org.eclipse.e4.ui.workbench.renderers.swt/src/org/eclipse/e4/ui/workbench/renderers/swt/MenuManagerShowProcessor.java:178-186 | The id-and-parent loop ends in the state AssignAll gives and records one renderer processing call per supplied element, in order. |
| DynamicMenus.MenuManagerShowProcessor.AssignElement | bundles/org.eclipse.e4.ui.workbench.renderers.swt/src/org/eclipse/e4/ui/workbench/renderers/swt/MenuManagerShowProcessor.java:179-184 | One pass of the inner loop: the element gets the generated id only if its id is null or empty, and takes the owner's parent; the new model state is AssignOne of the old one. |
| DynamicMenus.NatToString | bundles/org.eclipse.e4.ui.workbench.renderers.swt/src/org/eclipse/e4/ui/workbench/renderers/swt/MenuManagerShowProcessor.java:182-183 | The index in a generated id is written as a non-empty string of decimal digits. |
| DynamicMenus.Digit | bundles/org.eclipse.e4.ui.workbench.renderers.swt/src/org/eclipse/e4/ui/workbench/renderers/swt/MenuManagerShowProcessor.java:182-183 | A digit character whose value is the given digit. |
| DynamicMenus.NatToStringValue | bundles/org.eclipse.e4.ui.workbench.renderers.swt/src/org/eclipse/e4/ui/workbench/renderers/swt/MenuManagerShowProcessor.java:182-183 | Reading the digits of the generated index back gives the index itself. |
| DynamicMenus.NatToStringNoLeadingZero | bundles/org.eclipse.e4.ui.workbench.renderers.swt/src/org/eclipse/e4/ui/workbench/renderers/swt/MenuManagerShowProcessor.java:182-183 | The index is written without leading zeros, as Java writes an int: only 0 starts with the digit 0, and then it is one character. |
| DynamicMenus.GeneratedIdsDiffer | bundles/org.eclipse.e4.ui.workbench.renderers.swt/src/org/eclipse/e4/ui/workbench/renderers/swt/MenuManagerShowProcessor.java:180-184 | Different indices generate different ids for the same contribution. |
| DynamicMenus.ProcessActions | bundles/org.eclipse.e4.ui.workbench.renderers.swt/src/org/eclipse/e4/ui/workbench/renderers/swt/MenuManagerShowProcessor.java:185 | One renderer processing call per supplied element, in order. |
| DynamicMenus.AssignOneEffect | bundles/org.eclipse.e4.ui.workbench.renderers.swt/src/org/eclipse/e4/ui/workbench/renderers/swt/MenuManagerShowProcessor.java:179-184 | One pass gives the element a generated id only if its id is null or empty, and the owner's parent; no other element changes. |
| DynamicMenus.AssignAllFrame | bundles/org.eclipse.e4.ui.workbench.renderers.swt/src/org/eclipse/e4/ui/workbench/renderers/swt/MenuManagerShowProcessor.java:178-186 | The id-and-parent loop leaves contribution objects and transient data alone. |
| DynamicMenus.AssignAllIdsAndParents | bundles/org.eclipse.e4.ui.workbench.renderers.swt/src/org/eclipse/e4/ui/workbench/renderers/swt/MenuManagerShowProcessor.java:178-186 | For distinct supplied elements not including the owner: element j keeps a non-empty id and otherwise gets "<owner id>.<j>", every one gets the owner's parent, and no other element changes id or parent. |
| DynamicMenus.SuppliedElementsAssigned | bundles/org.eclipse.e4.ui.workbench.renderers.swt/src/org/eclipse/e4/ui/workbench/renderers/swt/MenuManagerShowProcessor.java:176-186 | After processing a contribution, each of its supplied elements carries the id and parent that rule prescribes. |
| DynamicMenus.ContributionCached | bundles/org.eclipse.e4.ui.workbench.renderers.swt/src/org/eclipse/e4/ui/workbench/renderers/swt/MenuManagerShowProcessor.java:144-154 | The contribution object is created only when the element has none, and is then cached on the element; an existing one is kept. |
| DynamicMenus.FactoryCalledOnlyWhenUncached | bundles/org.eclipse.e4.ui.workbench.renderers.swt/src/org/eclipse/e4/ui/workbench/renderers/swt/MenuManagerShowProcessor.java:146-153 | Earlier actions are kept, and a factory call is recorded during the pass exactly when no contribution object was cached on the element. |
| DynamicMenus.StorageReplaced | bundles/org.eclipse.e4.ui.workbench.renderers.swt/src/org/eclipse/e4/ui/workbench/renderers/swt/MenuManagerShowProcessor.java:165-187 | Afterwards the storage key of the contribution holds exactly the supplied list; its other transient keys are unchanged. |
| DynamicMenus.PreviousListRemoved | bundles/org.eclipse.e4.ui.workbench.renderers.swt/src/org/eclipse/e4/ui/workbench/renderers/swt/MenuManagerShowProcessor.java:168-174 | Earlier actions are kept; a removal call happens iff a non-empty list was stored, and it is passed exactly that list. |
| DynamicMenus.DynamicOnly | bundles/org.eclipse.e4.ui.workbench.renderers.swt/src/org/eclipse/e4/ui/workbench/renderers/swt/MenuManagerShowProcessor.java:140-143 | The dynamic contributions among the children, in order. |
| DynamicMenus.OnlyDynamicChildrenMatter | bundles/org.eclipse.e4.ui.workbench.renderers.swt/src/org/eclipse/e4/ui/workbench/renderers/swt/MenuManagerShowProcessor.java:140-143 | Processing all children equals processing only the dynamic ones: the outer loop skips every other child. |
| TabDecorations.DecorationCount | tests/org.eclipse.ui.tests.views.properties.tabbed/src/org/eclipse/ui/tests/views/properties/tabbed/decorations/TabbedPropertySheetPageWithDecorations.java:48-54 | "Name" gets 5, "Message" gets 3, every other text 0. |
| TabDecorations.GetImageDecorationsForTabs | tests/org.eclipse.ui.tests.views.properties.tabbed/src/org/eclipse/ui/tests/views/properties/tabbed/decorations/TabbedPropertySheetPageWithDecorations.java:45-57 | The keys are exactly the given tabs, each tab maps to its text's count, and every value is 0, 3 or 5. |
| TabDecorations.TabbedPropertySheetPageWithDecorations.constructor | tests/org.eclipse.ui.tests.views.properties.tabbed/src/org/eclipse/ui/tests/views/properties/tabbed/decorations/TabbedPropertySheetPageWithDecorations.java:29-32 | A new page has decorations off. |
| TabDecorations.TabbedPropertySheetPageWithDecorations.UseDecorations | tests/org.eclipse.ui.tests.views.properties.tabbed/src/org/eclipse/ui/tests/views/properties/tabbed/decorations/TabbedPropertySheetPageWithDecorations.java:59-61 | Sets the flag to the given value and changes nothing else. |
| TabDecorations.TabbedPropertySheetPageWithDecorations.UpdateTabs | tests/org.eclipse.ui.tests.views.properties.tabbed/src/org/eclipse/ui/tests/views/properties/tabbed/decorations/TabbedPropertySheetPageWithDecorations.java:34-43 | The tabs are always shown; decoration counts are handed to the tab list only when the flag is on, and then form exactly the decoration map of the tabs. |

## Left out

- PropertySheet widget and page construction: `createPartControl`, `createDefaultPage`, `doCreatePage`, `doDestroyPage`, `init`, `saveState`, `dispose` and help wiring. They are SWT and workbench plumbing.
- PropertySheet `getShowInContext`, `getViewAdapter` and `getSaveablePart`. These are adapter lookups on parts the model treats as opaque.
- The page-book superclass (PageBookView). Its page switching is an input (`pageAfter`) and its handlers are recorded calls. The contributed-contents adapter lookup is an input (`contributing`).
- PropertySheetView.PropertySheet.Show: a property-sheet context that carries a `null` part is not modelled. Activating a `null` part reaches the adapter lookup and the superclass, which are outside the model.
- PropertySheetView.PropertySheet.PartActivated: the part is never `null`. Workbench part listeners are never given `null`.
- The text of the pinned description. The message template that names the part is not part of this model, so the description is modelled as "blank" or "names this part".
- PropertySheetView.Part: part titles are not modelled. A part is its object identity and site id, both fixed for its lifetime, so a renamed part stays the same part. The description records which part it names, not the title text read at 369; a description made before a rename is not shown as stale.
- PartHandlerService: a `null` command argument is not modelled. It would throw on the first handler compared.
- ICEAdapter `classImpl` branch: instantiating the extension, and the exception it prints, are extension-registry work. The model returns an opaque `Extension` value. `getChildren`, `getPropIds` and `setProperty` only delegate to the registry or the base class.
- MApplicationImpl: `eInverseRemove`, `eStaticClass` and notification chains are left out. So is containment-inverse bookkeeping: an object added to a list is not removed from its previous container. The type parameter of `windows` is dropped, since both lists hold opaque model objects. The numeric feature ids are not in these files, so features are `Windows`, `Command` and any inherited id. The superclass's state for inherited features is left out.
- MenuManagerShowProcessor `menuAboutToShow`, `menuAboutToHide`, `showPopup`, `showMenu` and `trace` are left out. They are renderer lookup, context activation, visibility updates and debug tracing.
- ApplicationModel.MApplication.ESet: when the value is a containment list of some other owner, EMF moves each added object out of that list; the model leaves the source list as it was (see the containment line above).
- MenuManagerShowProcessor: the contribution factory is assumed to return a non-null object. The `@AboutToShow` invocation is reduced to the list it fills. Transient data is modelled only for element lists.
- DynamicMenus.SuppliedElementsAssigned and DynamicMenus.AssignAllIdsAndParents: their per-index statement of the id rule requires supplied elements that are distinct and do not include the contribution itself. `ProcessDynamicElements` is still proved exact for every input, through `AssignAll`.
- TabbedPropertySheetPageWithDecorations: the tab list widget and the superclass's `updateTabs` are recorded, not modelled. A tab's text is never `null` in the model; Java's `getText().equals("Name")` at line 48 would throw on one.
- MenuManagerHideProcessor is not part of this model. Its effect is deferred to the UI thread.
- PojoMapPropertyDecorator, NavigatorTestBase, DependentAction, DependentActionProvider, MTrimBar and IModelResourceHandler are not part of this model. They are delegation to libraries, test harness and I/O, or interfaces only.
