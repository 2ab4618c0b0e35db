# Portfolio editor: drag-to-reorder lists and list editing, in Dafny

This project models the editing logic of a single-page portfolio editor. The
editor holds personal info, a list of work experiences and a list of
education entries. The model covers:

- **The drag-to-reorder list controller** (`DraggableList`). It is generic over the
  item type and holds three pieces of state: the dragged index, the index
  under the pointer, and the drop position (`above`/`below`). These are
  driven by drag start, drag over, drag enter, drag leave, drop and drag end
  events. On a valid drop it removes the dragged item from a copy of the list,
  computes an insert index, reinserts the item there, and hands the new list
  to `onReorder`. Each item's dimming and top or bottom highlight is derived
  from that state.
- **The page's editing state** (`PortfolioEditor`). This covers replace-at-index or
  append when an experience or education is saved, filter-by-index on delete,
  wholesale replacement on reorder, and single-field updates of the personal
  info. It also includes the initial portfolio, the blank items the dialogs
  open with, and the two dialogs' open/edit-index state.
- **The experience dialog** (`ExperienceDialog`). This covers the guarded, duplicate-free
  skill append, skill removal, the text-field edits, and the optional "read
  more" link. An empty input stores no link.
- **The education dialog** (`EducationDialog`). This covers appending, updating and removing
  description lines, and the text-field edits.

Each component whose state the source updates in place is a class with that
state as fields. The methods' `ensures` clauses tie the new state to a pure
function of the old state. The properties are proved about those functions.
The drop handler computes the new list the way the source does: one removal,
the conditional insert-index adjustments, one insertion. It is proved equal to
`Moved`, an independent position-by-position definition of "take the item at
`from` and put it at `to`". JavaScript's `filter`/`map` by position are
modelled element by element, as those methods walk the array (`FilterOutFrom`,
`MapReplaceFrom`). They are proved equal to "remove position i" and "update
position i". An index outside the list changes nothing.

Files: `props.dfy` (the records), `list_ops.dfy` (splice, filter and map by
position), `draggable_list.dfy`, `portfolio_editor.dfy`,
`experience_dialog.dfy`, `education_dialog.dfy`.

Where the design description and the code differ, the model follows the code:

- The drop and drag-end handlers clear the two indices but not the drop
  position. The position carries over to the next gesture
  (`Reset`, `RunWithoutHoverKeepsPosition`).
- The design's invariant "the drop target is never the dragged item" holds
  for event series in which a drag starts only while no drag is active
  (`RunKeepsConsistent`). A drag start during a drag does not clear the
  old target and can break it (`RestartBreaksConsistent`).
- A drop of an item on itself commits nothing. A drop on the near side of
  either neighbour commits the list unchanged (`DropBesideOwnSlot`).

## Model

| member | source | states |
|---|---|---|
| `DraggableList.Initial` | src/components/DraggableList.tsx:10-12 | a list starts with no drag, no target and the drop position `below` |
| `DraggableList.Start` | src/components/DraggableList.tsx:14-15 | drag start records the dragged index and changes neither the target nor the drop position |
| `DraggableList.Hover` | src/components/DraggableList.tsx:28-54 | over/enter do nothing unless a drag is active and the index is another item; otherwise that item becomes the target, and the position is `above` exactly when the pointer is above the item's vertical midpoint; the dragged index never changes |
| `DraggableList.Leave` | src/components/DraggableList.tsx:56-66 | leave clears the target when the pointer is strictly outside the rectangle; a pointer inside or on the edge changes nothing; the dragged index and the position are never touched |
| `DraggableList.Reset` | src/components/DraggableList.tsx:97-104 | after a drop or a drag end both indices are cleared and the drop position is kept |
| `DraggableList.InsertIndex` | src/components/DraggableList.tsx:79-89 | the insert index never exceeds the larger of the dragged and drop indices, so it lies within the list |
| `DraggableList.Moved` | src/components/DraggableList.tsx:72-92 | moving keeps the length and puts the dragged item at the target position |
| `DraggableList.MovedBySplice` | src/components/DraggableList.tsx:72-92 | the position-by-position move equals removing the item and reinserting it at the target position |
| `DraggableList.MovedIsPermutation` | src/components/DraggableList.tsx:71-92 | the reordered list is a permutation of the original |
| `DraggableList.MovedKeepsOthersInOrder` | src/components/DraggableList.tsx:75-92 | removing the moved item from the result gives the original without it: all other items keep their relative order |
| `DraggableList.DropOutcome` | src/components/DraggableList.tsx:68-95 | `onReorder` is called (once) exactly when a drag is active and the drop is on another item, and then with a same-length permutation of the items |
| `DraggableList.DropLandsBesideTarget` | src/components/DraggableList.tsx:79-92 | the dragged item ends at the insert index, the others keep their order, and the target item sits right after it (`above`) or right before it (`below`) |
| `DraggableList.DropFirstBelowThird` | src/components/DraggableList.tsx:76-92 | `[A,B,C,D]`, drag 0, drop below 2 gives `[B,C,A,D]` |
| `DraggableList.DropLastAboveFirst` | src/components/DraggableList.tsx:76-92 | `[A,B,C,D]`, drag 3, drop above 0 gives `[D,A,B,C]` |
| `DraggableList.DropMiddleAboveLast` | src/components/DraggableList.tsx:76-92 | `[A,B,C]`, drag 1, drop above 2 leaves the list unchanged |
| `DraggableList.DropBesideOwnSlot` | src/components/DraggableList.tsx:71-92 | dropping on the near side of a neighbour commits the unchanged list; dropping on itself commits nothing |
| `DraggableList.FlagsAt` | src/components/DraggableList.tsx:109-127 | an item is dimmed exactly when dragged, has the top highlight exactly when it is the target and the position is `above`, the bottom one exactly when `below`, never both |
| `DraggableList.HighlightIsUnique` | src/components/DraggableList.tsx:109-127 | in a consistent state the dragged item is never highlighted and at most one item is |
| `DraggableList.StepKeepsConsistent` | src/components/DraggableList.tsx:14-104 | every handler keeps "a target exists only during a drag and is not the dragged item", a drag start provided it comes while idle |
| `DraggableList.RestartBreaksConsistent` | src/components/DraggableList.tsx:14-15 | a drag start during a drag can make the old target the dragged item |
| `DraggableList.RunKeepsConsistent` | src/components/DraggableList.tsx:14-104 | any series of events whose drag starts come while idle keeps that invariant |
| `DraggableList.RunEndingGestureIsIdle` | src/components/DraggableList.tsx:97-104 | any series of events ending with a drop or a drag end leaves both indices cleared |
| `DraggableList.RunWithoutHoverKeepsPosition` | src/components/DraggableList.tsx:12-104 | only over/enter change the drop position, so it carries over between gestures |
| `DraggableList.IdleOnlyLeftByStart` | src/components/DraggableList.tsx:28-104 | from the idle state every event but a drag start leaves the state as it is |
| `DraggableList.DraggableList.constructor` | src/components/DraggableList.tsx:10-12 | the three state fields start as no drag, no target, `below` |
| `DraggableList.DraggableList.HandleDragStart` | src/components/DraggableList.tsx:14-26 | sets the dragged index, nothing else |
| `DraggableList.DraggableList.HandleDragOver` | src/components/DraggableList.tsx:28-41 | the new state is `Hover` of the old |
| `DraggableList.DraggableList.HandleDragEnter` | src/components/DraggableList.tsx:43-54 | the new state is `Hover` of the old |
| `DraggableList.DraggableList.HandleDragLeave` | src/components/DraggableList.tsx:56-66 | the new state is `Leave` of the old |
| `DraggableList.DraggableList.HandleDrop` | src/components/DraggableList.tsx:68-99 | removing, adjusting the insert index and reinserting hands `onReorder` exactly `DropOutcome`; both indices are cleared, the position kept |
| `DraggableList.DraggableList.HandleDragEnd` | src/components/DraggableList.tsx:101-104 | both indices cleared, the position kept |
| `ListOps.RemoveAt` | src/components/DraggableList.tsx:76 | `splice(i, 1)`: one shorter, items before `i` in place, items after it shifted left by one |
| `ListOps.InsertAt` | src/components/DraggableList.tsx:92 | `splice(i, 0, x)`: one longer, `x` at `i`, items before in place, items after shifted right |
| `ListOps.RemoveInsert` | src/components/DraggableList.tsx:76-92 | removing what was just inserted at the same index gives back the list |
| `ListOps.RemoveAtMultiset` | src/components/DraggableList.tsx:76 | removal takes exactly the removed element out of the multiset |
| `ListOps.InsertAtMultiset` | src/components/DraggableList.tsx:92 | insertion adds exactly the inserted element to the multiset |
| `ListOps.RemoveAtKeepsNoDuplicates` | src/components/ExperienceDialog.tsx:29-34 | removing a position keeps a duplicate-free list duplicate-free |
| `ListOps.FilterOutFromRemoves` | src/pages/PortfolioEditor.tsx:82 | filtering from a given offset removes exactly the one matching position, or nothing when none matches |
| `ListOps.FilterOut` | src/pages/PortfolioEditor.tsx:82 | `filter((_, i) => i !== index)` removes exactly position `index`, keeping the order of the rest; an index outside the list changes nothing |
| `ListOps.MapReplaceFromUpdates` | src/pages/PortfolioEditor.tsx:74 | mapping from a given offset replaces exactly the one matching position, or nothing when none matches |
| `ListOps.MapReplace` | src/pages/PortfolioEditor.tsx:74 | `map((x, i) => i === index ? v : x)` replaces exactly position `index`; an index outside the list changes nothing |
| `PortfolioEditor.InitialPortfolio` | src/pages/PortfolioEditor.tsx:15-19 | the page starts with empty strings and empty lists |
| `PortfolioEditor.DefaultExperience` | src/pages/PortfolioEditor.tsx:160-166 | a new experience has empty fields, no skills and no link |
| `PortfolioEditor.DefaultEducation` | src/pages/PortfolioEditor.tsx:168-173 | a new education has empty fields and exactly one empty description line |
| `PortfolioEditor.WithPersonalField` | src/pages/PortfolioEditor.tsx:62-67 | the named personal-info field takes the value and the other fields are unchanged |
| `PortfolioEditor.SaveAt` | src/pages/PortfolioEditor.tsx:69-76 | with an edit index only that position is replaced (length and every other entry kept, an index outside the list changes nothing); without one the item is appended last after the unchanged entries |
| `PortfolioEditor.SaveUnchangedIsNoOp` | src/pages/PortfolioEditor.tsx:69-76 | saving an edited entry unchanged leaves the list as it was |
| `PortfolioEditor.DeleteUndoesAdd` | src/pages/PortfolioEditor.tsx:73-84 | deleting the entry just added restores the list |
| `PortfolioEditor.DialogItem` | src/pages/PortfolioEditor.tsx:271-288 | a dialog is given the edited entry, the blank item when adding, or nothing (`undefined`) for an index past the end |
| `PortfolioEditor.PortfolioEditor.constructor` | src/pages/PortfolioEditor.tsx:15-32 | starts with the initial portfolio and both dialogs closed |
| `PortfolioEditor.PortfolioEditor.HandlePersonalInfoChange` | src/pages/PortfolioEditor.tsx:62-67 | only the named personal-info field changes; both lists and the dialogs are untouched |
| `PortfolioEditor.PortfolioEditor.HandleSaveExperience` | src/pages/PortfolioEditor.tsx:69-77 | experiences become `SaveAt` of the old list under the dialog's edit index; personal info and education untouched |
| `PortfolioEditor.PortfolioEditor.HandleDeleteExperience` | src/pages/PortfolioEditor.tsx:79-84 | experiences lose exactly position `index` (none if outside); the other sections untouched |
| `PortfolioEditor.PortfolioEditor.HandleReorderExperiences` | src/pages/PortfolioEditor.tsx:86-91 | experiences are replaced wholesale; the other sections untouched |
| `PortfolioEditor.PortfolioEditor.HandleSaveEducation` | src/pages/PortfolioEditor.tsx:93-101 | education becomes `SaveAt` of the old list under the dialog's edit index; the other sections untouched |
| `PortfolioEditor.PortfolioEditor.HandleDeleteEducation` | src/pages/PortfolioEditor.tsx:103-108 | education loses exactly position `index` (none if outside); the other sections untouched |
| `PortfolioEditor.PortfolioEditor.HandleReorderEducation` | src/pages/PortfolioEditor.tsx:110-115 | education is replaced wholesale; the other sections untouched |
| `PortfolioEditor.PortfolioEditor.OpenExperienceDialog` | src/pages/PortfolioEditor.tsx:220-234 | the experience dialog opens, with the card's index when editing and none when adding |
| `PortfolioEditor.PortfolioEditor.CloseExperienceDialog` | src/pages/PortfolioEditor.tsx:279 | the experience dialog closes and forgets its edit index |
| `PortfolioEditor.PortfolioEditor.OpenEducationDialog` | src/pages/PortfolioEditor.tsx:247-261 | the education dialog opens, with the card's index when editing and none when adding |
| `PortfolioEditor.PortfolioEditor.CloseEducationDialog` | src/pages/PortfolioEditor.tsx:291 | the education dialog closes and forgets its edit index |
| `ExperienceDialog.WithTextField` | src/components/ExperienceDialog.tsx:59-86 | editing title, company, date or description sets only that field; skills and link unchanged |
| `ExperienceDialog.UrlFromInput` | src/components/ExperienceDialog.tsx:98 | an empty input stores no link, any other input stores itself |
| `ExperienceDialog.UrlInputValue` | src/components/ExperienceDialog.tsx:97 | the link input shows the link, or the empty string when there is none |
| `ExperienceDialog.UrlInputRoundTrip` | src/components/ExperienceDialog.tsx:97-98 | the link input shows back exactly what was typed |
| `ExperienceDialog.UrlStoreRoundTrip` | src/components/ExperienceDialog.tsx:97-98 | storing what the input shows keeps any link other than the empty string |
| `ExperienceDialog.ApplySkillEdit` | src/components/ExperienceDialog.tsx:19-34 | an add appends exactly when the skill is non-empty and not yet listed, else changes nothing; a remove filters out its position; neither introduces a duplicate |
| `ExperienceDialog.SkillEditsKeepNoDuplicates` | src/components/ExperienceDialog.tsx:19-34 | from a duplicate-free list, any series of adds and removes stays duplicate-free |
| `ExperienceDialog.ExperienceDialog.constructor` | src/components/ExperienceDialog.tsx:12-13 | the dialog starts editing the given experience with an empty pending skill |
| `ExperienceDialog.ExperienceDialog.SyncFromProp` | src/components/ExperienceDialog.tsx:15-17 | a new `experience` prop resets the edited item to it |
| `ExperienceDialog.ExperienceDialog.EditNewSkill` | src/components/ExperienceDialog.tsx:126 | the skill input sets the pending skill only |
| `ExperienceDialog.ExperienceDialog.AddSkill` | src/components/ExperienceDialog.tsx:19-27 | appends the pending skill and clears it exactly when it is non-empty and new; otherwise neither the item nor the pending skill changes; keeps the skills duplicate-free |
| `ExperienceDialog.ExperienceDialog.RemoveSkill` | src/components/ExperienceDialog.tsx:29-34 | removes exactly that skill position (none if outside), keeping the others' order and duplicate-freedom |
| `ExperienceDialog.ExperienceDialog.EditText` | src/components/ExperienceDialog.tsx:59-86 | the edited item becomes `WithTextField` of the old one |
| `ExperienceDialog.ExperienceDialog.EditReadMoreUrl` | src/components/ExperienceDialog.tsx:98 | stores no link for an empty input and the input otherwise, so the input shows back what was typed |
| `ExperienceDialog.ExperienceDialog.Save` | src/components/ExperienceDialog.tsx:148-151 | `onSave` receives the edited item as it stands |
| `EducationDialog.WithTextField` | src/components/EducationDialog.tsx:62-81 | editing degree, institution or date sets only that field; the description lines unchanged |
| `EducationDialog.WithDescriptionAdded` | src/components/EducationDialog.tsx:18-23 | one empty line is appended after the unchanged lines; the text fields unchanged |
| `EducationDialog.WithDescriptionUpdated` | src/components/EducationDialog.tsx:25-30 | only line `index` changes, the number of lines is kept; an index outside the list changes nothing |
| `EducationDialog.WithDescriptionRemoved` | src/components/EducationDialog.tsx:32-37 | exactly line `index` is removed, the others keep their order; an index outside the list changes nothing |
| `EducationDialog.RemoveUndoesAdd` | src/components/EducationDialog.tsx:18-37 | removing the line just added gives back the item |
| `EducationDialog.UpdateLastWins` | src/components/EducationDialog.tsx:25-30 | of two updates of the same line the later one wins |
| `EducationDialog.EducationDialog.constructor` | src/components/EducationDialog.tsx:12 | the dialog starts editing the given education |
| `EducationDialog.EducationDialog.SyncFromProp` | src/components/EducationDialog.tsx:14-16 | a new `education` prop resets the edited item to it |
| `EducationDialog.EducationDialog.AddDescription` | src/components/EducationDialog.tsx:18-23 | the edited item becomes `WithDescriptionAdded` of the old one |
| `EducationDialog.EducationDialog.UpdateDescription` | src/components/EducationDialog.tsx:25-30 | the edited item becomes `WithDescriptionUpdated` of the old one |
| `EducationDialog.EducationDialog.RemoveDescription` | src/components/EducationDialog.tsx:32-37 | the edited item becomes `WithDescriptionRemoved` of the old one |
| `EducationDialog.EducationDialog.EditText` | src/components/EducationDialog.tsx:62-81 | the edited item becomes `WithTextField` of the old one |
| `EducationDialog.EducationDialog.Save` | src/components/EducationDialog.tsx:126-129 | `onSave` receives the edited item as it stands |

## Left out

- Loading and saving the portfolio over the network (`loadPortfolioData`, `savePortfolio`, `fetchFromR2`, `uploadToR2`) and the page's loading/error flags: network I/O, not list logic. The endpoint constants go with them.
- `alert` and `console` output.
- The drag image (cloning the node, styling it, removing it after a timeout), the `dataTransfer` effect and data settings, and `preventDefault`: cosmetic and browser-specific. They change no state that the list uses.
- Floating-point rounding: coordinates are exact reals. The midpoint test and the leave test are the source's comparisons on them.
- React's batching of state updates and the handlers' capture of state from the last render: each handler is one atomic, sequential update of the fields.
- Rendering: the JSX, class-name strings, the cards, the personal-info section (its only state is an editing toggle), the app shell, the `renderItem`/drag-handle plumbing, and the dialogs' `isOpen` early return.
- Closing a dialog after save is the page's `CloseExperienceDialog`/`CloseEducationDialog`. The dialogs' `Save` only yields the item.
- DraggableList.DraggableList.HandleDrop: requires the dragged and drop indices to be positions of `items` when a reorder happens. The list only produces indices of items it rendered, and an index past the end would make JavaScript insert `undefined`, which a `seq<T>` cannot hold.
