# A model of Villain's desktop

Villain is a Wayland compositor. This project models the state machine behind its desktop and the
integer geometry that the state machine drives, and proves what both promise. It verifies with

    dafny verify dfyconfig.toml

The parts, bottom up:

- **ParentGraph, Stacking, Layering, Raising, RaisingTwice**: the client-controlled transient-parent links, which may be cyclic,
  dangling or point to other workspaces; the bounded walks over them; the drawing order as a lexicographic
  forest order; raising a window with its family, once and again.
- **Tiling, Settling, Appearance, Geometry, Popup**: floor-divided weighted splits, renormalization once and repeated, divider
  drags, gaps and borders, size hints and resizing, and the `xdg_positioner` solver of the xdg-shell protocol
  (`set_constraint_adjustment`), in 64-bit arithmetic.
- **Visibility, Focus, Ring, Cycling, Navigation**: what is visible, where keyboard focus may lie, focus cycling over
  orders that may repeat a window, and the growing and shrinking list of workspaces.
- **Desk, Operations, Transfers, RuleFocus, DeskDrags, Conservation, Session, Desktop**: the desktop state, every operation
  on it, their invariant over all runs, that no run loses a window, and a class that performs the operations in place
  and is proved equal to them.
- **Sifting, Effects, Families, Outcomes, Placements**: what the operations bring about: where every window is afterwards, in
  which order, and who has the focus.
- **Scenario, Reached, Uneven**: runs from an empty session that reach the exceptional states.
- **Motion, Switching, Gestures**: eased tracks, the swipe stream, and the one timer both share.
- **Drag, MasterDrag, Pointing, Dragging**: dragging floating windows, tiles, the master split and stack dividers; where the
  pointer takes them; cancelling as undo.
- **Keyboard, Dispatching**: the key filter, its traces, what keys do, and the registry of global shortcuts.

Mutable parts of the source are classes (`Desktop`, `Compositor`, `Pointer`, `KeyFilter`, `Registry`) or loops
whose contracts equate the new state with a specification function; the promises are then lemmas about those
functions. A window and its id are the same thing. Integers are unbounded; the bounds of i32, i64 and u64 are
stated where the source relies on them (`Popup` runs on a 64-bit type, `Tiling.HeightProductFits` and
`Session.RunHeightsFit` bound the height products). `f64` is `real`. The desktop state carries a census, the windows
that are open and the most there ever were, which no operation reads; it is there to state what runs conserve.

Results that differ from what one would expect, each stated exactly:

- `Session.RunKeepsFocus`, `RuleFocus.RulesKeepFocus`: focus stays on a visible window over every run, except
  after one case of applying window rules. The exact case is `RuleFocus.LosesFocus`; `Reached.StrandingReached` is a
  session that comes to it.
- `RaisingTwice.SecondRaiseIdle`: raising twice keeps the picture, but renumbers windows exactly when the raised family
  holds a floating window that hangs below one of its tiles and was drawn below the target with its stay-on-top flag.
- `Cycling.NextVisitsEachOnce`, `Cycling.StepsInvert`: in recency order a window can be listed twice, because a child
  that follows its parent to another workspace leaves its id behind. Next then meets every window once exactly when the
  walk order is a ring (`Ring.Cyclic`), and Previous undoes Next exactly when it also ends like one
  (`Ring.Reversible`). `Reached.RecencySticks` is a session after which Previous does not undo Next,
  `Reached.NextSkips` one after which Next never reaches one of three windows.
- `Effects.FloatingToggledEffect`: toggling a floating window over an expanded one to a tile gives up its focus.
- `Popup.PopupInsideX`: a popup with slide and resize can still miss its target horizontally when both flips
  succeed, because the vertical flip starts from the unflipped positioner and rewrites x.
- `Drag.SwapIsOwnInverse`: swapping two tiles twice restores everything exactly when the stack weights are at a fixed
  point of renormalization; `Uneven.UnevenReached` is a session that leaves other weights, by closing a window after
  a divider drag, and `Uneven.SwapSticks` swaps two of its tiles in vain.
- `MasterDrag.EveryCancelUndoes`: cancelling a drag restores everything exactly when the stack weights were at a fixed
  point of renormalization, the master override was legal, or the floating rectangle already met its constraints. A
  master drag from other weights restores them exactly when it never changed the effective ratio. The session of
  `Uneven` is one where cancelling restores neither (`Uneven.MasterCancelSticks`, `Uneven.DividerCancelSticks`), and
  where moving the master split away and back is not as if it had only been moved back (`Uneven.MasterReturnSticks`).
- `Keyboard.PressActivatesIff`: README.md:174-175 of the source says a global shortcut is activated when the key is
  pressed. The code leaves the key suppressed after the release (src/keybinds.rs:621-632), so a bound press activates
  exactly when the previous press of the key did not, and a key that is always bound activates on every second press
  only (`Keyboard.SecondPressSwallowed`). The model follows the code.
- `Keyboard.FreeTriggerActivates`: a trigger registered without a conflict can still never activate: it may be a session
  chord with a further modifier, which the reserved list misses (`Keyboard.ChordShadowsTrigger`), or another binding may
  answer the same key under another name or another of its keysyms.
- `Keyboard.FocusLossStrandsKey`: losing focus forgets suppressed keys but not live shortcuts, so a key pressed
  afterwards can reach the client without its release. `Keyboard.ReleaseFollowsPress` gives the exact condition.

## Model

| member | source | states |
|---|---|---|
| ParentGraph.LongWalkRepeats | src/workspaces.rs:298-314 | A parent walk longer than the number of windows visits some window twice. |
| ParentGraph.ShortestReach | src/workspaces.rs:298-314 | Whatever is reachable at all is reachable within as many steps as there are windows, so bounded climbs miss nothing. |
| ParentGraph.DescendantOf | src/workspaces.rs:298-314 | The bounded loop decides exactly whether one window is an ancestor of another, for any parent links, cyclic ones included. |
| ParentGraph.HiddenByParent | src/workspaces.rs:316-320 | Exactly the windows with a minimized ancestor are hidden. |
| ParentGraph.ClimbToTop | src/workspaces.rs:1352-1371 | The climb ends at a window without a parent in the workspace, or on a cycle that contains it. |
| ParentGraph.Family | src/workspaces.rs:1352-1371 | The collected ids are the connected component of the focused window in the parent graph. |
| ParentGraph.FamilyIsComponent | src/workspaces.rs:1352-1371 | The descendants of a climb's end are the least set containing the focused window that no parent link leaves or enters. |
| Stacking.StackingPath | src/workspaces.rs:277-292 | The loop computes the path of keys from the outermost floating ancestor down to the window. |
| Stacking.PathUnfold | src/workspaces.rs:277-292 | With acyclic parents a path is the floating parent's path plus one key: the length bound never cuts it. |
| Stacking.PathPrefix | src/workspaces.rs:277-292 | Every prefix of a path is the path of the ancestor it ends with. |
| Stacking.SubtreeIsPathPrefix | src/workspaces.rs:277-292 | A window hangs below another through floating windows exactly when its path extends the other's. |
| Stacking.PrefixInterval | src/workspaces.rs:731-747 | The paths sharing a prefix form an interval of the lexicographic order. |
| Stacking.LessTotal | src/workspaces.rs:731-747 | The order on paths is total and asymmetric. |
| Stacking.FloatingOrder | src/workspaces.rs:731-747 | Two floating windows are drawn in the order of their paths. |
| Stacking.LayoutNoDup | src/workspaces.rs:731-747 | The drawing order lists every window once. |
| Stacking.FloatingForest | src/workspaces.rs:731-747 | A floating parent is drawn before its floating children, and a floating subtree is one contiguous block. |
| Layering.LayersStack | src/workspaces.rs:731-747 | Tiles are drawn below expanded windows, and both below the other floating windows. |
| Layering.TilesFirst | src/workspaces.rs:731-747 | The drawing order begins with the tiles as they are laid out. |
| Layering.SiblingsOrder | src/workspaces.rs:277-292 | Of two floating siblings the one that stays on top is drawn above, else the one ranked higher, else the younger one. |
| Raising.FamilyRises | src/workspaces.rs:2060-2128 | After a raise the whole family is drawn above every other family whose root has the same stay-on-top flag. |
| Raising.SubtreeRises | src/workspaces.rs:2060-2128 | After a raise the window's subtree is drawn above the subtrees of siblings with the same flag. |
| Raising.OutsidersKeepOrder | src/workspaces.rs:2091-2128 | Windows outside the family keep their relative drawing order, tiles included. |
| Raising.RaiseSettles | src/workspaces.rs:2060-2128 | A second raise leaves the drawing order as it is, and a third changes nothing at all. |
| RaisingTwice.SecondRaiseIdle | src/workspaces.rs:2060-2128 | A second raise changes nothing exactly when no floating window of the family that hangs below a tile of it, with the flag of the target's root, was drawn below the target before the first. |
| RaisingTwice.FloatingSubtreeKeepsOrder | src/workspaces.rs:2060-2128 | An all-floating subtree keeps its order when raised. |
| RaisingTwice.SecondRaiseExample | src/workspaces.rs:2060-2128 | A four-window workspace on which a second raise renumbers. |
| Tiling.WeightedHeights | src/workspaces/drag_layout.rs:4-18 | Each height is the difference of two cuts, each the floor of an exact share. |
| Tiling.CutsSpan | src/workspaces/drag_layout.rs:4-18 | The cuts run monotonically from zero to the whole height, so heights are non-negative and sum up exactly. |
| Tiling.HeightNearShare | src/workspaces/drag_layout.rs:4-18 | Every height is within one pixel of its exact share. |
| Tiling.MasterWidth | src/workspaces.rs:97-99 | The master part of a width never exceeds it. |
| Tiling.MasterShare | src/workspaces.rs:97-99 | The master part is the ratio's share of the width, rounded down, kept between a tenth and nine tenths. |
| Tiling.MasterStackLayout | src/workspaces.rs:65-95 | The even layout has one slot per window, the master on the left and the stack right of it in rows of even height. |
| Tiling.BaseSlots | src/workspaces.rs:624-714 | The base slots partition the area: inside it, pairwise disjoint, covering every pixel. |
| Tiling.SlotsTile | src/workspaces.rs:624-714 | The partition, for any count, weights and ratio. |
| Tiling.SlotPlaces | src/workspaces.rs:624-714 | The master is on the left over the whole height; the others lie right of it, each below the one before, down to the end, at heights within one pixel of their weights' shares. |
| Tiling.PlainSum | src/workspaces/drag_layout.rs:22-24 | The loop sums the weights. |
| Tiling.NormalizedBounds | src/workspaces/drag_layout.rs:21-34 | Renormalized weights stay positive and bounded, keep their order, and sum to strictly within one unit per window of the target. |
| Tiling.NormalizedFixed | src/workspaces/drag_layout.rs:21-34 | Renormalization changes nothing exactly when the sum is on target, or below it with every correction under one unit. |
| Tiling.NormalizedCapped | src/workspaces/drag_layout.rs:21-34 | No renormalized weight exceeds the target sum. |
| Settling.IteratedReturns | src/workspaces/drag_layout.rs:21-34 | Renormalizing any number of times comes back to the weights it began with exactly when they were at a fixed point. |
| Tiling.HeightProductFits | src/workspaces/drag_layout.rs:12-13 | Right after renormalization the product in the height split fits 64 bits for any 32-bit height and up to 400000 stack windows. |
| Tiling.CappedProductFits | src/workspaces/drag_layout.rs:12-13 | The same from any bound on the weights. |
| Tiling.DragKeepsSum | src/window_grab.rs:641-652 | A divider drag keeps the sum of the weights and keeps them positive. |
| Tiling.DividerMovesOneCut | src/window_grab.rs:630-652 | It moves no cut but the pair's own, so all other heights and the pair's combined height stay; on target, renormalization leaves the result alone. |
| Tiling.DividerLandsNearRequest | src/window_grab.rs:639-652 | The upper slot ends at most two pixels below and one above the requested height while the area is no higher than the total weight. |
| Appearance.FitPair | src/appearance.rs:52-63 | Two edges shrink to leave at least one pixel, each by no more than itself. |
| Appearance.FitShare | src/appearance.rs:52-63 | The proportional split of the shrunk edges stays within both edges. |
| Appearance.FitPairShares | src/appearance.rs:52-63 | Edges that do not fit share the room in proportion, the first rounded down. |
| Appearance.Inset | src/appearance.rs:43-51 | An inset rectangle stays inside and positive, and takes exactly the edges that fit. |
| Appearance.ClientStaysInSlot | src/appearance.rs:64-80 | After gaps, borders and titlebar a client is inside its slot and at least one pixel in size. |
| Appearance.ClientFillsSlot | src/appearance.rs:65-80 | Where there is room a client is its slot less inner gaps, for tiles, and border on every side; a titlebar takes 34 pixels off the top, or all but one. |
| Appearance.ConstrainFloating | src/appearance.rs:81-103 | A floating rectangle is pushed into its bounds and left alone when it fits. |
| Appearance.ConstrainFloatingSettles | src/appearance.rs:81-103 | Pushing it again changes nothing. |
| Appearance.ConstrainFloatingMovesLeast | src/appearance.rs:81-103 | No rectangle within the bounds less the border has a nearer size, nor, of that size, a nearer place. |
| Geometry.ConstrainSettles | src/workspaces.rs:156-171 | Constraining yields a positive rectangle within the output and is idempotent, even with contradictory hints. |
| Geometry.ConstrainMovesLeast | src/workspaces.rs:156-171 | No legal size is nearer to the one asked for; the place is kept where it fits, else the nearest one on the output is taken. |
| Geometry.AxisResizeFits | src/window_grab.rs:732-765 | One axis of a resize keeps the far edge and fits the constraints. |
| Geometry.AxisResizeNearest | src/window_grab.rs:732-765 | No fitting size is nearer to the requested one. |
| Geometry.ResizeKeepsConstraints | src/window_grab.rs:724-792 | Resizing a constrained rectangle keeps the opposite edges and needs no further constraining, for every delta. |
| Geometry.ResizeNearest | src/window_grab.rs:724-792 | No constrained rectangle with the same far edges is nearer to the size asked for, on either axis. |
| Popup.SafePopupGeometry | src/handlers.rs:59-269 | The staged 64-bit solver never overflows on wire inputs and bounded targets and equals the per-axis reference. Without a target, or where the popup fits, its edges or middles opposite to the gravity lie on the anchored edges or middles of the anchor rectangle plus the offset. |
| Popup.FlipsAreIndependent | src/handlers.rs:142-221 | A flip on one axis leaves the other axis of the unconstrained placement alone. |
| Popup.FlipMirrors | src/handlers.rs:142-180 | A horizontal flip asks for the mirror image about the anchor rectangle, moved by the same offset. |
| Popup.FlipMirrorsY | src/handlers.rs:181-219 | A vertical flip asks for the mirror image above or below, moved by the same offset. |
| Popup.FittingAxisKept | src/handlers.rs:134-268 | On an axis on which it fits a popup stays where its positioner asks for. |
| Popup.FlipsWhereItHelps | src/handlers.rs:142-219 | A popup that sticks out takes the mirrored place if it may and fits there, unless, horizontally, a vertical flip follows. |
| Popup.SlideNearest | src/handlers.rs:220-241 | Sliding goes no further than needed; a popup too long for its target lies with its low edge on the target's. |
| Popup.ResizeCuts | src/handlers.rs:244-267 | Resizing keeps exactly the part over the target, and all of a popup that has none. |
| Popup.SettleFits | src/handlers.rs:222-268 | Slide and resize together fit any non-empty target; slide alone keeps the size and fits what can fit; a popup that fits is left alone. |
| Popup.PopupInsideY | src/handlers.rs:183-268 | With slide and resize the popup is vertically inside its target. |
| Popup.PopupInsideX | src/handlers.rs:142-268 | Horizontally it is inside exactly unless both flips succeed and the unflipped popup lies wholly past one side. |
| Popup.BothFlipsLoseX | src/handlers.rs:183-221 | A popup that would fit its target and ends up outside it. |
| Visibility.SomethingVisible | src/workspaces.rs:715-720 | Some window is visible whenever one is neither minimized nor behind a minimized ancestor. |
| Visibility.IsVisible | src/workspaces.rs:2004-2015 | The loop-based test decides visibility under the fullscreen or maximized owner. |
| Visibility.TiledEntries | src/workspaces.rs:375-383 | The tiles of a workspace, in order. |
| Layering.TilesSift | src/workspaces.rs:375-383 | The tiles are exactly the shown windows that do not float, in layout order. |
| Visibility.StackWeights | src/workspaces/drag_layout.rs:89-100 | The ids and weights of the tiles behind the master. |
| Visibility.NormalizeStack | src/workspaces/drag_layout.rs:21-34 | The in-place loop computes the normal form of the stack's weights and touches nothing else. |
| Visibility.ReweighedStack | src/workspaces/drag_layout.rs:102-110 | After assigning weights the stack has the same windows with those weights. |
| Focus.FindLastVisible | src/workspaces.rs:2017-2034 | The visible window behind which the recency list names no visible one; with none listed, the last visible one in layout order; none exactly when nothing is visible. |
| Focus.FocusedSound | src/workspaces.rs:2130-2162 | Focusing a visible window leaves focus sound. |
| Focus.RestoredSound | src/workspaces.rs:2168-2182 | After restoring, hence after every relayout, focus is on a visible window, and absent exactly when everything is minimized or behind a minimized ancestor. |
| Focus.RelaidSettles | src/workspaces.rs:1478-1511 | A relayout changes weights, ranks and recency only. A focus that is visible stays; a free one goes to the visible window that the recency list before it names last, else to the last visible one; only a new focus is remembered. |
| Cycling.FocusCycleCandidates | src/workspaces.rs:1700-1708 | The candidates are the windows neither minimized nor hidden, in layout order. |
| Cycling.FocusCycleSequence | src/workspaces.rs:1713-1731 | The walk order: layout order, or recency first and then the rest. |
| Cycling.WalkOrderIs | src/workspaces.rs:1700-1731 | Layout order lists the shown windows as they are laid out; recency order lists those remembered from the newest on, then the others as they are laid out. |
| Cycling.FocusRaises | src/workspaces.rs:2130-2162 | Focusing a visible window raises it, remembers it if asked to, and changes nothing else. |
| Cycling.StepBegins | src/workspaces.rs:1736-1754 | Without a focused candidate either step focuses the head of the walk order. |
| Cycling.SequenceOnce | src/workspaces.rs:1713-1731 | The walk order holds the candidates and nothing else, each once exactly when layout order is walked or no candidate is repeated in recency. |
| Cycling.StepLands | src/workspaces.rs:1847-1860 | A step focuses its target, clearing an overlay if needed, and keeps the walk order. |
| Ring.MeetsOnceIff | src/workspaces.rs:1736-1754 | Walking a list with repeats by first occurrence meets everything once and returns exactly when the list is cyclic. |
| Ring.UndoesIff | src/workspaces.rs:1736-1754 | Either step undoes the other from everywhere exactly when the list moreover ends as its first round ends. |
| Cycling.NextVisitsEachOnce | src/workspaces.rs:1678-1754 | A full round of Next focuses every candidate exactly once and returns exactly when the walk order is cyclic, in both orders. |
| Cycling.StepsInvert | src/workspaces.rs:1736-1754 | Each step undoes the other from every candidate exactly when the walk order is reversible. |
| Cycling.DistinctOrderReversible | src/workspaces.rs:1713-1754 | Layout order always is, recency order whenever no candidate is repeated. |
| Navigation.Target | src/workspace_navigation.rs:20-49 | The nearest admissible slot in the direction, else the next slot or one past the end, or none behind. |
| Navigation.TrimKeepsUsed | src/workspace_navigation.rs:94-132 | Trimming drops only empty, inactive, unreferenced workspaces and changes none that it keeps. |
| Navigation.TrimLeavesOneSlot | src/workspace_navigation.rs:94-132 | Exactly one slot is kept past everything used or predefined, below the cap, and it is empty. |
| Navigation.TrimSettles | src/workspace_navigation.rs:94-132 | Trimming again changes nothing. |
| Navigation.TrimAbsorbs | src/workspace_navigation.rs:94-132 | Trimming before and after references are given up does what trimming afterwards does. |
| Desk.MovedInv | src/workspaces.rs:1372-1416 | Moving windows between workspaces keeps the invariant of the whole desktop. |
| Desk.TrimInv | src/workspace_navigation.rs:94-132 | Trimming keeps it too, with the last workspace in range. |
| Outcomes.TailsTrimmed | src/workspaces.rs:1423-1446 | Closing a window, moving a family and switching leave exactly one slot past everything used. |
| Outcomes.AddedSpares | src/workspaces.rs:1117-1158 | Opening a window leaves exactly one slot past everything used. |
| Desk.RelayInv | src/workspaces.rs:1478-1511 | A relayout keeps it and makes focus sound. |
| Outcomes.RelayNormalizes | src/workspaces.rs:1478-1511 | A relayout brings the stack to the normal form of its weights, in its order. |
| Desk.FocusInInv | src/workspaces.rs:2130-2162 | Focusing a window keeps the invariant, and sound focus. |
| Operations.MinimizedInv | src/workspaces.rs:1564-1620 | Minimizing and restoring keep the minimized stack equal to the minimized windows, without repeats, and focus sound. |
| Effects.MinimizedEffect | src/workspaces.rs:1564-1604 | Minimizing marks the window, pushes it on its workspace's minimized stack and takes its focus; no other window is marked and no other workspace changes. |
| Effects.UnminimizedEffect | src/workspaces.rs:1862-1881 | Restoring unmarks the window and takes it off the stack, and only that. |
| Effects.RestoreUndoesMinimize | src/workspaces.rs:1564-1620 | Restoring the last minimized window undoes minimizing: marks, stack and owners are as before. |
| Outcomes.MinimizedRefocuses | src/workspaces.rs:1564-1604 | Minimizing or restoring a window of the active workspace leaves a visible focus alone and otherwise gives it to the visible window focused most recently. |
| Operations.SetExpandedInv | src/workspaces.rs:792-901 | Fullscreen and maximize owners stay windows of their own workspace, and focus stays sound. |
| Effects.SetExpandedEffect | src/workspaces.rs:792-901 | Exactly the asked owner is set or cleared, the other stays; a shown window made fullscreen covers its workspace and is visible. |
| Outcomes.SetExpandedRefocuses | src/workspaces.rs:792-901 | Expanding a window of the active workspace or undoing it treats the focus the same way; asking for the state a window has changes nothing. |
| Operations.ToggleTwice | src/workspaces/drag_layout.rs:53-76 | Toggling a window's mode twice restores its rectangle exactly when it was already constrained. |
| Operations.FloatingToggledInv | src/workspaces/drag_layout.rs:36-79 | Toggling keeps the invariant and sound focus. |
| Effects.FloatingToggledEffect | src/workspaces/drag_layout.rs:36-79 | Toggling flips the mode of the focused window and of no other; it keeps the focus, last in recency, exactly unless it floated over an expanded window. |
| Placements.FloatingToggledEntry | src/workspaces/drag_layout.rs:36-79 | A floating window becomes a tile that remembers its rectangle; a tile floats where it last floated, else at two thirds of the usable area with a sixth left on each side, within its limits. |
| Operations.RefreshedInv | src/workspaces.rs:483-613 | Refreshing client hints, which may carry a child to its parent's workspace, keeps the invariant and sound focus. |
| Effects.RefreshedEffect | src/workspaces.rs:483-613 | A refreshed window ends up on its parent's workspace, or stays, with the parent link it asked for and floating exactly as its override, its parent and its hints say, where it floated before, else where its client starts it, within its limits; every other window stays where it was. |
| Placements.ParentAtIs | src/workspaces.rs:493-507 | The parent's workspace is the one that holds the window the client names, if that is another managed one. |
| Placements.RefreshedCarries | src/workspaces.rs:526-546 | A window that follows its parent takes what it owns and its place on the minimized stack along. |
| Effects.RefreshedKeepsHistories | src/workspaces.rs:526-613 | Recency lists stay with their workspaces, so the id of a window that moved stays behind; only a focus that the relayout gives anew is remembered. |
| Operations.RulesAppliedInv | src/workspaces.rs:1160-1271 | Applying window rules keeps the invariant. |
| Placements.RulesAppliedEffect | src/workspaces.rs:1160-1271 | Rules take a window to the workspace they name, unless that is too close to the cap, and a parent on to its own; the entry then carries the rules' overrides, stay-on-top flag and centring and heeds the hints. Rules apply once and move no other window. |
| Placements.PlacedTravels | src/workspaces.rs:1215-1257 | A window placed by a rule takes its recency, its place on the minimized stack and what it owns along, behind what is there. |
| Placements.RulesEscort | src/workspaces.rs:1236-1246 | Override-redirect windows follow a window that its rules place elsewhere. |
| Transfers.AddedInv | src/workspaces.rs:1117-1158 | Opening a window on its process's workspace keeps the invariant and sound focus. |
| Effects.AddedEffect | src/workspaces.rs:1117-1158 | The new window is on its parent's or its launcher's workspace and all others are where they were. Elsewhere than on the active workspace it is last in recency; there, if it asks for focus, it has it, last in recency, exactly when it is visible. |
| Placements.AddedEntry | src/workspaces.rs:1117-1158 | The new window is not minimized and is linked and floating as its client's hints say. |
| Effects.AddedFocus | src/workspaces.rs:1125-1158 | In all other cases a focus that stays visible stays, and with the new window on the active workspace the focus is sound. |
| Transfers.ClosedInv | src/workspaces.rs:2575-2606 | Closing a window keeps the invariant and makes focus sound. |
| Outcomes.ClosedEffect | src/workspaces.rs:2575-2606 | A closed window is gone with its recency, its place on the minimized stack and what it owned; every other window is where it was, in order, and a free focus goes to the visible window focused most recently. |
| Transfers.ComponentUnique | src/workspaces.rs:1352-1371 | The transient component of a window is unique, so any loop that collects a component collects this one. |
| Transfers.ComponentTravelsWhole | src/workspaces.rs:1352-1416 | Of the source workspace exactly the component arrives at the target, so no parent link is cut. |
| Transfers.TransferConserves | src/workspaces.rs:1372-1416 | A transfer loses and duplicates no entry; the source keeps exactly the others in order, and those that move come in order behind the windows already there. |
| Transfers.FamilyMovedInv | src/workspaces.rs:1338-1421 | Moving the focused family keeps the invariant and sound focus. |
| Families.FamilyMovedHomes | src/workspaces.rs:1338-1421 | Every window of the focused window's transient component, and no other, is on the target afterwards; all others are where they were. |
| Families.FamilyMovedContents | src/workspaces.rs:1372-1421 | The component takes its entries, recency, place on the minimized stack and owners along, in order, and override-redirect windows follow; motion and swipes end; of what stays, the visible window focused most recently gets the focus. |
| Families.FamilyStays | src/workspaces.rs:1338-1351 | Nothing moves without a managed focus, to the same workspace, or past the cap. |
| Transfers.SwitchedInv | src/workspaces.rs:1423-1476 | Switching activates the workspace with sound focus, or changes nothing past the cap. |
| Outcomes.SwitchedEffect | src/workspaces.rs:1423-1476 | Switching leaves every window where it is; the workspace entered focuses its visible window focused most recently, the one left remembers its focus and is the last workspace while it exists. |
| Outcomes.SwitchedHere | src/workspaces.rs:1448-1476 | Switching to the active workspace moves nothing and makes no other one the last. |
| Transfers.WindowFocusedInv | src/workspaces.rs:1623-1671 | Focusing a window anywhere keeps the invariant and sound focus. |
| Effects.WindowFocusedEffect | src/workspaces.rs:1623-1671 | A window that is neither minimized nor hidden gets the focus, visible on its own workspace, which becomes active, and last in recency there. |
| Transfers.FocusCycledInv | src/workspaces.rs:1678-1696 | Cycling keeps the invariant and sound focus. |
| RuleFocus.UnfloatedFocus | src/workspaces.rs:1186-1192 | Taking a window's floating rectangle away unsettles focus exactly when that window had focus above an expanded one. |
| RuleFocus.RulesKeepFocus | src/workspaces.rs:1160-1271 | From sound focus, applying rules leaves focus sound exactly unless the focused window loses its rectangle above an expanded one and nothing lays the workspace out afterwards. |
| DeskDrags.WishGrantedInv | src/window_grab.rs:552-655 | What a pointer motion asks for keeps the invariant and sound focus, divider drags with any weights included. |
| DeskDrags.RatioSetInv | src/workspaces.rs:435-443 | Setting the master ratio keeps the invariant and sound focus. |
| DeskDrags.TilesSwappedInv | src/workspaces/drag_layout.rs:112-132 | Swapping tiles keeps the invariant and sound focus. |
| DeskDrags.MotionIsWish | src/window_grab.rs:552-655 | A motion of a drag in context is such a step. |
| DeskDrags.CancelIsWish | src/window_grab.rs:661-699 | Cancelling a drag on its workspace is such a step, with recorded weights up to 10000 for each of the most windows ever open. |
| DeskDrags.DropIsSwap | src/window_grab.rs:661-699 | Dropping a tile on another is a swap. |
| Session.StackCancelIsStep | src/window_grab.rs:661-699 | Along a run recorded weights never exceed that: a divider drag begun earlier in it is cancelled by one more step. |
| Session.AppliedKeeps | src/workspaces.rs:2036-2054 | Every operation, drags included, keeps the invariant, and sound focus exactly when it does not strand it. |
| Session.RunKeepsStructure | src/workspaces.rs:1215-1257 | Over every run: ids unique across workspaces, minimized stacks exact and without repeats, owners on their own workspace, every reference in range. |
| Session.RunKeepsWindows | src/workspaces.rs:1338-1421 | Over every run, drags, moves and trims included, the workspaces hold exactly the windows that were opened and not closed. |
| Session.RunWeightsBounded | src/workspaces/drag_layout.rs:21-34 | Over every run, while never more than p windows are open at once, every weight is between 1 and 10000 p. |
| Session.RunHeightsFit | src/workspaces/drag_layout.rs:4-18 | Over every run, divider drags included, the height products fit 64 bits while never more than 655 windows are open at once, and beyond that while the stack's size times the most open at once stays below 429496. |
| Session.RunKeepsFocus | src/workspaces.rs:1478-1511 | Over every run focus is sound until the first operation that strands it, and that one leaves it unsound. |
| Reached.RecencyReached | src/workspaces.rs:526-546 | Eight operations from an empty session leave a recency list that names a window twice. |
| Reached.RecencySticks | src/workspaces.rs:1736-1754 | After them Previous does not undo Next. |
| Reached.NextSkips | src/workspaces.rs:1678-1754 | One operation more, and Next goes back and forth between two of three candidates however often it is pressed. |
| Reached.StrandingReached | src/workspaces.rs:1186-1204 | Three operations lead to a state with sound focus that applying rules then strands. |
| Uneven.UnevenReached | src/workspaces/drag_layout.rs:21-34 | A session of six windows, a divider drag and one close leaves the stack weights 14488, 8503, 8503, 8503, no fixed point of renormalization. |
| Uneven.SwapSticks | src/workspaces/drag_layout.rs:112-132 | From there swapping two tiles there and back changes the scene. |
| Uneven.MasterCancelSticks | src/window_grab.rs:661-699 | From there cancelling a master drag that moved changes it. |
| Uneven.MasterReturnSticks | src/window_grab.rs:616-629 | From there moving the master split away and back to the middle does not leave what moving it to the middle alone leaves. |
| Uneven.DividerCancelSticks | src/window_grab.rs:661-699 | From there cancelling a divider drag that never moved changes it. |
| Desktop.Desktop.TrimDynamicWorkspaces | src/workspace_navigation.rs:94-132 | In place, the trimmed list and last workspace of the specification. |
| Desktop.Desktop.EnsureWorkspaceExists | src/workspace_navigation.rs:71-90 | Grows the list with empty workspaces, or fails past the cap. |
| Desktop.Desktop.NormalizeStackWeights | src/workspaces/drag_layout.rs:21-34 | The active stack in normal form. |
| Desktop.Desktop.RaiseFloatingWindow | src/workspaces.rs:2060-2128 | Climb, stable sort by family and subtree, and renumbering give the specified raise. |
| Desktop.Desktop.ApplyManagedFocus | src/workspaces.rs:2130-2162 | Focus is taken exactly when the window is visible, with recency and stacking updated. |
| Desktop.Desktop.RestoreActiveFocus | src/workspaces.rs:2168-2182 | Valid focus stays, otherwise the window found as `Focus.FindLastVisible` states gets it, or none. |
| Desktop.Desktop.RelayoutActiveWorkspace | src/workspaces.rs:1478-1511 | In place, the relayout whose effect `Focus.RelaidSettles` and `Outcomes.RelayNormalizes` state; focus is sound afterwards. |
| Desktop.Desktop.CycleFocus | src/workspaces.rs:1678-1696 | The specified step through the walk order. |
| Desktop.Desktop.RevealAndFocus | src/workspaces.rs:1847-1860 | Clears the overlay over a covered target, then focuses it. |
| Desktop.Desktop.MinimizeWindow | src/workspaces.rs:1564-1604 | In place, the minimization whose effect `Effects.MinimizedEffect` states. |
| Desktop.Desktop.RestoreWindow | src/workspaces.rs:1862-1881 | In place, the restoration whose effect `Effects.UnminimizedEffect` states. |
| Desktop.Desktop.RestoreLastMinimizedWindow | src/workspaces.rs:1606-1620 | Popping until a minimized window turns up restores the top of the stack. |
| Desktop.Desktop.SetWindowExpanded | src/workspaces.rs:792-901 | In place, the change whose effect `Effects.SetExpandedEffect` states. |
| Desktop.Desktop.ToggleFloatingFocused | src/workspaces/drag_layout.rs:36-79 | Succeeds exactly when a visible, unexpanded window is focused; then the mode change of `Effects.FloatingToggledEffect`, else nothing. |
| Desktop.Desktop.RemoveManagedWindow | src/workspaces.rs:2575-2606 | In place, the closing whose effect `Outcomes.ClosedEffect` states. |
| Desktop.Desktop.RefreshWindowHints | src/workspaces.rs:483-613 | In place, the refresh whose effect `Effects.RefreshedEffect` and `Effects.RefreshedKeepsHistories` state. |
| Desktop.Desktop.ApplyWindowRulesOnOpen | src/workspaces.rs:1160-1271 | In place, the rules whose effect `Placements.RulesAppliedEffect` states. |
| Desktop.Desktop.AddWorkspaceWindow | src/workspaces.rs:1125-1158 | In place, the opening whose effect `Effects.AddedEffect` states. |
| Desktop.Desktop.MoveFocusedToWorkspace | src/workspaces.rs:1338-1421 | In place, the move whose effect `Families.FamilyMovedHomes` and `Families.FamilyMovedContents` state. |
| Desktop.Desktop.SwitchWorkspaceImmediate | src/workspaces.rs:1448-1476 | In place, the entry of a workspace that `Outcomes.SwitchedEffect` describes, without motion. |
| Desktop.Desktop.SwitchWorkspace | src/workspaces.rs:1432-1446 | In place, the switch whose effect `Outcomes.SwitchedEffect` states, with its motion. |
| Desktop.Desktop.FocusWindow | src/workspaces.rs:1623-1671 | In place, the focusing whose effect `Effects.WindowFocusedEffect` states. |
| Motion.RetargetKeepsPosition | src/motion.rs:43-51 | Retargeting is continuous in position, and only a new goal starts the easing over. |
| Motion.EasesOut | src/motion.rs:27-41 | Until the time is up, the share of the way left is the cube of the share of time left. |
| Motion.TweenApproaches | src/motion.rs:27-41 | A tween never turns back or overshoots. |
| Motion.StartSane | src/workspace_motion.rs:36-79 | A start keeps one track per workspace; the workspaces are the old ones with source and target. |
| Motion.StartKeepsPositions | src/workspace_motion.rs:36-79 | A start changes no shown position at that instant; the source appears at rest, the target next to it. |
| Motion.StartMovesZero | src/workspace_motion.rs:36-79 | The goals at zero are the earlier ones without the source, plus the target. |
| Motion.ScenesStayAdjacent | src/workspace_motion.rs:69-78 | A newly shown target stays one width from the departing source throughout. |
| Motion.StartSlides | src/workspace_motion.rs:36-79 | Going on, a target that was not in motion comes in one width to the right of the source, which leaves to the left; going back, the other way round. |
| Motion.AdvanceEmpties | src/workspace_motion.rs:80-92 | Advancing drops exactly the finished tracks of inactive workspaces, and all tracks exactly when all have finished, in particular 160 ms after the last start. |
| Switching.AnimatedIsStarted | src/workspace_motion.rs:36-79 | The desktop's list of workspaces in motion is that of the tracks, in order. |
| Gestures.RecognizerPromises | src/gestures.rs:42-68 | The offset stays within the width, the axis is decided once, and a release commits exactly from a sixteenth of the width of finger travel. |
| Gestures.StrokeDecides | src/gestures.rs:42-60 | An undecided stroke adds up its travel; it becomes horizontal exactly when one coordinate reaches 8 and the horizontal one exceeds the vertical by a quarter, and is rejected exactly the other way round. |
| Gestures.StrokeReveals | src/gestures.rs:232-281 | Such a first horizontal stroke shows the neighbour it pulls in, the next one for a stroke to the left, if there is one; any other shows nothing. |
| Gestures.PhaseShape | src/gestures.rs:119-331 | An unbroken client trace is a run of begin, updates, end, with at most one unfinished swipe. |
| Gestures.FewTracks | src/workspace_motion.rs:152-152 | Tracks never outnumber workspaces. |
| Gestures.Compositor.TrimTail | src/workspace_navigation.rs:94-132 | Trims the tail around tracks and preview, keeping every reference in range. |
| Gestures.Compositor.RetireMotionTimer | src/workspace_motion.rs:126-132 | Drops the timer exactly when nothing is in timed motion. |
| Gestures.Compositor.StopSwipeVisual | src/gestures.rs:119-126 | Removes the preview, and trims the tail exactly if there was one. |
| Gestures.Compositor.CancelWorkspaceMotion | src/workspace_motion.rs:110-118 | Removes all tracks and trims the tail they held, with the timer right for what remains. |
| Gestures.Compositor.FinishWorkspaceMotion | src/workspace_motion.rs:119-125 | Ends all timed motion, the timer and any preview beside it, and trims once; without timed motion changes nothing. |
| Gestures.Compositor.ScheduleMotionTick | src/workspace_motion.rs:158-198 | Afterwards the timer exists exactly while something moves, also when registration fails. |
| Gestures.Compositor.StartWorkspaceMotion | src/workspace_motion.rs:133-156 | Starts the specified tracks unless blocked, never more than workspaces. |
| Gestures.Compositor.StartTracks | src/workspace_motion.rs:36-79 | The push, retarget and reinsert steps compute the specified tracks. |
| Gestures.Compositor.CancelSwipe | src/gestures.rs:128-148 | Ends a client's stream for the client and leaves a tombstone. |
| Gestures.Compositor.MaintainSwipe | src/gestures.rs:149-166 | Cancels exactly when blocked or the previewed target emptied, and drops blocked motion. |
| Gestures.Compositor.SwipeDeviceRemoved | src/gestures.rs:167-178 | Removing the owning or previewing device cancels and forgets its stream, any other changes nothing. |
| Gestures.Compositor.SwipeBegin | src/gestures.rs:179-215 | Another device's stream keeps its owner; otherwise a fresh stream is discarded, reserved or given to the client, who sees begin exactly then. |
| Gestures.Compositor.SwipeUpdate | src/gestures.rs:216-285 | Passed on for a client stream; for a reserved one silent, with the preview following: the first updates show what `Gestures.StrokeReveals` states; ignored otherwise. |
| Gestures.Compositor.MovePreview | src/gestures.rs:241-281 | The preview keeps its target while the direction stays and looks it up when it turns. |
| Gestures.Compositor.SwipeEnd | src/gestures.rs:286-331 | Activates the previewed target and nothing else, exactly on an uncancelled, unblocked release of the owner's reserved stream that commits; the preview goes on from where it is, by one width to its side or back to zero. |
| Gestures.Compositor.SwitchWorkspaceImmediate | src/workspaces.rs:1448-1476 | Cancels the swipe and activates the workspace if it can exist. |
| Gestures.Compositor.SwitchWorkspace | src/workspaces.rs:1423-1446 | The tracks started for a switch, by direction. |
| Gestures.SwitchSlides | src/workspaces.rs:1432-1446 | Unless motion is blocked, a higher workspace comes in from the right of the one left, a lower one from the left; otherwise nothing moves. |
| Gestures.Compositor.AdvanceSwipeSettle | src/gestures.rs:332-347 | A settling preview follows its tween and vanishes when finished. |
| Gestures.Compositor.Tick | src/workspace_motion.rs:174-189 | The timer survives its callback exactly while something still moves. |
| Gestures.Compositor.Handle | src/gestures.rs:119-347 | For every event, the active workspace afterwards: a switch's, a committed swipe's target, or the same; exactly committed swipes are recorded, and a reserved stream sends the client nothing. |
| Gestures.Compositor.Replay | src/gestures.rs:119-347 | Over every interleaving the timer exists exactly while something is in timed motion, every workspace referred to exists, the client's trace is whole swipes plus at most one unfinished, and the active workspace is where switches and at most one committed swipe per release lead in turn. |
| Drag.MasterFollowsPointer | src/window_grab.rs:616-629 | On every width the master divider lands on the pointer, kept between a tenth and nine tenths, up to a 20000th of the width and one pixel of rounding down. |
| Pointing.MasterMovesWithPointer | src/window_grab.rs:328-338 | From where a drag took hold of it the master divider moves with the pointer, up to the same rounding. |
| Drag.SetFloatingTwice | src/workspaces.rs:946-958 | Of two floating rectangles the last one counts. |
| Pointing.RoundedIs | src/window_grab.rs:564-564 | The pointer's way is rounded to the nearest pixel, halves away from zero. |
| Pointing.MoveFollowsPointer | src/window_grab.rs:564-593 | Without floating gaps and borders, a window that is moved is shown at its starting rectangle shifted by the pointer's way, kept on the output, with its size; under five pixels nothing moves. |
| Pointing.MoveWithRoom | src/window_grab.rs:564-593 | Wherever the shifted rectangle fits the output it is taken as it is. |
| Pointing.FloatingKeepsGaps | src/workspaces.rs:913-930 | With floating gaps a window is shown within the outer gaps, and with borders it keeps room for them. |
| Pointing.FloatingShown | src/workspaces.rs:931-944 | A window has a floating rectangle to show exactly when it floats on its workspace and is neither minimized nor expanded there. |
| Drag.WithWeightsIs | src/workspaces/drag_layout.rs:102-110 | Applying weights to the whole stack and mapping sets their normal form and keeps the split context. |
| Drag.DividerDragMovesOneCut | src/window_grab.rs:630-652 | On target a divider drag sets exactly the dragged weights, and every other cut stays. |
| Pointing.DividerFollowsPointer | src/window_grab.rs:630-652 | In a motion of a divider drag on target the upper slot gets its height at the start plus the pointer's way, with 64 pixels or half kept for either slot, to within two pixels, and no other cut moves. |
| Drag.MotionAbsorbs | src/window_grab.rs:552-655 | A motion keeps the drag in context, and a following one does what it would have done alone. |
| Pointing.DisturbanceCancels | src/window_grab.rs:556-576 | A motion cancels the drag exactly when workspace, area or output changed or what is dragged is gone; on another workspace cancelling leaves everything as it is. |
| Pointing.CommitKeeps | src/window_grab.rs:661-699 | Committing keeps what the motions left. |
| Pointing.TileDrops | src/window_grab.rs:595-615 | A tile dropped on another one after a drag of five pixels trades places with it, otherwise it stays. |
| MasterDrag.EveryLastDecides | src/window_grab.rs:552-655 | After any undisturbed motions the result is that of the last one, except that an earlier long one makes it a drag: always but for master drags, and for those exactly when no other motion renormalized weights that could still change. |
| Drag.LastRatioDecides | src/window_grab.rs:616-629 | Even from unsettled weights a master drag's ratio is the last motion's, and cancelling restores the legal override. |
| MasterDrag.MasterRun | src/window_grab.rs:616-629 | From any weights a master drag leaves its last ratio and the weights renormalized once for every change of the effective ratio. |
| MasterDrag.MasterLastDecides | src/window_grab.rs:616-629 | From any weights the result depends on the last motion alone exactly when the earlier ones changed the ratio no further time or the weights it alone would leave are at a fixed point. |
| MasterDrag.MasterCancelUndoes | src/window_grab.rs:661-699 | From any weights, cancelling a master drag restores everything exactly when the override was legal and the weights were settled or the effective ratio never changed. |
| Drag.StepKeepsOrder | src/window_grab.rs:552-655 | Motions never change which windows a workspace has, nor their order. |
| MasterDrag.EveryCancelUndoes | src/window_grab.rs:661-699 | Cancelling after any undisturbed motions, from any weights, restores the whole scene exactly when the drag was restorable and a master drag began from settled weights or never changed the effective ratio. |
| Drag.PlainFloatingRestorable | src/workspaces.rs:913-958 | Without floating gaps and borders a floating drag is restorable exactly when the rectangle met its constraints. |
| Drag.ResizeKeepsOppositeEdges | src/window_grab.rs:724-792 | Without floating gaps and borders, a resize drag keeps in the stored rectangle the edges opposite to the ones held, and the rectangle fits the hints. |
| Pointing.ResizeTakesNearest | src/window_grab.rs:577-593 | Without floating gaps and borders a resize takes, of all rectangles within the hints that keep the far edges, one whose size is nearest to the start plus the pointer's way. |
| Drag.SwapKeepsSlots | src/workspaces/drag_layout.rs:112-132 | Swapping two tiles exchanges their places; every slot keeps its weight. |
| Drag.SwapTwice | src/workspaces/drag_layout.rs:112-132 | The exchange is its own inverse. |
| Drag.SwapNormalizes | src/workspaces/drag_layout.rs:112-132 | With mapping, a swap renormalizes the stack weights. |
| Drag.SwapIsOwnInverse | src/workspaces/drag_layout.rs:112-132 | Swapping twice restores the whole scene exactly when the stack weights were settled. |
| Dragging.Pointer.SplitContextHere | src/workspaces.rs:354-388 | The split context: tiles and usable area less outer gaps, unless too small, covered or undivided. |
| Dragging.Pointer.SetFloatingGeometry | src/workspaces.rs:946-958 | In place, the constrained rectangle of a floating window. |
| Dragging.Pointer.ApplyMasterRatio | src/workspaces.rs:435-443 | Sets the clamped override and maps only if the effective ratio changed. |
| Dragging.Pointer.ApplyStackWeights | src/workspaces/drag_layout.rs:102-110 | Assigns weights by id and maps. |
| Dragging.Pointer.SwapTiles | src/workspaces/drag_layout.rs:112-132 | The specified exchange in place, then mapping. |
| Dragging.Pointer.InteractionMotion | src/window_grab.rs:552-655 | The specified motion in context, with the effects that `Pointing.MoveFollowsPointer`, `Pointing.ResizeTakesNearest`, `Pointing.DividerFollowsPointer` and `Drag.MasterFollowsPointer` state, cancelling out of context. |
| Dragging.Pointer.FinishWindowInteraction | src/window_grab.rs:661-699 | The specified commit or cancel. |
| Dragging.Pointer.BeginWindowDrag | src/window_grab.rs:294-344 | Starts exactly for a visible, unexpanded window that floats, is to be moved, or has a split to resize; takes hold of the shown rectangle by the given or nearest edges, of the tile, or of the master divider where it is. |
| Dragging.NearestHeld | src/window_grab.rs:62-71 | On either axis the edge held is no farther from the pointer than the other one. |
| Dragging.Pointer.BeginStackDrag | src/split_grab.rs:26-52 | Starts with the two slots' heights cut from the current weights. |
| Dragging.Pointer.Drag | src/window_grab.rs:552-699 | A whole undisturbed drag: committed it leaves its last motion's result, cancelled it restores exactly when restorable. |
| Keyboard.FindBinding | src/keybinds.rs:308-323 | The first listed binding whose modifiers are exactly those held and whose key is among the keysyms; none exactly when no binding answers. |
| Keyboard.KeyFilter.HandleKey | src/keybinds.rs:609-815 | The filter in the source's order of cases equals the press and release rules. |
| Keyboard.FilterRemembers | src/keybinds.rs:609-815 | Over every trace, what the filter holds about a key follows from the fate of its last press. |
| Keyboard.NoLeftovers | src/keybinds.rs:621-632 | Without focus loss a key that is up has no live shortcut. |
| Keyboard.ReleaseFollowsPress | src/keybinds.rs:621-690 | A release is forwarded exactly when its press was, outside selections and drags and without a stale shortcut; a shortcut is deactivated exactly when activated or stale, with the same identity. |
| Keyboard.KeysPairUp | src/keybinds.rs:621-690 | Without focus loss the stale case disappears. |
| Keyboard.FocusLossStrandsKey | src/render.rs:217-218 | A trace with focus loss on which the client sees a press and no release. |
| Keyboard.SwallowsAfterShortcut | src/keybinds.rs:621-632 | After a release the key stays suppressed exactly when the release ended a shortcut. |
| Keyboard.PressActivatesIff | src/keybinds.rs:621-656 | A bound, unobstructed press activates its shortcut exactly when the previous press of the key, whatever it met, did not activate one; else it is swallowed. |
| Keyboard.SecondPressSwallowed | src/keybinds.rs:621-632 | A trace on which the second press of a bound key is swallowed. |
| Keyboard.EveryOtherPressActivates | src/keybinds.rs:621-656 | So a key whose presses are all bound activates on the odd presses and is swallowed on the even ones. |
| Keyboard.InhibitionLeavesChords | src/keybinds.rs:700-745 | Under an inhibitor a fresh press is intercepted exactly for a session chord. |
| Dispatching.DragKeys | src/keybinds.rs:656-692 | During a drag no key reaches the client; Escape cancels the drag, else Return commits it; while selecting, keys do nothing. |
| Dispatching.ChordsDo | src/keybinds.rs:704-731 | Ctrl and Alt with Backspace quit; with a function key or its switch keysym they switch to the terminal of its number. |
| Dispatching.ReservedIsTaken | src/keybinds.rs:133-139 | The reserved combinations are exactly those with Ctrl and Alt alone that the filter takes for itself on a terminal, the switch keysyms aside. |
| Dispatching.BindingsInOrder | src/keybinds.rs:732-778 | A fresh press dispatches the first configured binding that answers, only without one the first global one; a lone modifier waits; with no binding the client gets the key. |
| Dispatching.LoneModifierDispatches | src/keybinds.rs:634-651 | A key bound as a lone modifier dispatches on its release exactly when no other fresh press and no pointer button came in between and shortcuts are not inhibited by then. |
| Keyboard.FreeTriggerActivates | src/keybinds.rs:64-83 | A shortcut registered without a conflict activates on any key that yields its keysym exactly unless the key is a session chord or another binding answers it under another name or keysym. |
| Keyboard.ChordShadowsTrigger | src/keybinds.rs:64-83 | A trigger that can be registered and quits instead. |
| Keyboard.Registry.RegisterGlobal | src/keybinds.rs:85-118 | Exactly when it succeeds, and what it appends; failure changes nothing; triggers and identities stay unique within the limit. |
| Keyboard.Registry.ReplaceGlobal | src/keybinds.rs:120-154 | Exactly when it succeeds; the shortcut keeps its place; failure changes nothing. |
| Keyboard.Registry.UnregisterGlobal | src/keybinds.rs:156-167 | Removes exactly the named shortcut. |
| Keyboard.AtMostOneShortcut | src/keybinds.rs:308-323 | In a sound registry a matching shortcut is the one that is found. |

## Left out

- Rendering, surfaces, input devices, XWayland, D-Bus, IPC, configuration and session plumbing: foreign calls or parsing.
- Pointer hit tests, hover policy, cursor shapes and rounded corners: their outcome is an input where it matters (the tile under the pointer, the divider grabbed).
- Directional focus and moves (`focus_directional`, `move_focused_directional`): nearest-centre geometry.
- `finish_new_window_focus` for X11 and `close_focused_window`: calls into surfaces; whether a new window takes focus is an input of `Transfers.Added`.
- Parsing of key names and portal triggers: a parsed combination, or none, is the input of the registry.
- Key repeat, mouse bindings and the dispatch of actions: not part of the filter.
- Layer surfaces, grabs and exclusive focus in `apply_managed_focus`: the model takes the host as focused and every window as focusable.
- Environment of the desktop runs (process exits, override-redirect windows, motion tracks, swipe previews): steps of `Session.Op` with any contents in range.
- Rounding, infinities and NaN of `f64`: reals; a non-finite swipe delta is the absent one.
- Memory exhaustion while growing the workspace list: growth fails only past the cap.
- Session.RunKeepsStructure: says nothing of recency lists, which the code lets hold stale and repeated ids.
- Raising.FamilyRises: needs acyclic parents and no expanded window, like the other raising lemmas.
- Dragging.Pointer.InteractionMotion: the cancellation of a running interaction by a relayout belongs to callers and is not connected to `Desktop`.
- Gestures.Compositor.SwitchWorkspaceImmediate: focus, recency and layout effects of a switch are in `Desktop.Desktop.SwitchWorkspaceImmediate`.
- Gestures.Compositor.Populate: stands for whatever other operations do to a workspace's contents between swipe events.
- Keyboard.KeyFilter.HandleKey: screenshot reactions to Escape happen outside the filter.
- DeskDrags.CancelIsWish: weights above the cap are left open; `Session.StackCancelIsStep` shows that no run records them.
- Keyboard.KeysPairUp: traces where each key goes down and up in turn; keys already down when focus arrives are not modelled.
