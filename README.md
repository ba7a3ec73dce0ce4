# World widget canvas: entry manager and auto-detach handle

This project models the part of the WorldWidget plugin that keeps screen-space widgets attached to
world objects. The model covers two pieces:

- **The entry manager of `UWorldWidgetCanvas`.** It holds one `FEntry` per registered provider in an
  ordered array. Each entry owns:
  - a container widget (a `UBorder`) on the canvas panel, and that container's canvas slot;
  - a ref-counted handle to the provider's hosted widget;
  - the provider's pivot and its last measured distance to the camera.

  The public mutators are `AddUnique`, `Remove`, `Clear` and `RedrawWith`; `Contains` is the
  membership query. Every frame, `NativeTick` runs three steps in order:
  1. it positions the entries, dropping those whose provider is hidden;
  2. it optionally orders them farthest-first and gives each valid slot its index as z-order;
  3. on Slate's fast update path, it collapses every container.
- **`FAutoDestroyWidgetPtrBase`.** This is the ref-counted holder of a hosted widget. Its destructor
  callback runs on the last `Release` only.

## How the model is organised

- `widget_types.dfy` (module `WidgetTypes`) holds the engine values and the per-frame view of the
  providers:
  - the engine values are `FVector2D`, `FAnchors`, `FMargin`, `ESlateVisibility`,
    `FCanvasSlotParameters` and the layout state of a `UCanvasPanelSlot`;
  - a `World` records which providers are valid and, for each provider, whether its native
    interface pointer is set, its widget, pivot, visibility, projection result and distance.
- `auto_destroy_widget.dfy` (module `AutoDestroyWidget`) holds the handle as a class with a
  reference count. Every reference to the object accounts for one unit of the count, so the handle
  cannot be copied: it is only shared by reference. `destructorCalls` records each run of the
  callback.
- `canvas_entries.dfy` (module `CanvasEntries`) holds the `FEntry` record and the slot operations.
  It also has the value-level specifications that the canvas methods are proved against:
  - `Without` specifies `RemoveAll`;
  - `FirstOccurrences` specifies what `RedrawWith` registers;
  - `Positioned` specifies the `PositionEntries` loop;
  - `IsDistanceOrdering` and `WithZOrders` specify the ordering step;
  - `CollapseAll` specifies the fast-path hide.

  The lemmas about these specifications live in the same file. So do the detach callback as written
  and as corrected (see Findings).
- `world_widget_canvas.dfy` (module `Canvas`) holds `UWorldWidgetCanvas` as a class:
  - `entries` is the `TArray<FEntry>`;
  - `panelChildren` is the set of children that the canvas adds to and removes from the bound
    `UCanvasPanel`;
  - the author-time settings are `const` fields.

  Its invariant `Valid()` says four things:
  - no two entries share a provider, a container or a handle;
  - the panel holds exactly the entries' containers;
  - each entry's handle is referenced by that entry alone, so discarding an entry is the last
    release of its handle;
  - the ghost set `Repr` of handles the canvas may change holds live handles only. A handle
    leaves it when it is released, so no later call can touch a released handle again.

## Model

| member | source | states |
|---|---|---|
| AutoDestroyWidget.AutoDestroyWidgetPtrBase.constructor | Public/UMG/WorldWidgetCanvas.h:23-27 | The handle keeps the given widget and destructor unchanged; as `MakeRefCount` hands it out, its reference count is one and the destructor has not run. |
| AutoDestroyWidget.AutoDestroyWidgetPtrBase.AddRef | Public/UMG/WorldWidgetCanvas.h:46 | Sharing the handle through another `TRefCountPtr` adds one reference and never runs the destructor. The canvas itself never copies an entry's handle. |
| AutoDestroyWidget.AutoDestroyWidgetPtrBase.Release | Private/UMG/WorldWidgetCanvas.cpp:17-28 | The destructor runs exactly when the count was one before the release and a destructor is bound. The count drops by one and the remaining count is returned. |
| AutoDestroyWidget.DestructorRunsOnLastReleaseOnly | Private/UMG/WorldWidgetCanvas.cpp:17-28 | In any run of releases from count `c`, the destructor fires on the `c`-th release and on no other. |
| CanvasEntries.ApplyCanvasParametersTo | Private/UMG/WorldWidgetCanvas.cpp:152-158 | Auto-size is on iff the configured size is zero or per-tick updates are enabled. Alignment and anchors come from the parameters, and the size goes into the right/bottom offsets. The position, z-order and validity are kept. |
| CanvasEntries.SetCanvasSlotPositionAndParameters | Private/UMG/WorldWidgetCanvas.cpp:223-246 | An invalid slot is untouched. A valid slot gets offsets (local x, local y, size x, size y) and zero anchors. With a provider, it takes the entry's pivot as alignment and the auto-size rule that includes the per-tick flag. Without one, it takes the configured alignment and auto-size on a zero size only. |
| CanvasEntries.PositioningOverridesCreationSettings | Private/UMG/WorldWidgetCanvas.cpp:223-246 | Positioning a valid slot gives the same result whether or not the creation-time settings were applied first. |
| CanvasEntries.IndexOfProvider | Private/UMG/WorldWidgetCanvas.cpp:98-101 | Returns the index of the first entry with the provider, or none exactly when no entry has it. |
| CanvasEntries.Without | Private/UMG/WorldWidgetCanvas.cpp:80-83 | `RemoveAll`: no remaining entry has the provider, and every entry with another provider remains. |
| CanvasEntries.WithoutDropsOnlyThatEntry | Private/UMG/WorldWidgetCanvas.cpp:80-83 | With distinct providers, `RemoveAll` removes exactly the entry at the provider's index and keeps the others in their original order. |
| CanvasEntries.RemoveAt | Private/UMG/WorldWidgetCanvas.cpp:185 | Removing at an index keeps the entries before it and shifts the ones after it down by one. |
| CanvasEntries.RemoveAtKeepsKeys | Private/UMG/WorldWidgetCanvas.cpp:182-186 | After a removal, the remaining entries still have distinct keys and none shares the removed entry's provider or handle. Exactly the removed entry's container leaves the container set. |
| CanvasEntries.PermutationKeepsKeys | Private/UMG/WorldWidgetCanvas.cpp:252-255 | Reordering the entries keeps the keys distinct and the container set unchanged. |
| CanvasEntries.FirstOccurrences | Private/UMG/WorldWidgetCanvas.cpp:35-50 | The providers that `RedrawWith` registers are exactly the valid providers in the list, with no repeats, in the order of their first occurrence. |
| CanvasEntries.PositionEntry | Private/UMG/WorldWidgetCanvas.cpp:189-208 | The provider, container, handle and pivot are kept, and the distance is refreshed only with proximity ordering on. On a failed projection the container is `Collapsed` and the slot is untouched. On success it is `SelfHitTestInvisible` and the slot is positioned at the projected point, taking the pivot branch exactly when the provider's native interface pointer is set (the `if (Entry.Provider)` test). |
| CanvasEntries.SurvivorIndices | Private/UMG/WorldWidgetCanvas.cpp:178-187 | The surviving indices are increasing and in range. An index is among them iff its provider is visible. |
| CanvasEntries.PositionedKeepsVisibleInOrder | Private/UMG/WorldWidgetCanvas.cpp:174-210 | After `PositionEntries`, the survivors are exactly the entries whose provider is visible, in their original order, each updated by `PositionEntry`. |
| CanvasEntries.PositionedDropsHidden | Private/UMG/WorldWidgetCanvas.cpp:182-186 | No container of an entry with a hidden provider is among the survivors' containers. |
| CanvasEntries.InsertByDistance | Private/UMG/WorldWidgetCanvas.cpp:252-255 | Inserting into a farthest-first sequence keeps it farthest-first and adds exactly that entry. |
| CanvasEntries.SortByDistance | Private/UMG/WorldWidgetCanvas.cpp:252-255 | The result is a permutation of the entries with non-increasing distance. Nothing is claimed about the order of ties. |
| CanvasEntries.WithZOrders | Private/UMG/WorldWidgetCanvas.cpp:257-266 | Each entry with a valid slot gets its index as z-order. An entry with an invalid slot is unchanged, and nothing else changes. |
| CanvasEntries.ZOrderFollowsProximity | Private/UMG/WorldWidgetCanvas.cpp:248-268 | For entries at distances 10, 5 and 20, every admissible sort gives the order 20, 10, 5, with z-orders 0, 1, 2. |
| CanvasEntries.CollapseAll | Private/UMG/WorldWidgetCanvas.cpp:270-277 | Every entry becomes `Collapsed` and nothing else about it changes. |
| CanvasEntries.DetachAsWritten | Private/UMG/WorldWidgetCanvas.cpp:141-147 | The callback as written takes the hosted widget itself off the panel's children while the canvas is alive, and nothing else; it does nothing once the canvas is gone. |
| CanvasEntries.AsWrittenDetachOrphansContainer | Private/UMG/WorldWidgetCanvas.cpp:141-147 | With the callback as written, a removed entry's container is still on the panel, although no remaining entry owns it. |
| CanvasEntries.DetachHostedWidget | Private/UMG/WorldWidgetCanvas.cpp:141-147 | The corrected callback takes exactly the entry's container off the panel while the canvas is alive, and does nothing after it is gone. |
| CanvasEntries.DetachKeepsPanelInSync | Private/UMG/WorldWidgetCanvas.cpp:141-147 | With the corrected callback, removing an entry leaves the panel holding exactly the remaining entries' containers. |
| Canvas.AssignZOrders | Private/UMG/WorldWidgetCanvas.cpp:257-266 | The `_count` loop computes `WithZOrders` of the sorted entries. |
| Canvas.WorldWidgetCanvas.constructor | Public/UMG/WorldWidgetCanvas.h:118-121 | By default, proximity ordering is off and per-tick slot updates are on. A new canvas starts with no entries and none of its containers on the panel. |
| Canvas.WorldWidgetCanvas.Configured | Public/UMG/WorldWidgetCanvas.h:113-121 | A canvas built with given parameters and flags keeps them, and starts empty. |
| Canvas.WorldWidgetCanvas.Contains | Private/UMG/WorldWidgetCanvas.cpp:91-102 | False for an invalid provider; otherwise true iff some entry has the provider. Reads state only. |
| Canvas.WorldWidgetCanvas.ToRefCountPtr | Private/UMG/WorldWidgetCanvas.cpp:139-150 | Returns a fresh handle for the widget, with the detach callback bound and one reference. |
| Canvas.WorldWidgetCanvas.MakeNewEntry | Private/UMG/WorldWidgetCanvas.cpp:111-126 | The new entry has the provider, its widget and pivot, `bRemoving` false, a fresh handle and zero distance. Its fresh container is added to the panel, and its slot carries the creation-time settings. |
| Canvas.WorldWidgetCanvas.ReleaseEntry | Private/UMG/WorldWidgetCanvas.cpp:139-150 | Discarding an entry is the last release of its handle, so the callback runs once and its container leaves the panel. |
| Canvas.WorldWidgetCanvas.AddUnique | Private/UMG/WorldWidgetCanvas.cpp:52-66 | An invalid or present provider changes nothing. Otherwise exactly one new entry is appended, with the next container number, the old entries are kept, and its container joins the panel. Providers stay distinct, and afterwards `Contains` holds iff the provider is valid. |
| Canvas.WorldWidgetCanvas.Remove | Private/UMG/WorldWidgetCanvas.cpp:68-84 | An invalid or unregistered provider changes nothing. Otherwise the result is `RemoveAll` of the provider: its entry goes, the others keep their order, its handle's count reaches zero with the destructor run once, and its container leaves the panel. The handle leaves the live set, so it is never changed again. Afterwards `Contains` is false. |
| Canvas.WorldWidgetCanvas.DropEntryAt | Private/UMG/WorldWidgetCanvas.cpp:185 | Removing the entry at an index keeps the order of the others and releases its handle for the last time. The handle leaves the live set, and its container is off the panel afterwards. |
| Canvas.WorldWidgetCanvas.Clear | Private/UMG/WorldWidgetCanvas.cpp:86-89 | No entries are left and the panel is empty. Every old handle is released, with its destructor run exactly once, and no handle released earlier is touched. |
| Canvas.WorldWidgetCanvas.RedrawWith | Private/UMG/WorldWidgetCanvas.cpp:35-50 | An empty list changes nothing. Otherwise every old handle's count reaches zero with its destructor run once, every old container leaves the panel, the entries' providers are `FirstOccurrences` of the list, and every entry is a new entry as `MakeNewEntry` makes it: fresh handle, the provider's widget and pivot, creation-time slot, zero distance. |
| Canvas.WorldWidgetCanvas.PositionEntries | Private/UMG/WorldWidgetCanvas.cpp:174-210 | The entries become `Positioned` of the old ones, and the invariant is kept. Each entry with a hidden provider has its container off the panel and its handle's count at zero, with the destructor run once over the handle's lifetime. |
| Canvas.WorldWidgetCanvas.PositionOrDropAt | Private/UMG/WorldWidgetCanvas.cpp:178-209 | One pass of the loop. A hidden provider's entry is removed in place, its container taken off the panel and its handle released. Any other entry is replaced by `PositionEntry` of itself. |
| Canvas.WorldWidgetCanvas.OrderWidgetsByProximityToCamera | Private/UMG/WorldWidgetCanvas.cpp:248-268 | With the flag off nothing changes. With it on, the entries are a farthest-first permutation with `WithZOrders` applied, and the panel is unchanged. |
| Canvas.WorldWidgetCanvas.ProcessSlateIsOnFastUpdatePath | Private/UMG/WorldWidgetCanvas.cpp:270-277 | The entries become `CollapseAll` of the old ones. |
| Canvas.WorldWidgetCanvas.NativeTick | Private/UMG/WorldWidgetCanvas.cpp:160-172 | The tick composes positioning, then ordering, then the fast-path collapse. On the fast path every remaining entry ends `Collapsed`. Every handle of a hidden provider's entry ends at count zero with its destructor run once. |

## Left out

- The projector and all floating-point engine math are not modelled. This covers `UWorldToScreenLocationProjector`, `UpdateProjectionData`, `Project`, `GetLocalPositionFromViewportPosition`, pixel snapping with `RoundScreenPosition`, and `CalculateDistanceBetweenPlayerAnd`. For each provider and frame, the `World` supplies whether the projection succeeded, the resulting local position (already snapped) and the distance. Distances are `real`, so NaN is not modelled.
- `IWorldWidgetProvider` calls (`GetWidget`, `GetPivot`, `IsVisible`, `GetWorldLocation`) are read from the `World` oracle. Whether a provider's native interface pointer is set (it is not for a Blueprint-only implementer) is part of the same oracle. An entry whose provider object has since been destroyed is still answered by the oracle; the crash the engine would give is not modelled.
- `GSlateIsOnFastUpdatePath` is a parameter of `NativeTick`. `MyGeometry` and `InDeltaTime` are folded into the oracle's local positions.
- `NativeOnInitialized` (projector creation), `MakeContainerWidget` (brush set-up), `EntryWidgetClass` (unused by the code) and the container's `AddChild` of the hosted widget are not modelled. A container is identified by its entry's `container` number, and it hosts that entry's widget.
- `AddReferencedObjects` and `GetReferencerName` (garbage-collector integration) are left out. The weak widget pointer is always treated as resolvable.
- `Entries.Reserve` in `RedrawWith` only affects capacity, and logging and `ValidateMsfg` messages have no effect on state. Neither is modelled.
- AutoDestroyWidget.AutoDestroyWidgetPtrBase.Release: the reference count is unbounded (`nat`), so `uint32` wrap-around is not modelled.
- Canvas.WorldWidgetCanvas.OrderWidgetsByProximityToCamera: `TArray::Sort` is modelled by one specific ordering function. The contract states only that the result is a farthest-first permutation, because the engine sort is not stable. The in-place sort algorithm itself is not modelled.
- Canvas.WorldWidgetCanvas.ReleaseEntry: the model always runs the callback for a live canvas. Releases after the canvas is destroyed are covered only by the `canvasAlive` argument of the callback functions.
- The detach callback is modelled in its corrected form throughout the canvas class (see Findings). The as-written form appears only in `CanvasEntries.DetachAsWritten` and its lemma.
- Children placed on the canvas panel in the widget designer are not tracked: `panelChildren` holds only the containers the canvas itself adds, so "empty panel" means none of those.
- `bUpdateSlotSettingsOnTick` follows the code: it only enters the auto-size rule. Slot positioning happens on every successful projection whatever its value.

## Findings

| source | as written | input that shows it | evidently intended | confidence | as-written member | corrected member |
|---|---|---|---|---|---|---|
| Private/UMG/WorldWidgetCanvas.cpp:141-147 | The release callback calls `Canvas->RemoveChild(Widget)` with the hosted widget. That widget's parent is the entry's `UBorder` container (line 121), not the canvas panel, so the panel finds no such child and removes nothing. | Add one provider, then call `Remove` (or `Clear`, or `RedrawWith` with another list). The entry is gone, but its container, still holding the widget, stays on the panel and keeps being drawn at its last position. | Discarding an entry takes its container off the panel, as `PositionEntries` already does explicitly on line 184. | medium, not executed | CanvasEntries.AsWrittenDetachOrphansContainer | CanvasEntries.DetachKeepsPanelInSync |
