# 3D device viewer: a Dafny model

This project models the logic of the Angular `DeviceViewerComponent` and its
add/edit dialog `DeviceFormDialog`. Both live in
`src/app/components/device-viewer/device-viewer.component.ts`. The model
covers four things:

- **The layout-slot table.** Each device is placed at a fixed slot chosen by
  its index in the device list. There are three slots, at x = -3, 0 and 3.
  The model also covers the camera pose a row click aims at.
- **The device-to-node registry.** This is the `models` list and the device
  nodes of the scene:
  - every completed load of one of the first three devices in the list adds
    one node, whether the load succeeded or fell back to the green cube;
  - a row click finds the first node tagged with the device's id;
  - a confirmed delete takes that node out of the scene and out of `models`.
- **The loader as an environment.** Each emission of the device stream issues
  one load per device. The loads complete in whatever order the environment
  picks.
- **The dialog's form.** This covers its initial data in add and edit mode,
  `isValid`, and the id-stripping `onSave`.

Files:

- `wrappers.dfy`: the `Option` type.
- `layout.dfy`: vectors, the slot table and the focus pose, all pure.
- `devices.dfy`: the `Device` record.
- `registry.dfy`: pure sequence operations over nodes. These are find-first by
  tag and filter by object identity, with their lemmas.
- `device_viewer.dfy`: the component as the class `Viewer.DeviceViewer`. Its
  fields are `devices`, `models`, `scene`, the loads in flight, the next
  object identity and the camera transitions started so far.
- `device_form.dfy`: the dialog as pure functions.
- `scenarios.dfy`: client scenarios that use only the contracts.
  - Three devices load out of order (one by the fallback), then one is
    selected and one is deleted.
  - A repeated emission of the device stream leaves duplicate nodes behind.

Modelling choices:

- **Object identity.** A node carries a `uid` that stands for its object
  identity. This matters because `models.filter(m => m !== model)` compares
  objects, not fields, and after a re-emission two nodes can agree on every
  field.
- **Indices with no slot.** `Slot(index)` is `None` for index 3 and beyond,
  where `positions[index]` is `undefined`. In the code, `position.copy` then
  throws inside the callback before `scene.add` and `models.push`. So such a
  load completes and adds nothing.
- **Delete, after the store call.** `DeleteDevice` is modelled from the point
  where the store's delete has settled. It takes two inputs: the user's
  answer to `confirm()` and whether the store acknowledged the delete.

Three behaviours of the code that the model keeps:

- The default form values have an empty name, so `isValid` is false on a
  fresh add form.
- A stream emission that completes adds min(|devices|, 3) nodes, not
  |devices|.
- `deleteDevice` removes only the first node with the tag, so after a
  re-emission the device stays visible. A load that lands after the delete
  still adds a node for the deleted device.

## Model

| member | source | states |
|---|---|---|
| Layout.Slot | src/app/components/device-viewer/device-viewer.component.ts:109-113 | index 0, 1, 2 give (-3,0,0), (0,0,0), (3,0,0); there is a slot exactly when the index is below 3; every slot has y = z = 0 |
| Layout.SlotsAreTable | src/app/components/device-viewer/device-viewer.component.ts:109-113 | the coordinate test `IsSlot`, which the viewer's invariant uses, holds exactly for the entries of the table |
| Layout.SlotsDistinct | src/app/components/device-viewer/device-viewer.component.ts:109-113 | the three slots are pairwise distinct |
| Layout.SlotsSymmetric | src/app/components/device-viewer/device-viewer.component.ts:109-113 | slot i mirrors slot 2 - i about the origin, and the middle slot is the origin |
| Layout.FocusPose | src/app/components/device-viewer/device-viewer.component.ts:160-165 | the camera target is the node position shifted by (0, +1, +3), and the look-at point is the node position |
| Layout.FocusPoseInjective | src/app/components/device-viewer/device-viewer.component.ts:160-165 | two nodes give the same pose exactly when they stand at the same position; the camera never stands at the point it looks at |
| Layout.FocusOnSlot | src/app/components/device-viewer/device-viewer.component.ts:109-165 | focusing on slot i puts the camera at (3i-3, 1, 3), looking at (3i-3, 0, 0) |
| Registry.Tags | src/app/components/device-viewer/device-viewer.component.ts:119-135 | the tag list has one entry per node, equal to that node's `userData.deviceId` |
| Registry.TagsCons | src/app/components/device-viewer/device-viewer.component.ts:119-135 | the tags of a non-empty list are the head's tag followed by the tags of the tail |
| Registry.FindFirst | src/app/components/device-viewer/device-viewer.component.ts:154 | a result is a node carrying the tag and no earlier node carries it; there is no result exactly when no node carries the tag |
| Registry.NoEarlierTag | src/app/components/device-viewer/device-viewer.component.ts:154 | when the head lacks the tag and the first k nodes of the tail lack it, the first k + 1 nodes of the list lack it |
| Registry.Without | src/app/components/device-viewer/device-viewer.component.ts:225 | the filter never makes the list longer, and a node is in the result exactly when it is in the list and is not the filtered-out object |
| Registry.WithoutAbsent | src/app/components/device-viewer/device-viewer.component.ts:225 | filtering out an object held by no node leaves the list unchanged |
| Registry.DistinctTail | src/app/components/device-viewer/device-viewer.component.ts:225 | in a list of distinct objects, the tail is distinct and no later node is the head's object |
| Registry.WithoutOne | src/app/components/device-viewer/device-viewer.component.ts:222-225 | when objects are distinct, filtering out node i's object gives the list without node i, with the other nodes in their order |
| Registry.HeadAndTail | src/app/components/device-viewer/device-viewer.component.ts:225 | cutting node i past the head out of a list is the head followed by the tail with its node i - 1 cut out |
| Registry.RemovingOneTag | src/app/components/device-viewer/device-viewer.component.ts:219-227 | removing node i takes exactly one copy of its tag out of the multiset of tags |
| Registry.RemovingOneIndex | src/app/components/device-viewer/device-viewer.component.ts:225 | after removing node i, the nodes before i keep their index and the later nodes move down by one |
| Registry.RemovingOneNode | src/app/components/device-viewer/device-viewer.component.ts:224-225 | removing node i from the list takes exactly one copy of it out of the multiset of nodes |
| Registry.RemovingKeepsDistinct | src/app/components/device-viewer/device-viewer.component.ts:225 | removing a node keeps the remaining nodes distinct objects |
| Registry.RemovingKeepsPlacement | src/app/components/device-viewer/device-viewer.component.ts:225 | removing a node keeps every remaining node at a slot and created earlier |
| Viewer.Requests | src/app/components/device-viewer/device-viewer.component.ts:115-117 | `forEach` issues one load per device, in list order, capturing the device and its index |
| Viewer.Placed | src/app/components/device-viewer/device-viewer.component.ts:118-135 | a completion adds a node exactly when the index has a slot; the node is tagged with the device id and stands at that slot; it is a loaded scene on success and the fallback cube on failure |
| Viewer.OutcomeOnlyDecidesKind | src/app/components/device-viewer/device-viewer.component.ts:118-135 | the success callback and the error callback add the same node, except for its kind |
| Viewer.Landing | src/app/components/device-viewer/device-viewer.component.ts:118-135 | the number of pending loads whose index has a slot, so that their completion adds a node, is at most the number of pending loads |
| Viewer.LandingAppend | src/app/components/device-viewer/device-viewer.component.ts:115-138 | the count of node-adding loads is additive over concatenation |
| Viewer.LandingRemove | src/app/components/device-viewer/device-viewer.component.ts:118-135 | taking one load out lowers the count by one exactly when that load has a slot |
| Viewer.LandingRequests | src/app/components/device-viewer/device-viewer.component.ts:109-138 | of the loads for a device list, min(\|devices\|, 3) will add a node |
| Viewer.ClickTargets | src/app/components/device-viewer/device-viewer.component.ts:153-158 | a row click starts at most one transition: none when no node has the tag, otherwise one toward the first node with it |
| Viewer.ConsistentRemove | src/app/components/device-viewer/device-viewer.component.ts:224-225 | taking node i out of both the scene and the registry keeps them equal, distinct and at slots |
| Viewer.ConsistentAdd | src/app/components/device-viewer/device-viewer.component.ts:118-135 | adding a fresh node at a slot to both the scene and the registry keeps them equal, distinct and at slots |
| Viewer.DeviceViewer.constructor | src/app/components/device-viewer/device-viewer.component.ts:38-45 | the viewer starts with no devices, no nodes, no loads and no transitions |
| Viewer.DeviceViewer.OnDevices | src/app/components/device-viewer/device-viewer.component.ts:100-105 | an emission stores the list and appends one load per device; it removes no node; the loads still to add a node grow by min(\|devices\|, 3) |
| Viewer.DeviceViewer.LoadModels | src/app/components/device-viewer/device-viewer.component.ts:107-138 | the loop appends the loads for the stored list, in order, to those in flight |
| Viewer.DeviceViewer.Complete | src/app/components/device-viewer/device-viewer.component.ts:116-137 | completing load k, picked by the environment, removes it from the in-flight list; the scene and `models` both gain the placed node when there is one; the node count plus the loads still to add a node is preserved |
| Viewer.DeviceViewer.OnRowClick | src/app/components/device-viewer/device-viewer.component.ts:153-158 | a row click appends the click targets to the started transitions and moves no node |
| Viewer.DeviceViewer.FocusOnModel | src/app/components/device-viewer/device-viewer.component.ts:160-166 | one more transition toward the node's focus pose is started; earlier ones are not cancelled |
| Viewer.DeviceViewer.DeleteDevice | src/app/components/device-viewer/device-viewer.component.ts:219-228 | if confirmed, acknowledged and a node has the tag, exactly the first such node leaves `models` and the scene, the others keep their order, the length drops by one and one copy of the tag goes; otherwise both are unchanged |
| Viewer.DeviceViewer.RemoveNode | src/app/components/device-viewer/device-viewer.component.ts:224-225 | `scene.remove` plus the identity filter remove exactly node i from both collections, keeping the invariant |
| Viewer.DeviceViewer.AddNode | src/app/components/device-viewer/device-viewer.component.ts:122-123 | `scene.add` plus `models.push` append a fresh node at a slot to both collections, advance the next identity and keep the invariant |
| DeviceForm.InitialForm | src/app/components/device-viewer/device-viewer.component.ts:284-298 | in edit mode with a device, the form is a field-wise copy of the device, id included; otherwise it holds the defaults |
| DeviceForm.IsValid | src/app/components/device-viewer/device-viewer.component.ts:300-302 | the form is valid exactly when name, type, status and model path are all non-empty |
| DeviceForm.OnSave | src/app/components/device-viewer/device-viewer.component.ts:304-309 | save emits a record exactly when the form is valid; the record keeps every field but the id |
| DeviceForm.DefaultsNeedName | src/app/components/device-viewer/device-viewer.component.ts:284-309 | the defaults are not valid and cannot be saved; with a name typed in, they are valid exactly when that name is non-empty |
| DeviceForm.EditWithoutDeviceUsesDefaults | src/app/components/device-viewer/device-viewer.component.ts:291-298 | edit mode without a device starts from the defaults |
| DeviceForm.UntouchedEditRoundTrip | src/app/components/device-viewer/device-viewer.component.ts:295-309 | saving an untouched edit form succeeds exactly when every field of the device is non-empty, and adding the id back gives the device |
| Scenarios.EmitThree | src/app/components/device-viewer/device-viewer.component.ts:100-117 | a first emission of three devices leaves three loads in flight, at indices 0, 1, 2, and no node |
| Scenarios.LoadThree | src/app/components/device-viewer/device-viewer.component.ts:118-135 | completing the loads in the order c, a (fallback), b leaves the nodes at x = 3, -3 and 0 in that order |
| Scenarios.CompleteRest | src/app/components/device-viewer/device-viewer.component.ts:118-135 | the fallback for a and the success for b append their nodes after c's |
| Scenarios.WalkthroughRegistry | src/app/components/device-viewer/device-viewer.component.ts:153-227 | in that registry, a is found second, b third, and removing a's tag leaves b and c |
| Scenarios.ClickOnFound | src/app/components/device-viewer/device-viewer.component.ts:153-158 | a click on a tag found at index i aims at node i |
| Scenarios.SelectMiddle | src/app/components/device-viewer/device-viewer.component.ts:153-166 | selecting the device whose node is at the middle slot aims at the origin and moves no node |
| Scenarios.SelectAfterLoad | src/app/components/device-viewer/device-viewer.component.ts:109-166 | after the out-of-order loads, selecting b puts the camera at (0, 1, 3), looking at the origin |
| Scenarios.DeleteFirstLoaded | src/app/components/device-viewer/device-viewer.component.ts:219-227 | a confirmed, acknowledged delete of a leaves the tags of b and c |
| Scenarios.DeleteAfterLoad | src/app/components/device-viewer/device-viewer.component.ts:109-227 | after the out-of-order loads, deleting a leaves the nodes of b and c |
| Scenarios.LoadTwice | src/app/components/device-viewer/device-viewer.component.ts:100-138 | two emissions of the same one-device list, each load completed, leave two nodes with the same tag |
| Scenarios.RepeatedEmission | src/app/components/device-viewer/device-viewer.component.ts:100-227 | after a re-emission, a delete removes only one of the two nodes; a load landing after the delete adds a node for the deleted device again |

## Left out

- Three.js scene and renderer setup, background, lights, resize handling and the `requestAnimationFrame` render loop are left out. They are foreign library calls and frame scheduling. The scene is modelled only as the multiset of device nodes it holds.
- `ngOnDestroy` is left out. It cancels the render loop and disposes the renderer, but load callbacks that arrive later still mutate state.
- The GLTFLoader's I/O is not modelled. Each load is a pending request, and the environment delivers success or failure in any order. `console.error` is only a log line.
- The model path a load fetches is left out. Only the outcome it leads to is modelled.
- The camera animation is left out: `animateCameraTo`, `easeInOutCubic`, `lerpVectors` and `Date.now()`. It is floating point and driven by a clock. The model records only the target pose of each started transition. The start pose is not modelled. Overlapping transitions are all kept, since none is cancelled.
- `openAddDialog`, `openEditDialog` and `onCancel` are left out: the Material dialog, the table and `afterClosed().toPromise()`. They are UI plumbing that forwards the dialog result to the store.
- `confirm()` is a boolean input of `DeleteDevice`.
- The store (`DeviceService` over Firestore) is not modelled. The device list is an input of `OnDevices`, and a settled delete is a boolean input of `DeleteDevice`. `src/app/services/device.service.ts` and `src/app/app.component.ts` are not part of this model.
- Re-entrancy is not modelled. In the code, another emission or click can run during the `await` in `deleteDevice`. The model treats the continuation after the await as one step.
- Form fields are modelled as strings. The code's `any` fields could also be `undefined`, which is falsy like the empty string. Type and status are free strings, not the select menus' fixed options.
- DeviceForm.OnSave: closing the dialog is modelled as the returned value. When the form is invalid, the dialog stays open and the result is `None`.
