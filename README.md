# VP Stage API (editor implementation) — rule layer in Dafny

This project models the rule layer of `UStageAPIImpl`, the editor-side
implementation of the virtual-production stage API. The layer has five parts.

- **World selection** (`s_FindWorldContext`). The engine's world contexts are
  scanned in order. Each PIE, GamePreview or Editor context overwrites the
  slot of its type with its world; a context whose world is null also
  overwrites. The PIE slot wins, then GamePreview, then Editor.
- **API-surface initialisation** (`s_InitAPISurface`). The node list and the
  viewport-to-node map are emptied first. The actor iteration passes over
  destroyed actors, so the root becomes the last live nDisplay root actor in
  the chosen world, or stays as it was when there is none. When the root is
  valid, the node list, the viewport list and the map are rebuilt from its
  cluster configuration. The map's keys compare without regard to case, so
  viewport names that differ only in case share one entry. The
  viewport list is never emptied, so repeated initialisations accumulate
  duplicates. `GetViewportNames` returns that list as is; the model keeps it
  as the field `viewPorts`.
- **The guard macros** (`API_CHECK_*`). A guarded call re-initialises when the
  root is not valid. If it is still not valid, the call returns the type's
  default: 0, false, null, or a default `FVector4`.
- **Camera A and camera B**. Camera A is the earliest enabled ICVFX camera
  component with the largest render order. Camera B is the earliest with the
  smallest. `CameraBActive` says whether they differ.
- **Setters and getters** for:
  - inner frustums, the global screen percentage and stage exposure on the
    root's configuration;
  - FOV multiplier, exposure, render ratio and chromakey on cameras A and B;
  - the eight colour-grade fields, for the whole cluster (`ClusterPP_*`) and
    for camera A's frustum (`FrustumPP_*`).

  Every grade setter follows one rule. It always stores the new vector. When
  X, Y and Z are all zero (W is ignored), it clears the field's override flag
  and leaves the grading-enable flag alone. Otherwise it sets both flags.

## Modules

- `StageTypes` (`stage_types.dfy`): the value records, listed below.
  - `Vector4`.
  - The grading settings, with one `Grade` (value and override flag) per
    field, plus the exposure bias and its override.
  - `CameraState`, a component's settings as a value.
  - `StageState`, the root's stage settings as a value.
- `WorldSelect` (`world_select.dfy`): world selection as a specification
  function and as the source's loop.
- `ClusterTables` (`cluster_tables.dfy`): the node keys, the viewport list and
  the viewport-to-node map as functions of the cluster configuration.
- `CameraSelect` (`camera_select.dfy`): the camera A and B scans over their
  keys (`bEnable`, `RenderOrder`), with their characterisations.
- `Grading` (`grading.dfy`): the grade and exposure rules on values.
- `Stage` (`stage_api.dfy`):
  - the host objects as classes: `IcvfxCamera`, `ClusterRoot` and `World`;
  - `StageApi`, whose fields are the API's static state;
  - every operation as a method, proved against the specification functions
    above.

Guarded methods all share the postcondition `Guarded()`. It says the static
state is `GuardOutcome` of the state before the call. That state is
`InitOutcome` when the root was not valid and unchanged otherwise.

Floating-point fields are modelled as `real`. They are only stored, read back
and compared with zero.

## Model

All source paths are in `Source/VPStageAPIEditor/Private/API/`; the cells give the full path.

| member | source | states |
|---|---|---|
| WorldSelect.LastOfType | Source/VPStageAPIEditor/Private/API/StageAPIEditorImpl.cpp:110-123 | Within one type the last matching context is the one recorded; none exactly when no context has that type |
| WorldSelect.FindWorldContext | Source/VPStageAPIEditor/Private/API/StageAPIEditorImpl.cpp:100-137 | The scan with its three accumulators returns the preferred world: the PIE slot, else GamePreview, else Editor, else null |
| WorldSelect.PreferredWorldSound | Source/VPStageAPIEditor/Private/API/StageAPIEditorImpl.cpp:125-136 | A returned world comes from the last context of a PIE, GamePreview or Editor type, and every more preferred slot is null |
| WorldSelect.PieWins | Source/VPStageAPIEditor/Private/API/StageAPIEditorImpl.cpp:125-128 | The last PIE context's world, when set, is returned whatever the other contexts are |
| WorldSelect.GamePreviewFallback | Source/VPStageAPIEditor/Private/API/StageAPIEditorImpl.cpp:125-132 | When the PIE slot is empty, the last GamePreview context's world, when set, is returned |
| WorldSelect.PreferredWorldNone | Source/VPStageAPIEditor/Private/API/StageAPIEditorImpl.cpp:125-136 | The result is null exactly when the last context of each of the three types has a null world (or there is none) |
| WorldSelect.NullPieWorldHidesEarlierPie | Source/VPStageAPIEditor/Private/API/StageAPIEditorImpl.cpp:110-123 | A later PIE context with a null world overwrites an earlier PIE world, so the result can be null |
| ClusterTables.NodeKeys | Source/VPStageAPIEditor/Private/API/StageAPIEditorImpl.cpp:165-167 | The node list has one entry per node, the node's key, in iteration order |
| ClusterTables.AllViewportsMembers | Source/VPStageAPIEditor/Private/API/StageAPIEditorImpl.cpp:165-173 | The viewports appended are exactly the viewports of the nodes |
| ClusterTables.AllViewportsEmpty | Source/VPStageAPIEditor/Private/API/StageAPIEditorImpl.cpp:165-173 | Nothing is appended to the viewport list exactly when no node has a viewport |
| ClusterTables.OwnerMapOwner | Source/VPStageAPIEditor/Private/API/StageAPIEditorImpl.cpp:165-173 | A key is in the map exactly when some node has a viewport of that name up to case; it maps to the last such node |
| ClusterTables.OwnerMapKeys | Source/VPStageAPIEditor/Private/API/StageAPIEditorImpl.cpp:165-173 | The map's keys are exactly the nodes' viewport names up to case |
| ClusterTables.OwnerMapLast | Source/VPStageAPIEditor/Private/API/StageAPIEditorImpl.cpp:165-173 | A key maps to the last node that has a viewport of that name up to case |
| ClusterTables.OwnerMapUnique | Source/VPStageAPIEditor/Private/API/StageAPIEditorImpl.cpp:165-173 | With viewport names unique up to case, each viewport is found under its name and maps to its own node |
| ClusterTables.CaseVariantsShareEntry | Source/VPStageAPIEditor/Private/API/StageAPIEditorImpl.cpp:171 | Viewports `vp` of N1 and `VP` of N2 leave one entry, owned by N2 |
| CameraSelect.HighestPickSpec | Source/VPStageAPIEditor/Private/API/StageAPIEditorImpl.cpp:653-677 | Camera A is null exactly when no component is enabled; otherwise it is enabled, has the largest render order, and is the earliest such |
| CameraSelect.LowestPickSpec | Source/VPStageAPIEditor/Private/API/StageAPIEditorImpl.cpp:679-703 | Camera B is null exactly when no component is enabled; otherwise it is the earliest enabled component with the smallest render order |
| CameraSelect.HighestPickIff | Source/VPStageAPIEditor/Private/API/StageAPIEditorImpl.cpp:663-676 | The scan returns an index exactly when that index is the earliest maximum (ties go to the earliest because the comparison is strict) |
| CameraSelect.LowestPickIff | Source/VPStageAPIEditor/Private/API/StageAPIEditorImpl.cpp:689-702 | The scan returns an index exactly when that index is the earliest minimum |
| CameraSelect.PicksCoincide | Source/VPStageAPIEditor/Private/API/StageAPIEditorImpl.cpp:367-370 | Cameras A and B are the same pick exactly when all enabled components share one render order (including none or one enabled) |
| CameraSelect.ApplyFrustumExposure | Source/VPStageAPIEditor/Private/API/StageAPIEditorImpl.cpp:244-258 | Sets both grading-enable flags, the exposure override and the bias; nothing else changes |
| CameraSelect.SetExposureB | Source/VPStageAPIEditor/Private/API/StageAPIEditorImpl.cpp:433-437 | Writing camera B's exposure leaves every component's selection keys unchanged |
| CameraSelect.ExposureBAsWrittenMissesB | Source/VPStageAPIEditor/Private/API/StageAPIEditorImpl.cpp:411-415 | As written, the B exposure getter does not read back what the B setter stored (a concrete two-camera case) |
| CameraSelect.ExposureBRoundTrip | Source/VPStageAPIEditor/Private/API/StageAPIEditorImpl.cpp:411-437 | Reading camera B, the getter returns what the B setter stored whenever some component is enabled |
| Grading.GradeRule | Source/VPStageAPIEditor/Private/API/StageAPIEditorImpl.cpp:1053-1073 | The value is stored. The override flag becomes "not zero in X, Y, Z". The enable flag is kept on zero and set otherwise. All other fields and the exposure are unchanged |
| Grading.ApplyClusterGrade | Source/VPStageAPIEditor/Private/API/StageAPIEditorImpl.cpp:1053-1270 | The cluster grade setters leave liveness, inner frustums and screen percentage unchanged |
| Grading.ApplyFrustumGradeAsWritten | Source/VPStageAPIEditor/Private/API/StageAPIEditorImpl.cpp:1286-1585 | The frustum grade setters as written touch only the camera's grading and its cluster-grading flag |
| Grading.ApplyFrustumGrade | Source/VPStageAPIEditor/Private/API/StageAPIEditorImpl.cpp:1286-1585 | The corrected frustum grade setters touch only the camera's grading and its cluster-grading flag |
| Grading.ClusterGradeTracksValue | Source/VPStageAPIEditor/Private/API/StageAPIEditorImpl.cpp:1053-1270 | After a cluster setter the written field's override matches its value, and every field that matched still matches |
| Grading.FrustumGradeMatchesRule | Source/VPStageAPIEditor/Private/API/StageAPIEditorImpl.cpp:1286-1585 | Every frustum setter but Gamma behaves exactly like the corrected rule |
| Grading.FrustumGammaTogglesGain | Source/VPStageAPIEditor/Private/API/StageAPIEditorImpl.cpp:1365-1390 | As written the Gamma setter stores Gamma but sets the Gain override, leaving Gamma's override out of step |
| Grading.FrustumGradeTracksValue | Source/VPStageAPIEditor/Private/API/StageAPIEditorImpl.cpp:1286-1585 | Corrected, every frustum setter keeps override flags in step with values |
| Grading.ApplyStageExposure | Source/VPStageAPIEditor/Private/API/StageAPIEditorImpl.cpp:965-977 | Sets the grading-enable flag, the exposure override and the bias; grades and other stage settings are unchanged |
| Grading.DisableExposure | Source/VPStageAPIEditor/Private/API/StageAPIEditorImpl.cpp:979-991 | Clears only the exposure override; the bias and everything else are kept |
| Grading.DisableAfterSetKeepsBias | Source/VPStageAPIEditor/Private/API/StageAPIEditorImpl.cpp:965-991 | Disabling after setting keeps the new bias and the enable flag but clears the override |
| Stage.LastAlive | Source/VPStageAPIEditor/Private/API/StageAPIEditorImpl.cpp:156-159 | The last root the iteration visits is a live root of the world |
| Stage.LastAliveSpec | Source/VPStageAPIEditor/Private/API/StageAPIEditorImpl.cpp:156-159 | The iteration finds no root exactly when every root is destroyed; otherwise every later root is destroyed |
| Stage.RootAfterScan | Source/VPStageAPIEditor/Private/API/StageAPIEditorImpl.cpp:154-160 | After the actor iteration the root is the previous root or a live root of the world |
| Stage.ScanRoots | Source/VPStageAPIEditor/Private/API/StageAPIEditorImpl.cpp:156-159 | The loop leaves the last live root, or the starting root when none is live |
| Stage.DeadRootSkipped | Source/VPStageAPIEditor/Private/API/StageAPIEditorImpl.cpp:156-159 | With roots [live, destroyed] and no previous root, the iteration leaves the live one |
| Stage.KeysAreCandidates | Source/VPStageAPIEditor/Private/API/StageAPIEditorImpl.cpp:661-703 | The keys the scans read from the components are the candidates of the components' states |
| Stage.ScannedExposure | Source/VPStageAPIEditor/Private/API/StageAPIEditorImpl.cpp:411-415 | On the components, camera A's exposure is the as-written B getter's value and camera B's the intended one |
| Stage.SelectHighest | Source/VPStageAPIEditor/Private/API/StageAPIEditorImpl.cpp:653-677 | The loop returns the component at camera A's index, or null |
| Stage.SelectLowest | Source/VPStageAPIEditor/Private/API/StageAPIEditorImpl.cpp:679-703 | The loop returns the component at camera B's index, or null |
| Stage.GetFrustumFOVMultByComponent | Source/VPStageAPIEditor/Private/API/StageAPIEditorImpl.cpp:209-215 | A null component gives 0; otherwise the buffer ratio |
| Stage.SetFrustumFOVMultByComponent | Source/VPStageAPIEditor/Private/API/StageAPIEditorImpl.cpp:216-228 | A null component is a no-op; otherwise only the buffer ratio changes, and the getter then reads it back |
| Stage.GetFrustumExposureByComponent | Source/VPStageAPIEditor/Private/API/StageAPIEditorImpl.cpp:229-235 | A null component gives 0; otherwise the exposure bias |
| Stage.SetFrustumExposureByComponent | Source/VPStageAPIEditor/Private/API/StageAPIEditorImpl.cpp:244-258 | A null component is a no-op; otherwise the exposure rule applies, and the getter then reads it back |
| Stage.InitTables | Source/VPStageAPIEditor/Private/API/StageAPIEditorImpl.cpp:143-180 | The viewport list is only appended to. With no world the root is kept; otherwise the root is the last live root actor of the world, or the old root when there is none. On failure the node list and map are empty |
| Stage.InitBuildsTables | Source/VPStageAPIEditor/Private/API/StageAPIEditorImpl.cpp:162-175 | On success the node list is the node keys in order, the viewports are appended, and the map sends each key to the last node with a viewport of that name up to case |
| Stage.InitFindsLiveRoot | Source/VPStageAPIEditor/Private/API/StageAPIEditorImpl.cpp:154-175 | Init succeeds whenever the chosen world has a live root actor, whatever the old root |
| Stage.InitTwiceDuplicatesViewports | Source/VPStageAPIEditor/Private/API/StageAPIEditorImpl.cpp:145-173 | A second successful init rebuilds the same node list and map but appends the viewports again, so they appear twice |
| Stage.GuardSettles | Source/VPStageAPIEditor/Private/API/StageAPIEditorImpl.cpp:52-58 | A second guard right after a first changes nothing |
| Stage.StageApi.constructor | Source/VPStageAPIEditor/Private/API/StageAPIEditorImpl.cpp:45-49 | The static state starts with no world, no root and empty tables |
| Stage.StageApi.Reset | Source/VPStageAPIEditor/Private/API/StageAPIEditorImpl.cpp:86-93 | The destructor resets the root, the three tables and the world |
| Stage.StageApi.InitApiSurface | Source/VPStageAPIEditor/Private/API/StageAPIEditorImpl.cpp:143-180 | The new static state is InitOutcome of the old; the result is true exactly when a world was found and the root is valid |
| Stage.StageApi.AddNodes | Source/VPStageAPIEditor/Private/API/StageAPIEditorImpl.cpp:165-173 | The outer loop leaves the node keys, the old viewports plus all viewports, and the last-owner map |
| Stage.StageApi.AddNode | Source/VPStageAPIEditor/Private/API/StageAPIEditorImpl.cpp:167-172 | One node appends its key and its viewports and maps each viewport's folded name to it |
| Stage.StageApi.Guard | Source/VPStageAPIEditor/Private/API/StageAPIEditorImpl.cpp:52-58 | Re-initialises only when the root is not valid (IsAPIReady); goes on exactly when the root is then valid |
| Stage.StageApi.GetIcvfxCameraComponentA | Source/VPStageAPIEditor/Private/API/StageAPIEditorImpl.cpp:653-677 | After the guard, returns camera A of the current root (null without a valid root) |
| Stage.StageApi.GetIcvfxCameraComponentB | Source/VPStageAPIEditor/Private/API/StageAPIEditorImpl.cpp:679-703 | After the guard, returns camera B of the current root |
| Stage.StageApi.GetIcvfxCameraComponent | Source/VPStageAPIEditor/Private/API/StageAPIEditorImpl.cpp:648-651 | Returns camera A |
| Stage.StageApi.CameraBActive | Source/VPStageAPIEditor/Private/API/StageAPIEditorImpl.cpp:367-370 | True exactly when the root is valid and the enabled components use more than one render order |
| Stage.StageApi.GetFrustumFOVMult | Source/VPStageAPIEditor/Private/API/StageAPIEditorImpl.cpp:383-387 | Camera A's buffer ratio, 0 without camera A |
| Stage.StageApi.GetFrustumFOVMultB | Source/VPStageAPIEditor/Private/API/StageAPIEditorImpl.cpp:389-393 | Camera B's buffer ratio, 0 without camera B |
| Stage.StageApi.SetFrustumFOVMult | Source/VPStageAPIEditor/Private/API/StageAPIEditorImpl.cpp:395-399 | Only camera A's buffer ratio changes among the components |
| Stage.StageApi.SetFrustumFOVMultB | Source/VPStageAPIEditor/Private/API/StageAPIEditorImpl.cpp:400-404 | Only camera B's buffer ratio changes among the components |
| Stage.StageApi.GetFrustumExposure | Source/VPStageAPIEditor/Private/API/StageAPIEditorImpl.cpp:406-410 | Camera A's exposure bias, 0 without camera A |
| Stage.StageApi.GetFrustumExposureB | Source/VPStageAPIEditor/Private/API/StageAPIEditorImpl.cpp:411-415 | Corrected: camera B's exposure bias, 0 without camera B |
| Stage.StageApi.SetFrustumExposure | Source/VPStageAPIEditor/Private/API/StageAPIEditorImpl.cpp:428-432 | The exposure rule on camera A; no other component changes |
| Stage.StageApi.SetFrustumExposureB | Source/VPStageAPIEditor/Private/API/StageAPIEditorImpl.cpp:433-437 | The exposure rule on camera B; no other component changes |
| Stage.StageApi.GetFrustumRenderRatio | Source/VPStageAPIEditor/Private/API/StageAPIEditorImpl.cpp:551-562 | Camera A's render target ratio, 0 without camera A |
| Stage.StageApi.SetFrustumRenderRatio | Source/VPStageAPIEditor/Private/API/StageAPIEditorImpl.cpp:565-582 | Only camera A's render target ratio changes |
| Stage.StageApi.DisableChromakey | Source/VPStageAPIEditor/Private/API/StageAPIEditorImpl.cpp:1001-1016 | Camera A's chromakey becomes false; nothing else changes |
| Stage.StageApi.EnableChromakey | Source/VPStageAPIEditor/Private/API/StageAPIEditorImpl.cpp:1018-1032 | Camera A's chromakey becomes true; nothing else changes |
| Stage.StageApi.SetChromakeyStatus | Source/VPStageAPIEditor/Private/API/StageAPIEditorImpl.cpp:993-999 | Camera A's chromakey becomes the given status |
| Stage.StageApi.GetChromakeyStatus | Source/VPStageAPIEditor/Private/API/StageAPIEditorImpl.cpp:1034-1043 | Camera A's chromakey, false without camera A |
| Stage.StageApi.GetFrustumGrade | Source/VPStageAPIEditor/Private/API/StageAPIEditorImpl.cpp:1274-1284 | Camera A's grade value for the field, a default vector without camera A |
| Stage.StageApi.SetFrustumGrade | Source/VPStageAPIEditor/Private/API/StageAPIEditorImpl.cpp:1286-1312 | Corrected: camera A's grading follows the rule with the field's own override flag; no other component changes |
| Stage.StageApi.GetDisplayClusterRoot | Source/VPStageAPIEditor/Private/API/StageAPIEditorImpl.cpp:611-616 | The root when it is valid after the guard, otherwise null |
| Stage.StageApi.GetInnerFrustumStatus | Source/VPStageAPIEditor/Private/API/StageAPIEditorImpl.cpp:628-633 | The root's inner-frustum flag, false without a valid root |
| Stage.StageApi.SetInnerFrustumState | Source/VPStageAPIEditor/Private/API/StageAPIEditorImpl.cpp:635-645 | Only the valid root's inner-frustum flag changes |
| Stage.StageApi.EnableInnerFrustum | Source/VPStageAPIEditor/Private/API/StageAPIEditorImpl.cpp:623-626 | Same as setting the state to true |
| Stage.StageApi.DisableInnerFrustum | Source/VPStageAPIEditor/Private/API/StageAPIEditorImpl.cpp:618-621 | Same as setting the state to false |
| Stage.StageApi.GetGlobalScreenPercentage | Source/VPStageAPIEditor/Private/API/StageAPIEditorImpl.cpp:710-720 | The outer viewport buffer ratio of the valid root, 0 otherwise |
| Stage.StageApi.SetGlobalScreenPercentage | Source/VPStageAPIEditor/Private/API/StageAPIEditorImpl.cpp:722-734 | Only the valid root's outer viewport buffer ratio changes |
| Stage.StageApi.GetStageExposure | Source/VPStageAPIEditor/Private/API/StageAPIEditorImpl.cpp:957-963 | The root's stage exposure bias, 0 without a valid root |
| Stage.StageApi.SetStageExposure | Source/VPStageAPIEditor/Private/API/StageAPIEditorImpl.cpp:965-977 | The valid root's stage settings follow ApplyStageExposure; no other root changes |
| Stage.StageApi.DisableStageExposure | Source/VPStageAPIEditor/Private/API/StageAPIEditorImpl.cpp:979-991 | The valid root's stage settings follow DisableExposure; no other root changes |
| Stage.StageApi.GetClusterGrade | Source/VPStageAPIEditor/Private/API/StageAPIEditorImpl.cpp:1045-1051 | The root's cluster grade value for the field, a default vector without a valid root |
| Stage.StageApi.SetClusterGrade | Source/VPStageAPIEditor/Private/API/StageAPIEditorImpl.cpp:1053-1073 | The valid root's stage settings follow the grade rule; no other root changes |
| Stage.StageApi.InnerFrustumRoundTrip | Source/VPStageAPIEditor/Private/API/StageAPIEditorImpl.cpp:628-645 | Set then get returns the state set whenever the root is valid |
| Stage.StageApi.ChromakeyRoundTrip | Source/VPStageAPIEditor/Private/API/StageAPIEditorImpl.cpp:993-1043 | Set then get returns the status set whenever camera A exists |
| Stage.StageApi.FovMultRoundTrip | Source/VPStageAPIEditor/Private/API/StageAPIEditorImpl.cpp:383-399 | Set then get returns the value set whenever camera A exists |

## Left out

- Undo transactions (`BeginTransaction`, `EndTransaction`, `Modify`) are host editor bookkeeping. They have no effect on the modelled state.
- Actor and component transforms (stage location, frustum position and rotation, their previews) are engine transform maths.
- Aperture, focal distance and the external cine-camera actor getters (`GetFrustumCamera`, `GetFrustumCameraB`) are pass-through calls into engine code that is not part of this model.
- The sequencer controls and the multi-user take-recorder messages are delegation to host subsystems and network messaging.
- The reflection-based default view point lookup is an engine property-system call.
- Module startup and shutdown and the Blueprint function library are not part of this model.
- `GetWorldFromContextObject` is taken to return the chosen world itself.
- Destroying a root actor (a weak pointer going invalid) is the `alive` flag; the host's garbage collector that clears it is not modelled.
- `GetConfigData` is taken never to return null. The null check in `GetGlobalScreenPercentage` is therefore not modelled.
- `Stage.IcvfxCamera`: `bEnable` and `RenderOrder` are `const`. The API reads them but never writes them. Changes the host makes to them between calls are not modelled.
- `Stage.StageApi.GetFrustumExposureB` models the corrected getter, which reads camera B. The code as written reads camera A; see Findings.
- `Stage.StageApi.SetFrustumGrade` models the corrected Gamma setter, which toggles Gamma's own override. The code as written toggles Gain's; see Findings.
- `StageTypes.DefaultVector4`: the default `FVector4` (X, Y, Z zero, W one) comes from the engine's vector type, which is not part of this model. Only its X, Y and Z matter to the zero test.
- Floating-point values are `real`. Single-precision rounding is not modelled; values are only stored, read back and compared with zero.
- `GetComponents` is taken to yield each camera component once, in a fixed order.
- `ClusterTables.OwnerMap`: a key is identified by its folded spelling, with only the letters A to Z lowered, as the engine's case-insensitive comparison does. Which spelling the engine's map keeps as the stored key is not modelled; no modelled operation reads the keys back.
- `s_GameWorldContext` is recorded but never read by the modelled operations.

## Findings

| source | as written | input that shows it | evidently intended | confidence | as-written member | corrected member |
|---|---|---|---|---|---|---|
| Source/VPStageAPIEditor/Private/API/StageAPIEditorImpl.cpp:1365-1390 | `SetFrustumPP_GlobalGamma` stores the Gamma vector but sets or clears `bOverride_Gain` | camera A with both overrides off, gamma (1, 1, 1, 1): afterwards Gamma's override is still off and Gain's is on | toggle `bOverride_Gamma`, as the cluster Gamma setter and every other frustum setter do for their own field | high (not executed) | Grading.FrustumGammaTogglesGain | Grading.FrustumGradeTracksValue |
| Source/VPStageAPIEditor/Private/API/StageAPIEditorImpl.cpp:411-415 | `GetFrustumExposureB` reads `GetIcvfxCameraComponent()`, which is camera A | two enabled components with render orders 1 and 0 and bias 0; `SetFrustumExposureB(1)` writes the second, and the getter returns the first's 0 | read `GetIcvfxCameraComponentB()`, as every other `…B` accessor does | high (not executed) | CameraSelect.ExposureBAsWrittenMissesB | CameraSelect.ExposureBRoundTrip |
