# Splash calibration view and visibility shaders, in Dafny

Splash is a projection-mapping system: several video projectors, each
calibrated as a virtual camera, light a 3D object, and their images are
blended where they overlap. This project models two parts of it.

**The global view** (`GuiGlobalView`, the calibration widget). It holds the
selected camera (the GUI's own overview camera or one of the scene's
registered cameras). It also holds:

- a history of camera poses for undo;
- the hide and colorize flags;
- the joystick state of the last tick;
- the pick target and reference distance used for mouse navigation.

Its methods react to keys, mouse, joystick and thumbnail clicks. The model
is the class `GlobalView.GuiGlobalView`, whose fields are those members. Every
effect on other objects (a `setObject`, `setObjectsOfType`, a direct
`setAttribute` on the overview camera, a camera-internal call) is appended
to a `log` field as a `Command`. Each method states its new fields and the
exact commands it appends. The sequences of commands are functions in
`GlobalViewSpec`, and the lemmas there prove what the view promises:

- cycling through the cameras;
- undo keeps the first snapshot;
- a hide never reaches the selected camera;
- buttons act once per press;
- the field of view stays in [2, 180];
- panning scales with the pick distance.

**The shaders** (`include/shaderSources.h`), with exact reals for floats:

- `projectAndCheckVisibility` and the sign of `normalVector`
  (`Projection`).
- The reset and visibility compute shaders (`Visibility`). They are methods
  over an `array` of annexes, proved against `Reset` and `Pass`. Repeated
  passes leave each triangle's coverage, the number of cameras that count
  it, in `annexe.x`.
- The feedback geometry shader's cut of triangles that straddle the view
  border (`FeedbackCut`). It works through `cutTable` into three triangles
  that never mix sides.
- The window shader's frame count (`WindowLayout`).
- The vertex-blending factor and the flip / flop texture coordinates
  (`Compositing`). Blending by one over the coverage makes the projectors
  that count a triangle add up to exactly one projector's light on it.

External state the code reads is passed in as a parameter:

- the scene's registered cameras, in registry order;
- the poses and picks the camera objects report;
- ImGui's key and mouse state;
- the window width.

## Model

| member | source | states |
|---|---|---|
| CameraCommands.PoseCommands | src/widget_global_view.cpp:284-288 | applying a snapshot sends five `setObject` commands to the selected camera, for eye, target, up, fov and principalPoint, in that order |
| CameraCommands.Send | src/widget_global_view.cpp:301-307 | an attribute for the selected camera goes through `setObject` exactly when it is not the overview camera; otherwise it is set directly on the overview camera |
| GlobalViewSpec.AllCameras | src/widget_global_view.cpp:637-653 | getCameras lists the overview camera first, then every registered camera in registry order, and nothing else |
| GlobalViewSpec.IndexOf | src/widget_global_view.cpp:248-260 | the search finds the first position holding the selected camera, and finds nothing exactly when the camera is not registered |
| GlobalViewSpec.NextFromOverview | src/widget_global_view.cpp:242-245 | from the overview camera, nextCamera selects the first registered camera, or stays on the overview camera when none is registered |
| GlobalViewSpec.NextOfRegistered | src/widget_global_view.cpp:246-260 | from registered camera i, nextCamera selects camera i + 1, and from the last one it returns to the overview camera |
| GlobalViewSpec.CycleVisitsInOrder | src/widget_global_view.cpp:223-270 | starting from the overview camera, the k-th press of space selects the k-th registered camera |
| GlobalViewSpec.CycleReturnsToOverview | src/widget_global_view.cpp:223-270 | with N registered cameras, N + 1 presses from the overview camera come back to it |
| GlobalViewSpec.HideCommandsTargets | src/widget_global_view.cpp:236-237 | the hide loop sends `hide` with the given value to every registered camera other than the skipped one, and to nobody else |
| GlobalViewSpec.HideAllCount | src/widget_global_view.cpp:236-237 | when no camera is skipped, the loop sends exactly one command per registered camera |
| GlobalViewSpec.NextCameraOverlay | src/widget_global_view.cpp:230-267 | nextCamera unhides every camera, then lowers frame and calibration display on the previous selection; it raises them on the new selection only when that is a registered camera |
| GlobalViewSpec.ThumbnailVersusNextCamera | src/widget_global_view.cpp:106-132 | a thumbnail click on a registered camera sends what nextCamera sends, plus the overview camera's unhide and the points mode; a click on the overview thumbnail sends it `displayCalibration = 1`, which nextCamera never does |
| GlobalViewSpec.HideOthersSparesSelection | src/widget_global_view.cpp:360-370 | hideOtherCameras never sends `hide` to the selected camera; a changed flag reaches every other registered camera; an unchanged flag sends nothing |
| GlobalViewSpec.ColorizeEffects | src/widget_global_view.cpp:310-326 | enabling paints all cameras magenta and then the selection green; disabling paints all white; a repeated value, or enabling on the overview camera, sends nothing; applying twice is the same as applying once |
| GlobalViewSpec.RevertKeepsFirst | src/widget_global_view.cpp:273-283 | an empty history reverts nothing; otherwise the newest snapshot is reapplied and popped, unless it is the only one, which is kept |
| GlobalViewSpec.CalibrateThenRevert | src/widget_global_view.cpp:273-290 | an undo right after a calibration reapplies the pose saved before that calibration |
| GlobalViewSpec.RepeatedRevert | src/widget_global_view.cpp:273-283 | k undos on n snapshots reapply them newest first; the history shrinks to max(1, n - k), and from then on the first snapshot is reapplied every time |
| GlobalViewSpec.RevertOverwritesCalibration | src/widget_global_view.cpp:284-288 | undo sets exactly the attributes a calibration propagated, to the same camera, in the same order |
| GlobalViewSpec.HeldButtonsActOnce | src/widget_global_view.cpp:379-408 | buttons held since the last tick trigger nothing again; only button 2, the speed button, acts while held |
| GlobalViewSpec.ButtonPriority | src/widget_global_view.cpp:379-396 | each action of the first button chain happens exactly when its button goes down and no earlier button of the chain acts |
| GlobalViewSpec.AsWrittenAgreesWhenSized | src/widget_global_view.cpp:379-396 | when the previous tick recorded at least as many buttons, the chain as written agrees with the corrected chain |
| GlobalViewSpec.FirstPressAfterIdleTickReadsPastEnd | src/widget_global_view.cpp:381 | a press after a tick without a joystick update makes the code read past the end of `_joyButtonsPrevious` |
| GlobalViewSpec.LastAsWrittenAgreesWhenSized | src/widget_global_view.cpp:398-408 | when the previous tick recorded at least as many buttons, the second chain as written agrees with the corrected chain |
| GlobalViewSpec.FifthPressAfterShortTickReadsPastEnd | src/widget_global_view.cpp:400 | pressing button 4 after a tick that reported four buttons or none makes the code read past the end of `_joyButtonsPrevious`, where the intended reading switches the points display |
| GlobalViewSpec.NudgeDelta | src/widget_global_view.cpp:476-481 | the arrow step is 0.1 with shift, 10 with ctrl and no shift, and 1 otherwise |
| GlobalViewSpec.RevertNeedsCtrl | src/widget_global_view.cpp:467-473 | the keyboard undoes only on ctrl+Z over the view; a plain Z does nothing and blocks the arrows |
| GlobalViewSpec.NudgeMoves | src/widget_global_view.cpp:483-502 | each arrow pressed this frame asks for one move of one step along one axis, at most four in all |
| GlobalViewSpec.ClampFov | src/widget_global_view.cpp:566-567 | the new field of view lies in [2, 180]; a value already inside is unchanged, and values outside go to the nearest bound |
| GlobalViewSpec.PivotDistance | src/widget_global_view.cpp:550-557 | a right click on empty space sets the reference distance to 1; otherwise it is a tenth of the picked depth, with the sign flipped |
| GlobalViewSpec.LeftButtonOnRegisteredOnly | src/widget_global_view.cpp:519-546 | a left press never sends anything when the overview camera is selected; every command it sends goes to the selected camera and is a calibration-point edit |
| GlobalViewSpec.WheelFovInRange | src/widget_global_view.cpp:560-573 | every field of view a wheel step sends is in [2, 180], and a wheel step sends something exactly when the wheel moved |
| GlobalViewSpec.CaptureNeedsRightButton | src/widget_global_view.cpp:576-586 | the view is captured only while the right button is held; a capture starts only over the view and lasts until the button is released |
| GlobalViewSpec.DragScalesWithDistance | src/widget_global_view.cpp:616-632 | shift-drag pans and ctrl-drag dollies by the mouse offset times the reference distance, in hundredths; shift+ctrl does nothing |
| GlobalViewSpec.RotateIgnoresDistance | src/widget_global_view.cpp:591-615 | a plain drag resets the up vector, then rotates about the picked point when there is one and about the target otherwise; it does not depend on the reference distance |
| GlobalView.GuiGlobalView.constructor | src/widget_global_view.cpp:194-202 | setCamera with the overview camera selects it and sizes it to 800 x 600; the other fields' start values are assumed (see "## Left out") |
| GlobalView.GuiGlobalView.SetJoystick | src/widget_global_view.cpp:205-209 | the new axes and buttons replace the stored ones, and nothing else changes |
| GlobalView.GuiGlobalView.GetCameras | src/widget_global_view.cpp:637-653 | returns `AllCameras`; sizes the overview camera to the window width at 4:3 and draws one camera model per registered camera |
| GlobalView.GuiGlobalView.HideLoop | src/widget_global_view.cpp:236-237 | the loop appends exactly `HideCommands` |
| GlobalView.GuiGlobalView.NextCamera | src/widget_global_view.cpp:223-270 | selects `NextSelection`; clears the undo history and the hide and colorize flags; appends exactly `SelectionCommands` |
| GlobalView.GuiGlobalView.ShowEveryCamera | src/widget_global_view.cpp:120-121 | unhides the overview camera and every registered camera |
| GlobalView.GuiGlobalView.SelectThumbnail | src/widget_global_view.cpp:106-132 | ctrl+click sends `hide = -1` to the clicked camera and changes nothing else; a plain click selects the camera, clears the history and flags, and appends `ThumbnailCommands` |
| GlobalView.GuiGlobalView.RevertCalibration | src/widget_global_view.cpp:273-290 | the history becomes `Revert`'s history, and the reapplied snapshot, if any, is sent as `PoseCommands` |
| GlobalView.GuiGlobalView.PropagateCalibration | src/widget_global_view.cpp:348-357 | appends `ForwardPose` for the selected camera |
| GlobalView.GuiGlobalView.DoCalibration | src/widget_global_view.cpp:329-345 | pushes the current pose onto the history, runs the camera's calibration and propagates the result |
| GlobalView.GuiGlobalView.ShowAllCalibrationPoints | src/widget_global_view.cpp:293-298 | a switch request flips the local flag and a fixed mode leaves it; the mode's code is sent to the selected camera either way |
| GlobalView.GuiGlobalView.ShowAllCamerasCalibrationPoints | src/widget_global_view.cpp:301-307 | sends `switchDisplayAllCalibration` to the selection, directly when it is the overview camera |
| GlobalView.GuiGlobalView.HideOtherCameras | src/widget_global_view.cpp:360-370 | the applied flag becomes the request, and `HideOthersCommands` is appended |
| GlobalView.GuiGlobalView.ColorizeCameraWireframes | src/widget_global_view.cpp:310-326 | the applied flag becomes `ColorizeApplied`, and `ColorizeCommands` is appended |
| GlobalView.GuiGlobalView.ApplyDisplayOptions | src/widget_global_view.cpp:168-172 | the end of each frame applies the requested hide flag, then the requested colorize flag |
| GlobalView.GuiGlobalView.JoystickButtons | src/widget_global_view.cpp:379-396 | carries out the action `FirstButtons` picks: select the previous or next point, or calibrate; speed does nothing |
| GlobalView.GuiGlobalView.JoystickToggles | src/widget_global_view.cpp:398-408 | carries out the toggle `LastButtons` picks: switch the points display, or request the opposite of the applied hide flag |
| GlobalView.GuiGlobalView.JoystickAxes | src/widget_global_view.cpp:413-424 | a deflected stick nudges the calibration point and propagates the pose; a centred or missing stick sends nothing |
| GlobalView.GuiGlobalView.ProcessJoystickState | src/widget_global_view.cpp:373-428 | one tick runs both chains against the previous tick's buttons, then the stick. It stores this tick's buttons as the previous ones and clears buttons and axes |
| GlobalView.GuiGlobalView.NudgeLoop | src/widget_global_view.cpp:483-502 | sends one nudge per move, each followed by a propagation |
| GlobalView.GuiGlobalView.NudgeArrows | src/widget_global_view.cpp:474-505 | the arrows pressed this frame nudge by `NudgeDelta` in right, left, down, up order |
| GlobalView.GuiGlobalView.ProcessKeyEvents | src/widget_global_view.cpp:431-506 | the first key pressed this frame over the view decides the action (space, A, C, H, O, V, Z, else arrows), and the method states each field and the commands for every action |
| GlobalView.GuiGlobalView.LeftPress | src/widget_global_view.cpp:519-546 | appends `LeftButtonCommands`; records the added point only when a plain click added one |
| GlobalView.GuiGlobalView.Zoom | src/widget_global_view.cpp:560-573 | sends the clamped field of view to the selection, directly when it is the overview camera |
| GlobalView.GuiGlobalView.ProcessMouseEvents | src/widget_global_view.cpp:509-634 | a left press over the view does only the left-press handling. Otherwise a right click sets the pick target and distance, and a wheel step zooms; then the capture is updated by `CaptureAfter`, and a captured view is dragged |
| GlobalView.GuiGlobalView.Drag | src/widget_global_view.cpp:589-633 | appends `DragCommands` for the current pick target and distance |
| Projection.Divide | include/shaderSources.h:42-43 | the divide is finite exactly when w is not zero; a finite result has w = 1 and scales back to the input |
| Projection.ProjectAndCheckVisibility | include/shaderSources.h:40-56 | the point written back is `mvp * p` divided by w. It is visible exactly when finite and inside the clip cube widened by the margin. `dist` is written, non-negative, exactly when the point is in front of the camera; when `w` is zero and the z numerator positive, z divides to +inf and a non-finite `dist` is written |
| Projection.MarginMonotone | include/shaderSources.h:50 | a point visible with some margin is visible with any larger one |
| Projection.AtInfinityNeverVisible | include/shaderSources.h:42-53 | a point that projects to w = 0 is never visible |
| Projection.NormalZSign | include/shaderSources.h:60-66 | a sign other than NaN needs three finite corners, and a zero sign means a zero z in the cross product |
| Projection.SwapReversesFacing | include/shaderSources.h:60-66 | swapping two corners reverses the facing of the normal, and NaN stays NaN |
| Projection.CrossAntisymmetric | include/shaderSources.h:63 | the cross product changes sign when its two edge vectors swap |
| Visibility.Reset | include/shaderSources.h:150-156 | the annexes of the first `vertexNbr / 3` triangles are zero, and every other annex is unchanged |
| Visibility.Pass | include/shaderSources.h:199-232 | one pass adds 1 to `x` of exactly the slots of triangles counted by the camera, and changes nothing else |
| Visibility.ResetVisibility | include/shaderSources.h:145-157 | the in-place reset leaves the array equal to `Reset` of its old contents |
| Visibility.CountTriangle | include/shaderSources.h:199-232 | one invocation adds 1 to `x` of its triangle's three slots exactly when all three corners are visible and the normal's z is at most zero; no other slot changes |
| Visibility.ComputeVisibility | include/shaderSources.h:192-234 | running every invocation leaves the array equal to `Pass` of its old contents |
| Visibility.CoverageBounded | include/shaderSources.h:224-228 | no triangle is counted by more cameras than there are, and it is counted by all of them exactly when every camera counts it |
| Visibility.PassesAccumulate | include/shaderSources.h:224-228 | successive passes add each triangle's coverage to `x` and leave the other components and the slots past the triangles alone |
| Visibility.AccumulatedCoverage | include/shaderSources.h:150-156 | a reset followed by one pass per camera leaves `(coverage, 0, 0, 0)` in each triangle's slots, with coverage between 0 and the number of cameras |
| FeedbackCut.CutTableEntry | include/shaderSources.h:419-426 | entry `c * 9 + j` of `cutTable` is entry j of row c |
| FeedbackCut.CrossingSlots | include/shaderSources.h:482-499 | every crossing point lies on an edge whose two corners are on different sides |
| FeedbackCut.TwoCrossings | include/shaderSources.h:482-499 | a triangle that straddles the border has exactly two crossing edges, so `nextVertex` stops at 5 |
| FeedbackCut.CutCaseInRange | include/shaderSources.h:440-450 | with one or two corners inside, the cut case is one of the six rows |
| FeedbackCut.CutTableInBounds | include/shaderSources.h:419-426 | every entry of `cutTable` indexes one of the five points |
| FeedbackCut.ComplementCasesShareRows | include/shaderSources.h:419-426 | cases c and 5 - c, which have opposite sides, have the same row |
| FeedbackCut.CutRowInBounds | include/shaderSources.h:419-426 | each row has nine entries, each indexing one of the five points |
| FeedbackCut.CutTriangleEntry | include/shaderSources.h:504-507 | vertex v of triangle t of the cut is the point `cutTable` names for it |
| FeedbackCut.LoneCorner | include/shaderSources.h:432-450 | a straddling triangle has one corner alone on its side |
| FeedbackCut.CutMatchesExpected | include/shaderSources.h:419-426 | for each of the six cases the table gives the hand-written cut for the lone corner |
| FeedbackCut.CutSeparatesSides | include/shaderSources.h:419-517 | no output triangle has corners on both sides; all five points are used; no triangle repeats a point |
| FeedbackCut.GeometryFeedback | include/shaderSources.h:430-518 | the input triangle is emitted unchanged when it does not straddle the border or its normal has z >= 0; otherwise the three cut triangles are emitted with zero annexes |
| FeedbackCut.ClassifyCorners | include/shaderSources.h:432-450 | the first loop returns the projections, the sides, the count of inside corners and the cut case |
| FeedbackCut.EmitUnchanged | include/shaderSources.h:454-467 | the pass-through emits the three input vertices, with their annexes, as one strip |
| FeedbackCut.FillCutPoints | include/shaderSources.h:471-500 | `vertices` holds the three corners, then one crossing point per crossing edge, in edge order |
| FeedbackCut.EmitCut | include/shaderSources.h:502-517 | the cut emits three strips, one for each triangle of `CutTriangles` |
| FeedbackCut.EmitCutTriangle | include/shaderSources.h:504-516 | one strip holds the three points its table row names |
| FeedbackCut.CrossingsGrow | include/shaderSources.h:482-499 | the crossings found so far never outnumber those of the whole triangle |
| Compositing.TotalBlend | include/shaderSources.h:560-570 | `totalBlend` is written exactly for vertices in front of the camera, and is then the coverage `_annexe.x` on both branches |
| Compositing.BlendFactor | include/shaderSources.h:705-708 | the factor times a non-zero total is 1; a zero total gives 0.05; a positive total gives a positive factor |
| Compositing.LightIsCoverageShares | include/shaderSources.h:706-707 | the counting projectors together add one share of the factor per camera that covers the triangle |
| Compositing.OverlapBlendsToOne | include/shaderSources.h:705-708 | with each counting projector scaled by the blend factor of the coverage, overlapping projectors add up to exactly one projector's light |
| Compositing.RealCoords | include/shaderSources.h:641-650 | flip mirrors y and flop mirrors x; a value other than 0 or 1 in either turns both off |
| Compositing.RealCoordsInvolution | include/shaderSources.h:641-650 | the same flip / flop applied twice gives back the coordinates |
| Compositing.RealCoordsStayInTexture | include/shaderSources.h:641-650 | flip / flop keeps coordinates in the unit square |
| WindowLayout.RepeatsCountDuplicates | include/shaderSources.h:933-945 | dropping one count for every entry repeated later leaves the number of distinct values |
| WindowLayout.NoRepeatsIffDistinct | include/shaderSources.h:933-945 | no entry is repeated later exactly when all entries are distinct |
| WindowLayout.SlotsOfPrefix | include/shaderSources.h:936-938 | the slots of the first n textures are the values of the layout's first n entries |
| WindowLayout.FramesCount | include/shaderSources.h:933-945 | `frames` is the number of distinct slots among the first `_textureNbr` layout entries, or `_textureNbr` itself when that is not positive |
| WindowLayout.FramesBounded | include/shaderSources.h:933-945 | with at least one texture there is at least one frame, and never more frames than textures |
| WindowLayout.FramesIffDistinct | include/shaderSources.h:933-945 | every texture has a frame of its own exactly when no two textures share a slot |
| WindowLayout.DefaultLayoutOneFramePerTexture | include/shaderSources.h:926 | with the default layout, each of up to four textures has its own frame |

## Left out

- Floating point: the shaders and the view compute in 32-bit floats; the model uses exact reals. An infinity other than from a zero `w` is not modelled, and neither is rounding.
- The ImGui drawing of `render` and `updateWindowFlags` (src/widget_global_view.cpp:48-104, 133-161, 182-191): toolkit calls. The model keeps the state changes they trigger: the thumbnail click, the frame-end application of the hide and colorize flags, and the joystick tick.
- The "Show targets" checkbox and the `_noMove` flag of `render`: UI toolkit state.
- The joystick mutex and the callbacks that `captureJoystick` / `releaseJoystick` register (src/widget_global_view.cpp:13-45): concurrency. Updates enter through `SetJoystick`.
- `getCamerasRTMatrices` (src/widget_global_view.cpp:212-220) and the camera objects' own logic: calibration solve, picking, point nudges, view matrices. Of the view's requests to them, only `doCalibration`, `moveCalibrationPoint` and `drawModelOnce` are logged, as `Invoke` commands. The queries `pickCalibrationPoint`, `pickVertexOrCalibrationPoint`, `pickFragment` and `getAttribute` are not logged; their replies are parameters.
- The initial values the header gives the fields: the header is not part of this model. Besides what setCamera sets (the selection and its size), the constructor gives every field an assumed start value: an empty history, every flag off, no joystick state, no pick and a target distance of 1.
- Camera::CalibrationPointsVisibility: camera.h is not part of this model. The numeric code of `switchVisibility` is taken as -1, and the default argument of `showAllCalibrationPoints()` is taken as `switchVisibility`.
- GlobalView.GuiGlobalView.JoystickButtons: the `speed` local set by button 2 is never read, so the model drops it. The stick nudge is `moveCalibrationPoint(0, 0)` as written.
- Tessellation, the normal's `normalize` beyond its sign, and the `mix` ratio that places a crossing point on its edge: float numerics. Crossing points are symbolic `OnEdge(from, to)`.
- Also left out as float numerics: texture coordinates and normals of cut points, `distToBoundary`, the `dist` smoothing that is commented out, YCoCg decoding, colour balance, black level, the blend map, the LUT, gamma, and UV packing.
- The compute shaders' workgroup dispatch: the model runs one invocation per triangle, each touching only its own three slots, so their order does not matter.
- WindowLayout.FramesCount: requires `_textureNbr` to be at most the layout length. `_layout` is an `ivec4`, and indexing it past 3 is undefined in GLSL. How the window then draws each frame is not modelled.
- Compositing.OverlapBlendsToOne: sums only the projectors that count the triangle (all three corners inside the 1.005 cube and normal z ≤ 0). A projector that draws the triangle with a corner past that margin, or from behind, is scaled by the same factor without being counted, and its light is not in the sum.
- GlobalView.GuiGlobalView.viewCaptured: one per view and cleared by the constructor; in the source it is a function-`static` of processMouseEvents (src/widget_global_view.cpp:577), one per program, shared by all views and never reset. With a single view the two agree.
- Compositing.TotalBlend: a vertex whose divide gives an infinity rather than NaN is treated as unwritten.

## Findings

| source | as written | input that shows it | evidently intended | confidence | as-written member | corrected member |
|---|---|---|---|---|---|---|
| src/widget_global_view.cpp:379-408 | `_joyButtonsPrevious[k]` is read whenever `_joyButtons` has at least 4 (or 6) entries, with no check on the size of `_joyButtonsPrevious`. Every tick ends by clearing `_joyButtons` (line 427) after copying it to `_joyButtonsPrevious` (line 410), so a tick without a joystick update leaves `_joyButtonsPrevious` empty | a tick with no update, then a tick with buttons `[1, 0, 0, 0]`: the code reads `_joyButtonsPrevious[0]` of an empty vector; likewise a tick reporting four buttons, then buttons `[0, 0, 0, 0, 1, 0]`: the code reads `_joyButtonsPrevious[4]` of a four-entry vector | a button missing from the previous tick counts as released, so the first press selects the previous calibration point and the second switches the points display | not executed | GlobalViewSpec.FirstButtonsAsWritten, GlobalViewSpec.FirstPressAfterIdleTickReadsPastEnd, GlobalViewSpec.LastButtonsAsWritten, GlobalViewSpec.FifthPressAfterShortTickReadsPastEnd | GlobalViewSpec.FirstButtons, GlobalViewSpec.LastButtons, GlobalView.GuiGlobalView.ProcessJoystickState |

## Notes on the code

- nextCamera lowers `frame` and `displayCalibration` on the previous selection even when that is the overview camera (src/widget_global_view.cpp:239-240).
- A thumbnail click raises `frame` and `displayCalibration` on the clicked camera even when it is the overview camera (src/widget_global_view.cpp:127-130).
- The up-vector reset of a plain drag is always sent with `setObject`, even for the overview camera (src/widget_global_view.cpp:597-598).
- A left press over the view returns before the right-click, wheel and capture handling (src/widget_global_view.cpp:519-545).
- The cut always emits three triangles, also when two corners are inside (include/shaderSources.h:502-516).
