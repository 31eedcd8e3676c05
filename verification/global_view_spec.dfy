/** Pure specification of the global calibration view: which camera comes
    next, what the undo history does, which commands the flag changes issue,
    and how raw input is classified. The class in GlobalView is proved
    against these functions. */
module GlobalViewSpec {
  import opened CameraCommands

  // ---------------------------------------------------------------------
  // Registration order and camera cycling
  // ---------------------------------------------------------------------

  /** Object names are unique in the scene's registry. */
  predicate Distinct(names: seq<string>) {
    forall i, j :: 0 <= i < j < |names| ==> names[i] != names[j]
  }

  /** getCameras: the overview camera first, then every registered camera in
      registration order. */
  function AllCameras(registered: seq<string>): (r: seq<CameraRef>)
    ensures |r| == |registered| + 1 && r[0] == Overview
    ensures forall i :: 0 <= i < |registered| ==> r[i + 1] == Registered(registered[i])
    ensures forall c :: c in r ==> c == Overview || (c.Registered? && c.name in registered)
  {
    [Overview] + seq(|registered|, i requires 0 <= i < |registered| => Registered(registered[i]))
  }

  /** The position of the first camera called `name`, as the search loop of
      nextCamera finds it. */
  function IndexOf(names: seq<string>, name: string): (r: Option<nat>)
    ensures r.Some? ==> r.value < |names| && names[r.value] == name
    ensures r.Some? ==> forall j :: 0 <= j < r.value ==> names[j] != name
    ensures r.None? <==> name !in names
  {
    if names == [] then None
    else if names[0] == name then Some(0)
    else match IndexOf(names[1..], name)
      case None => None
      case Some(i) => Some(i + 1)
  }

  /** The camera nextCamera selects. A selected camera that is no longer
      registered stays selected. */
  function NextSelection(registered: seq<string>, selected: CameraRef): CameraRef {
    if |registered| == 0 then Overview
    else if selected == Overview then Registered(registered[0])
    else match IndexOf(registered, selected.name)
      case None => selected
      case Some(i) => if i == |registered| - 1 then Overview else Registered(registered[i + 1])
  }

  lemma NextFromOverview(registered: seq<string>)
    ensures NextSelection(registered, Overview) == if registered == [] then Overview else Registered(registered[0])
  {
  }

  /** From the i-th registered camera nextCamera moves to the (i+1)-th, and from
      the last one back to the overview camera. */
  lemma NextOfRegistered(registered: seq<string>, i: nat)
    requires Distinct(registered) && i < |registered|
    ensures NextSelection(registered, Registered(registered[i]))
         == if i + 1 < |registered| then Registered(registered[i + 1]) else Overview
  {
    var r := IndexOf(registered, registered[i]);
    assert r.Some?;
    assert r.value == i;
  }

  /** The selection after k calls of nextCamera. */
  function Cycle(registered: seq<string>, selected: CameraRef, k: nat): CameraRef {
    if k == 0 then selected else NextSelection(registered, Cycle(registered, selected, k - 1))
  }

  /** Starting from the overview camera, the k-th call selects the k-th
      registered camera: each registered camera is visited once, in
      registration order. */
  lemma {:induction false} CycleVisitsInOrder(registered: seq<string>, k: nat)
    requires Distinct(registered) && 1 <= k <= |registered|
    ensures Cycle(registered, Overview, k) == Registered(registered[k - 1])
  {
    if k > 1 {
      CycleVisitsInOrder(registered, k - 1);
      NextOfRegistered(registered, k - 2);
    }
  }

  /** N + 1 calls from the overview camera, with N registered cameras, come back
      to the overview camera. */
  lemma {:induction false} CycleReturnsToOverview(registered: seq<string>)
    requires Distinct(registered)
    ensures Cycle(registered, Overview, |registered| + 1) == Overview
  {
    if |registered| > 0 {
      CycleVisitsInOrder(registered, |registered|);
      NextOfRegistered(registered, |registered| - 1);
    }
  }

  // ---------------------------------------------------------------------
  // Commands issued on selection changes and by the hide flag
  // ---------------------------------------------------------------------

  /** `hide = value` sent to every registered camera but `skip`, in
      registration order. */
  function HideCommands(registered: seq<string>, skip: CameraRef, value: real): seq<Command>
    decreases |registered|
  {
    if registered == [] then []
    else
      var last := Registered(registered[|registered| - 1]);
      HideCommands(registered[..|registered| - 1], skip, value)
        + (if last == skip then [] else [SetObject(last, "hide", [value])])
  }

  /** HideCommands reaches exactly the registered cameras other than `skip`,
      and only with `hide = value`. */
  lemma {:induction false} HideCommandsTargets(registered: seq<string>, skip: CameraRef, value: real)
    ensures forall c :: c in HideCommands(registered, skip, value) ==>
      c.SetObject? && c.attr == "hide" && c.values == [value]
      && c.target != skip && c.target.Registered? && c.target.name in registered
    ensures forall name :: name in registered && Registered(name) != skip ==>
      SetObject(Registered(name), "hide", [value]) in HideCommands(registered, skip, value)
    decreases |registered|
  {
    if registered != [] {
      var init := registered[..|registered| - 1];
      HideCommandsTargets(init, skip, value);
      forall name | name in registered && Registered(name) != skip
        ensures SetObject(Registered(name), "hide", [value]) in HideCommands(registered, skip, value)
      {
        if name != registered[|registered| - 1] {
          var i :| 0 <= i < |registered| && registered[i] == name;
          assert init[i] == name;
        }
      }
    }
  }

  /** Skipping the overview camera skips nobody: one command per registered camera. */
  lemma {:induction false} HideAllCount(registered: seq<string>, value: real)
    ensures |HideCommands(registered, Overview, value)| == |registered|
    decreases |registered|
  {
    if registered != [] {
      HideAllCount(registered[..|registered| - 1], value);
    }
  }

  /** What nextCamera (and the selection branch of render) sends when the
      selection moves from `previous` to `next`: show every camera, drop the
      overlay of the previous selection, raise it on the new one unless that is
      the overview camera. */
  function SelectionCommands(registered: seq<string>, previous: CameraRef, next: CameraRef): seq<Command> {
    HideCommands(registered, Overview, 0.0)
      + [SetObject(previous, "frame", [0.0]), SetObject(previous, "displayCalibration", [0.0])]
      + (if next != Overview then [SetObject(next, "frame", [1.0]), SetObject(next, "displayCalibration", [1.0])] else [])
  }

  /** nextCamera raises the frame and calibration overlay only on a registered
      camera, never on the overview camera; it always drops them on the
      previous selection and un-hides every registered camera. */
  lemma NextCameraOverlay(registered: seq<string>, previous: CameraRef)
    ensures var next := NextSelection(registered, previous);
      var cs := SelectionCommands(registered, previous, next);
      && (forall c :: c in cs && c.SetObject? && c.values == [1.0] ==> c.target == next && next != Overview)
      && (next != Overview <==> SetObject(next, "displayCalibration", [1.0]) in cs)
      && SetObject(previous, "displayCalibration", [0.0]) in cs
      && (forall c :: c in cs && c.SetObject? && c.attr == "hide" ==> c.values == [0.0])
      && (forall name :: name in registered ==> SetObject(Registered(name), "hide", [0.0]) in cs)
  {
    var next := NextSelection(registered, previous);
    HideCommandsTargets(registered, Overview, 0.0);
    var cs := SelectionCommands(registered, previous, next);
    if next == Overview {
      assert SetObject(next, "displayCalibration", [1.0]) !in cs by {
        assert SetObject(next, "displayCalibration", [1.0]) !in HideCommands(registered, Overview, 0.0);
      }
    }
  }

  /** What a click on a camera thumbnail in render (lines 106-132) sends when
      it selects `clicked`: hide = 0 to every camera of the list, the overview
      camera included; the overlay dropped on the previous selection and raised
      on the clicked one, whichever it is; the points display re-sent as it
      stands. */
  function ThumbnailCommands(registered: seq<string>, previous: CameraRef, clicked: CameraRef, showPoints: bool): seq<Command> {
    [SetObject(Overview, "hide", [0.0])] + HideCommands(registered, Overview, 0.0)
      + [ SetObject(previous, "frame", [0.0]), SetObject(previous, "displayCalibration", [0.0]),
          SetObject(clicked, "frame", [1.0]), SetObject(clicked, "displayCalibration", [1.0]),
          SetObject(clicked, "showAllCalibrationPoints", [VisibilityCode(Fixed(showPoints))]) ]
  }

  /** Clicking a registered camera's thumbnail issues what nextCamera issues for
      that selection, framed by a hide = 0 to the overview camera and the points
      display; clicking the overview camera's thumbnail, unlike nextCamera,
      raises the overlay on the overview camera itself. */
  lemma ThumbnailVersusNextCamera(registered: seq<string>, previous: CameraRef, clicked: CameraRef, showPoints: bool)
    ensures clicked != Overview ==>
      ThumbnailCommands(registered, previous, clicked, showPoints)
      == [SetObject(Overview, "hide", [0.0])] + SelectionCommands(registered, previous, clicked)
         + [SetObject(clicked, "showAllCalibrationPoints", [FlagValue(showPoints)])]
    ensures clicked == Overview ==>
      && SetObject(Overview, "displayCalibration", [1.0]) in ThumbnailCommands(registered, previous, clicked, showPoints)
      && SetObject(Overview, "displayCalibration", [1.0]) !in SelectionCommands(registered, previous, clicked)
  {
    HideCommandsTargets(registered, Overview, 0.0);
    if clicked == Overview {
      assert SetObject(Overview, "displayCalibration", [1.0]) !in HideCommands(registered, Overview, 0.0);
    }
  }

  /** A boolean flag as the number sent with it. */
  function FlagValue(b: bool): real { if b then 1.0 else 0.0 }

  /** The commands hideOtherCameras issues when asked for `hide` while
      `applied` is the value last applied. */
  function HideOthersCommands(registered: seq<string>, selected: CameraRef, request: bool, applied: bool): seq<Command> {
    if request == applied then [] else HideCommands(registered, selected, FlagValue(request))
  }

  /** hideOtherCameras never hides the selected camera, and a second call with
      the same flag issues nothing. */
  lemma HideOthersSparesSelection(registered: seq<string>, selected: CameraRef, request: bool, applied: bool)
    ensures forall c :: c in HideOthersCommands(registered, selected, request, applied) ==>
      c.SetObject? && c.target != selected && c.values == [FlagValue(request)]
    ensures request != applied ==> forall name :: name in registered && Registered(name) != selected ==>
      SetObject(Registered(name), "hide", [FlagValue(request)]) in HideOthersCommands(registered, selected, request, applied)
    ensures HideOthersCommands(registered, selected, request, request) == []
  {
    HideCommandsTargets(registered, selected, FlagValue(request));
  }

  // ---------------------------------------------------------------------
  // Wireframe colorization
  // ---------------------------------------------------------------------

  const MAGENTA: seq<real> := [1.0, 0.0, 1.0, 1.0]
  const GREEN: seq<real> := [0.0, 1.0, 0.0, 1.0]
  const WHITE: seq<real> := [1.0, 1.0, 1.0, 1.0]

  /** colorizeCameraWireframes does nothing when the value is already applied,
      or when colorizing is asked while the overview camera is selected. */
  predicate ColorizeSkipped(selected: CameraRef, colorize: bool, applied: bool) {
    (selected == Overview && colorize) || colorize == applied
  }

  function ColorizeCommands(selected: CameraRef, colorize: bool, applied: bool): seq<Command> {
    if ColorizeSkipped(selected, colorize, applied) then []
    else if colorize then
      [SetObjectsOfType("camera", "colorWireframe", MAGENTA), SetObject(selected, "colorWireframe", GREEN)]
    else
      [SetObjectsOfType("camera", "colorWireframe", WHITE)]
  }

  function ColorizeApplied(selected: CameraRef, colorize: bool, applied: bool): bool {
    if ColorizeSkipped(selected, colorize, applied) then applied else colorize
  }

  /** Enabling colors every camera magenta and then the selected one green,
      which is never the overview camera; disabling whitens every camera;
      repeating the same request issues nothing. */
  lemma ColorizeEffects(selected: CameraRef, colorize: bool, applied: bool)
    ensures var cs := ColorizeCommands(selected, colorize, applied);
      && (colorize && cs != [] ==>
            && cs == [SetObjectsOfType("camera", "colorWireframe", MAGENTA), SetObject(selected, "colorWireframe", GREEN)]
            && selected != Overview)
      && (!colorize && cs != [] ==> cs == [SetObjectsOfType("camera", "colorWireframe", WHITE)])
      && (cs == [] <==> ColorizeSkipped(selected, colorize, applied))
      && (forall c :: c in cs && c.SetObject? ==> c.target != Overview)
    ensures ColorizeCommands(selected, colorize, ColorizeApplied(selected, colorize, applied)) == []
  {
  }

  // ---------------------------------------------------------------------
  // Calibration history
  // ---------------------------------------------------------------------

  /** The history left by revertCalibration and the snapshot it reapplies. */
  datatype Reverted = Reverted(history: seq<Pose>, applied: Option<Pose>)

  function Revert(history: seq<Pose>): Reverted {
    if history == [] then Reverted([], None)
    else
      Reverted(if |history| > 1 then history[..|history| - 1] else history, Some(history[|history| - 1]))
  }

  /** Revert never empties a non-empty history, always keeps the very first
      snapshot, and shrinks the history by one until only that one is left. */
  lemma RevertKeepsFirst(history: seq<Pose>)
    ensures history == [] ==> Revert(history) == Reverted([], None)
    ensures history != [] ==>
      && Revert(history).applied == Some(history[|history| - 1])
      && Revert(history).history != []
      && Revert(history).history[0] == history[0]
      && |Revert(history).history| == (if |history| > 1 then |history| - 1 else 1)
      && Revert(history).history == history[..|Revert(history).history|]
  {
  }

  /** A revert right after a calibration reapplies the pose the calibration
      started from and restores the history it found, unless that history was
      empty, in which case the snapshot is kept as the first calibration. */
  lemma CalibrateThenRevert(history: seq<Pose>, before: Pose)
    ensures Revert(history + [before]).applied == Some(before)
    ensures Revert(history + [before]).history == if history == [] then [before] else history
  {
    if history != [] {
      assert (history + [before])[..|history|] == history;
    }
  }

  /** The history after k reverts, and the snapshots they reapplied, in order. */
  function RevertMany(history: seq<Pose>, k: nat): (seq<Pose>, seq<Option<Pose>>) {
    if k == 0 then (history, [])
    else
      var r := Revert(history);
      var next := RevertMany(r.history, k - 1);
      (next.0, [r.applied] + next.1)
  }

  function Max(a: int, b: int): int { if a < b then b else a }

  /** k reverts on a history of n snapshots reapply them newest first, and once
      only the first calibration is left they keep reapplying it. */
  lemma {:induction false} RepeatedRevert(history: seq<Pose>, k: nat)
    requires history != []
    ensures RevertMany(history, k).0 == history[..Max(1, |history| - k)]
    ensures |RevertMany(history, k).1| == k
    ensures forall j :: 0 <= j < k ==> RevertMany(history, k).1[j] == Some(history[Max(0, |history| - 1 - j)])
  {
    if k > 0 {
      var r := Revert(history);
      RevertKeepsFirst(history);
      RepeatedRevert(r.history, k - 1);
      var rest := RevertMany(r.history, k - 1).1;
      assert RevertMany(history, k).1 == [r.applied] + rest;
      if |history| > 1 {
        assert r.history == history[..|history| - 1];
        forall j | 0 <= j < k
          ensures RevertMany(history, k).1[j] == Some(history[Max(0, |history| - 1 - j)])
        {
          if j > 0 {
            assert RevertMany(history, k).1[j] == rest[j - 1];
          }
        }
      } else {
        assert r.history == history;
        forall j | 0 <= j < k
          ensures RevertMany(history, k).1[j] == Some(history[Max(0, |history| - 1 - j)])
        {
          if j > 0 {
            assert RevertMany(history, k).1[j] == rest[j - 1];
          }
        }
      }
    }
  }

  /** doCalibration: the solve itself, then propagateCalibration. */
  function CalibrationCommands(selected: CameraRef): seq<Command> {
    [Invoke(selected, "doCalibration", [])] + ForwardPose(selected)
  }

  /** revertCalibration sends the same attributes, in the same order, as the
      propagation that follows a calibration, so a revert overwrites all of it. */
  lemma RevertOverwritesCalibration(selected: CameraRef, p: Pose)
    ensures |PoseCommands(selected, p)| == |ForwardPose(selected)|
    ensures forall k :: 0 <= k < |PoseCommands(selected, p)| ==>
      PoseCommands(selected, p)[k].attr == ForwardPose(selected)[k].attr
      && PoseCommands(selected, p)[k].target == ForwardPose(selected)[k].target
  {
  }

  // ---------------------------------------------------------------------
  // Calibration points display
  // ---------------------------------------------------------------------

  /** Camera::CalibrationPointsVisibility: either toggle, or a fixed mode. */
  datatype PointsVisibility = SwitchVisibility | Fixed(showAll: bool)

  /** Numeric code of switchVisibility in Camera::CalibrationPointsVisibility. */
  const SWITCH_VISIBILITY_CODE: real := -1.0

  function VisibilityCode(mode: PointsVisibility): real {
    match mode
    case SwitchVisibility => SWITCH_VISIBILITY_CODE
    case Fixed(all) => if all then 1.0 else 0.0
  }

  // ---------------------------------------------------------------------
  // Joystick
  // ---------------------------------------------------------------------

  /** A button's state on the previous tick; a button the previous tick did not
      report counts as released. */
  function PreviousButton(previous: seq<int>, k: nat): int {
    if k < |previous| then previous[k] else 0
  }

  /** A button acts only on the tick it goes down. */
  predicate RisingEdge(buttons: seq<int>, previous: seq<int>, k: nat)
    requires k < |buttons|
  {
    buttons[k] == 1 && buttons[k] != PreviousButton(previous, k)
  }

  datatype ButtonAction = SelectPreviousPoint | SelectNextPoint | SpeedUp | CalibrateNow | NoButtonAction

  /** The first else-if chain of processJoystickState, over buttons 0 to 3. */
  function FirstButtons(buttons: seq<int>, previous: seq<int>): ButtonAction {
    if |buttons| < 4 then NoButtonAction
    else if RisingEdge(buttons, previous, 0) then SelectPreviousPoint
    else if RisingEdge(buttons, previous, 1) then SelectNextPoint
    else if buttons[2] == 1 then SpeedUp
    else if RisingEdge(buttons, previous, 3) then CalibrateNow
    else NoButtonAction
  }

  datatype ToggleAction = SwitchPoints | ToggleHide | NoToggle

  /** The second else-if chain, over buttons 4 and 5. */
  function LastButtons(buttons: seq<int>, previous: seq<int>): ToggleAction {
    if |buttons| < 6 then NoToggle
    else if RisingEdge(buttons, previous, 4) then SwitchPoints
    else if RisingEdge(buttons, previous, 5) then ToggleHide
    else NoToggle
  }

  /** Holding the same buttons for a second tick triggers nothing again (only
      button 2, the speed modifier, is level-triggered). */
  lemma HeldButtonsActOnce(buttons: seq<int>)
    ensures FirstButtons(buttons, buttons) == SpeedUp || FirstButtons(buttons, buttons) == NoButtonAction
    ensures LastButtons(buttons, buttons) == NoToggle
  {
  }

  /** Each action of the first chain happens exactly when its button goes
      down and no button earlier in the chain acted. */
  lemma ButtonPriority(buttons: seq<int>, previous: seq<int>)
    requires |buttons| >= 4
    ensures FirstButtons(buttons, previous) == SelectPreviousPoint <==> RisingEdge(buttons, previous, 0)
    ensures FirstButtons(buttons, previous) == SelectNextPoint
      <==> !RisingEdge(buttons, previous, 0) && RisingEdge(buttons, previous, 1)
    ensures FirstButtons(buttons, previous) == CalibrateNow
      <==> !RisingEdge(buttons, previous, 0) && !RisingEdge(buttons, previous, 1) && buttons[2] != 1
           && RisingEdge(buttons, previous, 3)
  {
  }

  /** The state processJoystickState reads, as it reads it at
      src/widget_global_view.cpp:381-405: `_joyButtonsPrevious[k]` with no size
      check. `None` is an out-of-range read. */
  function RawPrevious(previous: seq<int>, k: nat): Option<int> {
    if k < |previous| then Some(previous[k]) else None
  }

  /** The first chain exactly as written: a button's previous state is read only
      once the button is found down (the `&&` short-circuits), and an
      out-of-range read makes the result undefined (`None`). */
  function FirstButtonsAsWritten(buttons: seq<int>, previous: seq<int>): Option<ButtonAction> {
    if |buttons| < 4 then Some(NoButtonAction)
    else if buttons[0] == 1 && RawPrevious(previous, 0).None? then None
    else if buttons[0] == 1 && buttons[0] != RawPrevious(previous, 0).value then Some(SelectPreviousPoint)
    else if buttons[1] == 1 && RawPrevious(previous, 1).None? then None
    else if buttons[1] == 1 && buttons[1] != RawPrevious(previous, 1).value then Some(SelectNextPoint)
    else if buttons[2] == 1 then Some(SpeedUp)
    else if buttons[3] == 1 && RawPrevious(previous, 3).None? then None
    else if buttons[3] == 1 && buttons[3] != RawPrevious(previous, 3).value then Some(CalibrateNow)
    else Some(NoButtonAction)
  }

  /** The as-written chain agrees with FirstButtons whenever the previous tick
      reported at least as many buttons as this one. */
  lemma AsWrittenAgreesWhenSized(buttons: seq<int>, previous: seq<int>)
    requires |previous| >= |buttons|
    ensures FirstButtonsAsWritten(buttons, previous) == Some(FirstButtons(buttons, previous))
  {
  }

  /** A tick without a joystick update leaves `_joyButtonsPrevious` empty (it is
      assigned the cleared `_joyButtons`); pressing button 0 on the next tick
      then reads past its end, where the intended reading (FirstButtons) selects
      the previous calibration point. */
  lemma FirstPressAfterIdleTickReadsPastEnd()
    ensures FirstButtonsAsWritten([1, 0, 0, 0], []) == None
    ensures FirstButtons([1, 0, 0, 0], []) == SelectPreviousPoint
  {
  }

  /** The second chain exactly as written, with the same unchecked reads of
      `_joyButtonsPrevious[4]` and `[5]`. */
  function LastButtonsAsWritten(buttons: seq<int>, previous: seq<int>): Option<ToggleAction> {
    if |buttons| < 6 then Some(NoToggle)
    else if buttons[4] == 1 && RawPrevious(previous, 4).None? then None
    else if buttons[4] == 1 && buttons[4] != RawPrevious(previous, 4).value then Some(SwitchPoints)
    else if buttons[5] == 1 && RawPrevious(previous, 5).None? then None
    else if buttons[5] == 1 && buttons[5] != RawPrevious(previous, 5).value then Some(ToggleHide)
    else Some(NoToggle)
  }

  /** The second chain as written agrees with LastButtons whenever the previous
      tick reported at least as many buttons as this one. */
  lemma LastAsWrittenAgreesWhenSized(buttons: seq<int>, previous: seq<int>)
    requires |previous| >= |buttons|
    ensures LastButtonsAsWritten(buttons, previous) == Some(LastButtons(buttons, previous))
  {
  }

  /** A six-button joystick whose previous tick reported only four buttons (or
      none): pressing button 4 reads past the end of `_joyButtonsPrevious`,
      where the intended reading switches the points display. */
  lemma FifthPressAfterShortTickReadsPastEnd()
    ensures LastButtonsAsWritten([0, 0, 0, 0, 1, 0], [0, 0, 0, 0]) == None
    ensures LastButtonsAsWritten([0, 0, 0, 0, 1, 0], []) == None
    ensures LastButtons([0, 0, 0, 0, 1, 0], []) == SwitchPoints
  {
  }

  /** Commands of the first chain. */
  function ButtonCommands(selected: CameraRef, action: ButtonAction): seq<Command> {
    match action
    case SelectPreviousPoint => [SetObject(selected, "selectPreviousCalibrationPoint", [])]
    case SelectNextPoint => [SetObject(selected, "selectNextCalibrationPoint", [])]
    case CalibrateNow => CalibrationCommands(selected)
    case _ => []
  }

  /** Commands of the second chain: only the points toggle talks to the camera;
      the hide toggle changes the requested flag, applied later. */
  function ToggleCommands(selected: CameraRef, toggle: ToggleAction): seq<Command> {
    if toggle == SwitchPoints then [SetObject(selected, "showAllCalibrationPoints", [VisibilityCode(SwitchVisibility)])]
    else []
  }

  /** A deflected stick nudges the selected calibration point and propagates
      the result; the nudge the camera receives is (0, 0). */
  function AxesCommands(selected: CameraRef, axes: seq<real>): seq<Command> {
    if |axes| >= 2 && (axes[0] != 0.0 || -axes[1] != 0.0) then
      [Invoke(selected, "moveCalibrationPoint", [0.0, 0.0])] + ForwardPose(selected)
    else []
  }

  // ---------------------------------------------------------------------
  // Keyboard
  // ---------------------------------------------------------------------

  /** Keyboard state of one frame. Letter fields are true on the frame the key
      goes down; arrow fields on the frame the arrow goes down. */
  datatype KeyInput = KeyInput(
    hovered: bool,
    space: bool, a: bool, c: bool, h: bool, o: bool, v: bool, z: bool,
    ctrl: bool, shift: bool,
    right: bool, left: bool, down: bool, up: bool)

  datatype KeyAction =
    | Ignored | CycleCamera | SwitchPointsDisplay | Calibrate | ToggleHideOthers
    | SwitchPointsEverywhere | ToggleColorize | Undo | Nudge(delta: real)

  /** Arrow nudge size: shift wins over ctrl. */
  function NudgeDelta(shift: bool, ctrl: bool): (d: real)
    ensures d == 0.1 || d == 1.0 || d == 10.0
    ensures shift ==> d == 0.1
    ensures d == 10.0 <==> !shift && ctrl
  {
    if shift then 0.1 else if ctrl then 10.0 else 1.0
  }

  /** processKeyEvents: the first key pressed this frame, in the order space,
      A, C, H, O, V, Z, decides; otherwise the arrows nudge. */
  function KeyActionOf(keys: KeyInput): KeyAction {
    if !keys.hovered then Ignored
    else if keys.space then CycleCamera
    else if keys.a then SwitchPointsDisplay
    else if keys.c then Calibrate
    else if keys.h then ToggleHideOthers
    else if keys.o then SwitchPointsEverywhere
    else if keys.v then ToggleColorize
    else if keys.z then (if keys.ctrl then Undo else Ignored)
    else Nudge(NudgeDelta(keys.shift, keys.ctrl))
  }

  /** Ctrl+Z is the only way to revert from the keyboard, and a plain Z does nothing. */
  lemma RevertNeedsCtrl(keys: KeyInput)
    ensures KeyActionOf(keys) == Undo ==> keys.ctrl && keys.z && keys.hovered
    ensures keys.hovered && keys.z && !keys.space && !keys.a && !keys.c && !keys.h && !keys.o && !keys.v ==>
      KeyActionOf(keys) == (if keys.ctrl then Undo else Ignored)
  {
  }

  /** The nudges the arrows pressed this frame ask for: right, left, down, up. */
  function NudgeMoves(keys: KeyInput, delta: real): (moves: seq<Vec2>)
    ensures |moves| <= 4
    ensures forall m :: m in moves ==> (m.y == 0.0 && (m.x == delta || m.x == -delta)) || (m.x == 0.0 && (m.y == delta || m.y == -delta))
  {
    (if keys.right then [Vec2(delta, 0.0)] else [])
    + (if keys.left then [Vec2(-delta, 0.0)] else [])
    + (if keys.down then [Vec2(0.0, -delta)] else [])
    + (if keys.up then [Vec2(0.0, delta)] else [])
  }

  /** Each nudge is followed by a propagation of the camera's pose. */
  function NudgeCommands(selected: CameraRef, moves: seq<Vec2>): seq<Command>
    decreases |moves|
  {
    if moves == [] then []
    else
      NudgeCommands(selected, moves[..|moves| - 1])
        + [Invoke(selected, "moveCalibrationPoint", [moves[|moves| - 1].x, moves[|moves| - 1].y])]
        + ForwardPose(selected)
  }

  // ---------------------------------------------------------------------
  // Mouse
  // ---------------------------------------------------------------------

  /** Mouse state of one frame. `pos` is the cursor position normalized to the
      view; `rightHeld` is MouseDownDuration[1] > 0; `hoveredRect` and
      `hovered` are the two hover tests of the view image. */
  datatype MouseInput = MouseInput(
    hoveredRect: bool, hovered: bool,
    leftDown: bool, leftClicked: bool, rightClicked: bool, rightHeld: bool,
    wheel: real, ctrl: bool, shift: bool, pos: Vec2, delta: Vec2)

  /** What the opaque camera answers to this frame's queries. */
  datatype CameraReplies = CameraReplies(
    pickedCalibrationPoint: seq<real>,   // pickCalibrationPoint
    pickedVertex: seq<real>,             // pickVertexOrCalibrationPoint
    fragment: seq<real>,                 // pickFragment
    fragmentDepth: real,                 // depth written by pickFragment
    fov: real)                           // getAttribute("fov")

  /** Field of view after a wheel step: always within [2, 180], unchanged
      inside that range, clamped at its ends. */
  function ClampFov(f: real): (r: real)
    ensures 2.0 <= r <= 180.0
    ensures 2.0 <= f <= 180.0 ==> r == f
    ensures f < 2.0 ==> r == 2.0
    ensures f > 180.0 ==> r == 180.0
  {
    if f < 2.0 then 2.0 else if f > 180.0 then 180.0 else f
  }

  /** Reference distance for pan and dolly after a right click: 1 when nothing
      was hit, a tenth of the view-space depth otherwise (depths in front of
      the camera are negative, so the distance is positive there). */
  function PivotDistance(depth: real): (d: real)
    ensures depth == 0.0 ==> d == 1.0
    ensures depth != 0.0 ==> d * 10.0 == -depth
    ensures depth <= 0.0 ==> d > 0.0
  {
    if depth == 0.0 then 1.0 else -depth * 0.1
  }

  /** The commands of a left press on the view (lines 519-546): nothing on the
      overview camera; ctrl-click removes the picked calibration point; shift
      binds the cursor to the selected point; a plain click adds the picked
      vertex or deselects. */
  function LeftButtonCommands(selected: CameraRef, m: MouseInput, replies: CameraReplies): seq<Command> {
    if selected == Overview then []
    else if m.ctrl && m.leftClicked then
      (if |replies.pickedCalibrationPoint| == 3 then [SetObject(selected, "removeCalibrationPoint", replies.pickedCalibrationPoint)] else [])
    else if m.shift then
      [SetObject(selected, "setCalibrationPoint", [m.pos.x * 2.0 - 1.0, m.pos.y * 2.0 - 1.0])]
    else if m.leftClicked then
      (if |replies.pickedVertex| == 3 then [SetObject(selected, "addCalibrationPoint", replies.pickedVertex)]
       else [SetObject(selected, "deselectCalibrationPoint", [])])
    else []
  }

  /** Left presses never reach the overview camera, and a calibration point is
      added only with a picked 3D position. */
  lemma LeftButtonOnRegisteredOnly(selected: CameraRef, m: MouseInput, replies: CameraReplies)
    ensures selected == Overview ==> LeftButtonCommands(selected, m, replies) == []
    ensures forall c :: c in LeftButtonCommands(selected, m, replies) ==>
      c.SetObject? && c.target == selected && (c.attr == "addCalibrationPoint" ==> |c.values| == 3)
  {
  }

  /** The command of a wheel step, if any (lines 560-573). */
  function WheelCommands(selected: CameraRef, wheel: real, currentFov: real): seq<Command> {
    if wheel != 0.0 then [Send(selected, "fov", [ClampFov(currentFov + wheel)])] else []
  }

  /** Every field of view sent by a wheel step is within [2, 180]. */
  lemma WheelFovInRange(selected: CameraRef, wheel: real, currentFov: real)
    ensures forall c :: c in WheelCommands(selected, wheel, currentFov) ==>
      c.attr == "fov" && |c.values| == 1 && 2.0 <= c.values[0] <= 180.0
    ensures wheel == 0.0 <==> WheelCommands(selected, wheel, currentFov) == []
  {
  }

  /** Whether the view is captured for dragging after this frame (lines
      576-586): a right press that is held captures it once the cursor is over
      the view, and releasing the right button frees it. */
  function CaptureAfter(captured: bool, m: MouseInput): bool {
    if m.rightHeld then captured || m.hovered else false
  }

  /** A drag happens only while the right button is held, and starts only over
      the view. */
  lemma CaptureNeedsRightButton(captured: bool, m: MouseInput)
    ensures CaptureAfter(captured, m) ==> m.rightHeld
    ensures !captured ==> (CaptureAfter(captured, m) <==> m.rightHeld && m.hovered)
    ensures captured && m.rightHeld ==> CaptureAfter(captured, m)
  {
  }

  /** A mouse offset scaled by the reference distance, in hundredths. */
  function DragStep(offset: real, distance: real): real {
    offset * distance / 100.0
  }

  /** The commands of a drag while the view is captured (lines 589-633):
      rotate without modifier, pan with shift, dolly with ctrl, nothing with both. */
  function DragCommands(selected: CameraRef, m: MouseInput, pivot: seq<real>, distance: real): seq<Command> {
    if !m.ctrl && !m.shift then
      [SetObject(selected, "up", [0.0, 0.0, 1.0])]
      + (if |pivot| == 3 then [Send(selected, "rotateAroundPoint", [m.delta.x / 100.0, m.delta.y / 100.0, 0.0] + pivot)]
         else [Send(selected, "rotateAroundTarget", [m.delta.x / 100.0, m.delta.y / 100.0, 0.0])])
    else if m.shift && !m.ctrl then
      [Send(selected, "pan", [-DragStep(m.delta.x, distance), DragStep(m.delta.y, distance), 0.0])]
    else if !m.shift && m.ctrl then
      [Send(selected, "forward", [DragStep(m.delta.y, distance)])]
    else []
  }

  /** Panning and dollying move in proportion to the reference distance set by
      the last right click; with both modifiers held a drag does nothing. */
  lemma DragScalesWithDistance(selected: CameraRef, m: MouseInput, pivot: seq<real>, distance: real)
    ensures m.shift && !m.ctrl ==>
      DragCommands(selected, m, pivot, distance) == [Send(selected, "pan", [-DragStep(m.delta.x, distance), DragStep(m.delta.y, distance), 0.0])]
    ensures !m.shift && m.ctrl ==>
      DragCommands(selected, m, pivot, distance) == [Send(selected, "forward", [DragStep(m.delta.y, distance)])]
    ensures m.shift && m.ctrl ==> DragCommands(selected, m, pivot, distance) == []
  {
  }

  /** Rotating ignores the reference distance, always resets the up vector first,
      and turns around the picked point exactly when one was found. */
  lemma RotateIgnoresDistance(selected: CameraRef, m: MouseInput, pivot: seq<real>, d1: real, d2: real)
    requires !m.shift && !m.ctrl
    ensures DragCommands(selected, m, pivot, d1) == DragCommands(selected, m, pivot, d2)
    ensures |DragCommands(selected, m, pivot, d1)| == 2
    ensures DragCommands(selected, m, pivot, d1)[0] == SetObject(selected, "up", [0.0, 0.0, 1.0])
    ensures DragCommands(selected, m, pivot, d1)[1].attr == (if |pivot| == 3 then "rotateAroundPoint" else "rotateAroundTarget")
  {
  }
}
