/** The global calibration view of the GUI: the selected camera, the undo
    history of its calibration, the display flags and the joystick state of
    the previous tick. Every effect on the rest of the engine is appended to
    `log`; the registry's camera list (getObjectsOfType("camera")) and the
    answers of the opaque camera object are parameters. */
module GlobalView {
  import opened CameraCommands
  import opened GlobalViewSpec

  class GuiGlobalView {
    /** _camera: the selected camera; the overview camera is _guiCamera. */
    var camera: CameraRef
    /** _previousCameraParameters, oldest snapshot first. */
    var history: seq<Pose>
    /** _camerasHidden: the hide flag last applied by hideOtherCameras. */
    var camerasHidden: bool
    /** _hideCameras: the hide flag the user asks for. */
    var hideCameras: bool
    /** _camerasColorized: the colorize flag the user asks for. */
    var camerasColorized: bool
    /** _camerasColorizedPreviousValue: the colorize flag last applied. */
    var colorizedApplied: bool
    /** _showCalibrationPoints */
    var showCalibrationPoints: bool
    var joyButtons: seq<int>
    var joyAxes: seq<real>
    var joyButtonsPrevious: seq<int>
    /** _newTarget: the fragment picked by the last right click (empty when none). */
    var newTarget: seq<real>
    /** _newTargetDistance: the reference distance for pan and dolly. */
    var newTargetDistance: real
    var previousPointAdded: seq<real>
    /** The function-static `viewCaptured` of processMouseEvents. */
    var viewCaptured: bool
    /** Every command sent so far, oldest first. */
    var log: seq<Command>

    /** setCamera with the overview camera: it becomes the selection and is
        given an 800x600 size. The other fields start at assumed values (the
        header that initialises them is not part of this model): no history,
        every flag off, no joystick state, no pick and a unit distance. */
    constructor ()
      ensures camera == Overview && history == [] && !viewCaptured
      ensures !camerasHidden && !hideCameras && !camerasColorized && !colorizedApplied && !showCalibrationPoints
      ensures joyButtons == [] && joyAxes == [] && joyButtonsPrevious == []
      ensures newTarget == [] && newTargetDistance == 1.0 && previousPointAdded == []
      ensures log == [SetAttribute(Overview, "size", [800.0, 600.0])]
    {
      camera := Overview;
      history := [];
      camerasHidden := false;
      hideCameras := false;
      camerasColorized := false;
      colorizedApplied := false;
      showCalibrationPoints := false;
      joyButtons := [];
      joyAxes := [];
      joyButtonsPrevious := [];
      newTarget := [];
      newTargetDistance := 1.0;
      previousPointAdded := [];
      viewCaptured := false;
      log := [SetAttribute(Overview, "size", [800.0, 600.0])];
    }

    /** setJoystick: the latest joystick state, read on the next tick. */
    method SetJoystick(axes: seq<real>, buttons: seq<int>)
      modifies this`joyAxes, this`joyButtons
      ensures joyAxes == axes && joyButtons == buttons
    {
      joyAxes := axes;
      joyButtons := buttons;
    }

    /** getCameras: resizes the overview camera to the window, draws one
        camera model per registered camera into it, and lists the overview
        camera followed by the registered cameras. */
    method GetCameras(registered: seq<string>, windowWidth: real) returns (cameras: seq<CameraRef>)
      modifies this`log
      ensures cameras == AllCameras(registered)
      ensures log == old(log) + [SetAttribute(Overview, "size", [windowWidth, windowWidth * 3.0 / 4.0])]
                     + seq(|registered|, _ => Invoke(Overview, "drawModelOnce", []))
    {
      log := log + [SetAttribute(Overview, "size", [windowWidth, windowWidth * 3.0 / 4.0])];
      ghost var start := log;
      var i := 0;
      while i < |registered|
        invariant 0 <= i <= |registered|
        invariant log == start + seq(i, _ => Invoke(Overview, "drawModelOnce", []))
      {
        log := log + [Invoke(Overview, "drawModelOnce", [])];
        i := i + 1;
      }
      cameras := [Overview];
      i := 0;
      while i < |registered|
        invariant 0 <= i <= |registered|
        invariant cameras == AllCameras(registered[..i])
      {
        cameras := cameras + [Registered(registered[i])];
        i := i + 1;
        assert AllCameras(registered[..i]) == AllCameras(registered[..i - 1]) + [Registered(registered[i - 1])];
      }
      assert registered[..i] == registered;
    }

    /** Sends `hide = value` to every registered camera but `skip`, in
        registration order. */
    method HideLoop(registered: seq<string>, skip: CameraRef, value: real)
      modifies this`log
      ensures log == old(log) + HideCommands(registered, skip, value)
    {
      var i := 0;
      while i < |registered|
        invariant 0 <= i <= |registered|
        invariant log == old(log) + HideCommands(registered[..i], skip, value)
      {
        if Registered(registered[i]) != skip {
          log := log + [SetObject(Registered(registered[i]), "hide", [value])];
        }
        i := i + 1;
        assert registered[..i][..i - 1] == registered[..i - 1];
      }
      assert registered[..i] == registered;
    }

    /** nextCamera: selects the camera after the current one in registration
        order, going through the overview camera between the last one and the
        first; clears the undo history and shows every camera. */
    method NextCamera(registered: seq<string>)
      modifies this`camera, this`history, this`camerasHidden, this`camerasColorized, this`log
      ensures camera == NextSelection(registered, old(camera))
      ensures history == [] && !camerasHidden && !camerasColorized
      ensures log == old(log) + SelectionCommands(registered, old(camera), camera)
    {
      history := [];
      camerasHidden := false;
      camerasColorized := false;
      HideLoop(registered, Overview, 0.0);
      log := log + [SetObject(camera, "frame", [0.0]), SetObject(camera, "displayCalibration", [0.0])];

      if |registered| == 0 {
        camera := Overview;
      } else if camera == Overview {
        camera := Registered(registered[0]);
      } else {
        var i := 0;
        while i < |registered|
          invariant 0 <= i <= |registered|
          invariant camera == old(camera)
          invariant forall j :: 0 <= j < i ==> registered[j] != camera.name
          decreases |registered| - i
        {
          if registered[i] == camera.name && i == |registered| - 1 {
            camera := Overview;
            break;
          } else if registered[i] == camera.name {
            camera := Registered(registered[i + 1]);
            break;
          }
          i := i + 1;
        }
      }

      if camera != Overview {
        log := log + [SetObject(camera, "frame", [1.0]), SetObject(camera, "displayCalibration", [1.0])];
      }
    }

    /** Sends `hide = 0` to every camera getCameras lists, the overview camera
        included. */
    method ShowEveryCamera(registered: seq<string>)
      modifies this`log
      ensures log == old(log) + [SetObject(Overview, "hide", [0.0])] + HideCommands(registered, Overview, 0.0)
    {
      var cameras := AllCameras(registered);
      var i := 0;
      while i < |cameras|
        invariant 0 <= i <= |cameras|
        invariant log == old(log) + (if i == 0 then [] else [SetObject(Overview, "hide", [0.0])] + HideCommands(registered[..i - 1], Overview, 0.0))
      {
        log := log + [SetObject(cameras[i], "hide", [0.0])];
        i := i + 1;
        if i > 1 {
          assert registered[..i - 1][..i - 2] == registered[..i - 2];
        }
      }
      assert registered[..i - 1] == registered;
    }

    /** The selection branch of render: a click on a thumbnail either hides
        that camera (with ctrl, sending -1) or selects it. */
    method SelectThumbnail(registered: seq<string>, clicked: CameraRef, ctrl: bool)
      requires clicked in AllCameras(registered)
      modifies this`camera, this`history, this`camerasHidden, this`camerasColorized, this`log
      ensures ctrl ==>
        && camera == old(camera) && history == old(history)
        && camerasHidden == old(camerasHidden) && camerasColorized == old(camerasColorized)
        && log == old(log) + [SetObject(clicked, "hide", [-1.0])]
      ensures !ctrl ==>
        && camera == clicked && history == [] && !camerasHidden && !camerasColorized
        && log == old(log) + ThumbnailCommands(registered, old(camera), clicked, showCalibrationPoints)
    {
      if ctrl {
        log := log + [SetObject(clicked, "hide", [-1.0])];
      } else {
        history := [];
        camerasHidden := false;
        camerasColorized := false;
        ShowEveryCamera(registered);
        log := log + [SetObject(camera, "frame", [0.0]), SetObject(camera, "displayCalibration", [0.0])];
        camera := clicked;
        log := log + [SetObject(camera, "frame", [1.0]), SetObject(camera, "displayCalibration", [1.0])];
        log := log + [SetObject(camera, "showAllCalibrationPoints", [VisibilityCode(Fixed(showCalibrationPoints))])];
      }
    }

    /** revertCalibration: reapplies the newest snapshot to the selected
        camera and drops it, keeping the very first one. */
    method RevertCalibration()
      modifies this`history, this`log
      ensures history == Revert(old(history)).history
      ensures log == old(log) + match Revert(old(history)).applied
                                case None => []
                                case Some(p) => PoseCommands(camera, p)
    {
      if |history| == 0 {
        return;
      }
      var params := history[|history| - 1];
      if |history| > 1 {
        history := history[..|history| - 1];
      }
      log := log + [ SetObject(camera, "eye", [params.eye.x, params.eye.y, params.eye.z]),
                     SetObject(camera, "target", [params.target.x, params.target.y, params.target.z]),
                     SetObject(camera, "up", [params.up.x, params.up.y, params.up.z]),
                     SetObject(camera, "fov", [params.fov]),
                     SetObject(camera, "principalPoint", [params.principalPoint.x, params.principalPoint.y]) ];
    }

    /** propagateCalibration: the camera's pose attributes, as it reports them,
        are sent to its object. */
    method PropagateCalibration()
      modifies this`log
      ensures log == old(log) + ForwardPose(camera)
    {
      var i := 0;
      while i < |PoseAttributes|
        invariant 0 <= i <= |PoseAttributes|
        invariant log == old(log) + ForwardPose(camera)[..i]
      {
        log := log + [Forward(camera, PoseAttributes[i])];
        i := i + 1;
      }
    }

    /** doCalibration: `current` is the pose the selected camera reports before
        the solve; it is pushed on the history, then the camera solves and the
        result is propagated. */
    method DoCalibration(current: Pose)
      modifies this`history, this`log
      ensures history == old(history) + [current]
      ensures log == old(log) + CalibrationCommands(camera)
    {
      history := history + [current];
      log := log + [Invoke(camera, "doCalibration", [])];
      PropagateCalibration();
    }

    /** showAllCalibrationPoints: a switch request flips the local flag; the
        request is always forwarded to the selected camera. */
    method ShowAllCalibrationPoints(mode: PointsVisibility)
      modifies this`showCalibrationPoints, this`log
      ensures showCalibrationPoints == if mode == SwitchVisibility then !old(showCalibrationPoints) else old(showCalibrationPoints)
      ensures log == old(log) + [SetObject(camera, "showAllCalibrationPoints", [VisibilityCode(mode)])]
    {
      if mode == SwitchVisibility {
        showCalibrationPoints := !showCalibrationPoints;
      }
      log := log + [SetObject(camera, "showAllCalibrationPoints", [VisibilityCode(mode)])];
    }

    /** showAllCamerasCalibrationPoints */
    method ShowAllCamerasCalibrationPoints()
      modifies this`log
      ensures log == old(log) + [Send(camera, "switchDisplayAllCalibration", [])]
    {
      if camera == Overview {
        log := log + [SetAttribute(Overview, "switchDisplayAllCalibration", [])];
      } else {
        log := log + [SetObject(camera, "switchDisplayAllCalibration", [])];
      }
    }

    /** hideOtherCameras: applies a changed hide flag to every camera but the
        selected one, then records it as applied. */
    method HideOtherCameras(registered: seq<string>, request: bool)
      modifies this`camerasHidden, this`log
      ensures camerasHidden == request
      ensures log == old(log) + HideOthersCommands(registered, camera, request, old(camerasHidden))
    {
      if request == camerasHidden {
        return;
      }
      HideLoop(registered, camera, FlagValue(request));
      camerasHidden := request;
    }

    /** colorizeCameraWireframes */
    method ColorizeCameraWireframes(colorize: bool)
      modifies this`colorizedApplied, this`log
      ensures colorizedApplied == ColorizeApplied(camera, colorize, old(colorizedApplied))
      ensures log == old(log) + ColorizeCommands(camera, colorize, old(colorizedApplied))
    {
      if (camera == Overview && colorize) || colorize == colorizedApplied {
        return;
      }
      colorizedApplied := colorize;
      if colorize {
        log := log + [SetObjectsOfType("camera", "colorWireframe", MAGENTA), SetObject(camera, "colorWireframe", GREEN)];
      } else {
        log := log + [SetObjectsOfType("camera", "colorWireframe", WHITE)];
      }
    }

    /** The end of render: the requested hide and colorize flags are applied.
        Afterwards both are in their applied state, so a second call issues
        nothing (HideOthersSparesSelection, ColorizeEffects). */
    method ApplyDisplayOptions(registered: seq<string>)
      modifies this`camerasHidden, this`colorizedApplied, this`log
      ensures camerasHidden == hideCameras
      ensures colorizedApplied == ColorizeApplied(camera, camerasColorized, old(colorizedApplied))
      ensures log == old(log) + HideOthersCommands(registered, camera, hideCameras, old(camerasHidden))
                     + ColorizeCommands(camera, camerasColorized, old(colorizedApplied))
    {
      HideOtherCameras(registered, hideCameras);
      ColorizeCameraWireframes(camerasColorized);
    }

    /** The first button chain of processJoystickState (buttons 0 to 3). */
    method JoystickButtons(current: Pose)
      modifies this`history, this`log
      ensures var action := FirstButtons(joyButtons, joyButtonsPrevious);
        && history == (if action == CalibrateNow then old(history) + [current] else old(history))
        && log == old(log) + ButtonCommands(camera, action)
    {
      if |joyButtons| >= 4 {
        if joyButtons[0] == 1 && joyButtons[0] != PreviousButton(joyButtonsPrevious, 0) {
          log := log + [SetObject(camera, "selectPreviousCalibrationPoint", [])];
        } else if joyButtons[1] == 1 && joyButtons[1] != PreviousButton(joyButtonsPrevious, 1) {
          log := log + [SetObject(camera, "selectNextCalibrationPoint", [])];
        } else if joyButtons[2] == 1 {
          // the speed-up modifier; its value is never read
        } else if joyButtons[3] == 1 && joyButtons[3] != PreviousButton(joyButtonsPrevious, 3) {
          DoCalibration(current);
        }
      }
    }

    /** The second button chain of processJoystickState (buttons 4 and 5). */
    method JoystickToggles()
      modifies this`showCalibrationPoints, this`hideCameras, this`log
      ensures var toggle := LastButtons(joyButtons, joyButtonsPrevious);
        && showCalibrationPoints == (if toggle == SwitchPoints then !old(showCalibrationPoints) else old(showCalibrationPoints))
        && hideCameras == (if toggle == ToggleHide then !camerasHidden else old(hideCameras))
        && log == old(log) + ToggleCommands(camera, toggle)
    {
      if |joyButtons| >= 6 {
        if joyButtons[4] == 1 && joyButtons[4] != PreviousButton(joyButtonsPrevious, 4) {
          ShowAllCalibrationPoints(SwitchVisibility);
        } else if joyButtons[5] == 1 && joyButtons[5] != PreviousButton(joyButtonsPrevious, 5) {
          hideCameras := !camerasHidden;
        }
      }
    }

    /** The stick part of processJoystickState. */
    method JoystickAxes()
      modifies this`log
      ensures log == old(log) + AxesCommands(camera, joyAxes)
    {
      if |joyAxes| >= 2 {
        var xValue := joyAxes[0];
        var yValue := -joyAxes[1];
        if xValue != 0.0 || yValue != 0.0 {
          log := log + [Invoke(camera, "moveCalibrationPoint", [0.0, 0.0])];
          PropagateCalibration();
        }
      }
    }

    /** processJoystickState: buttons act on the tick they go down (button 2
        while held), the stick nudges the selected point, and the state of this
        tick becomes the previous one. `current` is the pose the camera reports
        should button 3 ask for a calibration. */
    method ProcessJoystickState(current: Pose)
      modifies this`history, this`showCalibrationPoints, this`hideCameras, this`log
      modifies this`joyButtons, this`joyAxes, this`joyButtonsPrevious
      ensures joyButtonsPrevious == old(joyButtons) && joyButtons == [] && joyAxes == []
      ensures var action := FirstButtons(old(joyButtons), old(joyButtonsPrevious));
        var toggle := LastButtons(old(joyButtons), old(joyButtonsPrevious));
        && history == (if action == CalibrateNow then old(history) + [current] else old(history))
        && showCalibrationPoints == (if toggle == SwitchPoints then !old(showCalibrationPoints) else old(showCalibrationPoints))
        && hideCameras == (if toggle == ToggleHide then !camerasHidden else old(hideCameras))
        && log == old(log) + ButtonCommands(camera, action) + ToggleCommands(camera, toggle) + AxesCommands(camera, old(joyAxes))
    {
      JoystickButtons(current);
      JoystickToggles();
      joyButtonsPrevious := joyButtons;
      JoystickAxes();
      joyAxes := [];
      joyButtons := [];
    }

    /** Sends one nudge per arrow move, each followed by a propagation. */
    method NudgeLoop(moves: seq<Vec2>)
      modifies this`log
      ensures log == old(log) + NudgeCommands(camera, moves)
    {
      var i := 0;
      while i < |moves|
        invariant 0 <= i <= |moves|
        invariant log == old(log) + NudgeCommands(camera, moves[..i])
      {
        log := log + [Invoke(camera, "moveCalibrationPoint", [moves[i].x, moves[i].y])];
        PropagateCalibration();
        i := i + 1;
        assert moves[..i][..i - 1] == moves[..i - 1];
      }
      assert moves[..i] == moves;
    }

    /** The arrow part of processKeyEvents: each arrow pressed this frame
        nudges the selected calibration point by 1, by 0.1 with shift, by 10
        with ctrl. */
    method NudgeArrows(keys: KeyInput)
      modifies this`log
      ensures log == old(log) + NudgeCommands(camera, NudgeMoves(keys, NudgeDelta(keys.shift, keys.ctrl)))
    {
      var delta := 1.0;
      if keys.shift {
        delta := 0.1;
      } else if keys.ctrl {
        delta := 10.0;
      }
      var moves: seq<Vec2> := if keys.right then [Vec2(delta, 0.0)] else [];
      moves := moves + (if keys.left then [Vec2(-delta, 0.0)] else []);
      moves := moves + (if keys.down then [Vec2(0.0, -delta)] else []);
      moves := moves + (if keys.up then [Vec2(0.0, delta)] else []);
      NudgeLoop(moves);
    }

    /** processKeyEvents: `current` is the pose the camera reports should C ask
        for a calibration. */
    method ProcessKeyEvents(keys: KeyInput, registered: seq<string>, current: Pose)
      modifies this`camera, this`history, this`camerasHidden, this`camerasColorized
      modifies this`hideCameras, this`showCalibrationPoints, this`log
      ensures KeyActionOf(keys) == CycleCamera ==>
        && camera == NextSelection(registered, old(camera)) && history == []
        && !camerasHidden && !camerasColorized
        && log == old(log) + SelectionCommands(registered, old(camera), camera)
      ensures KeyActionOf(keys) != CycleCamera ==> camera == old(camera) && camerasHidden == old(camerasHidden)
      ensures history == match KeyActionOf(keys)
        case CycleCamera => []
        case Calibrate => old(history) + [current]
        case Undo => Revert(old(history)).history
        case _ => old(history)
      ensures hideCameras == if KeyActionOf(keys) == ToggleHideOthers then !old(camerasHidden) else old(hideCameras)
      ensures camerasColorized == match KeyActionOf(keys)
        case ToggleColorize => !old(camerasColorized)
        case CycleCamera => false
        case _ => old(camerasColorized)
      ensures showCalibrationPoints ==
        if KeyActionOf(keys) == SwitchPointsDisplay then !old(showCalibrationPoints) else old(showCalibrationPoints)
      ensures KeyActionOf(keys) != CycleCamera ==> log == old(log) + match KeyActionOf(keys)
        case SwitchPointsDisplay => [SetObject(camera, "showAllCalibrationPoints", [VisibilityCode(SwitchVisibility)])]
        case Calibrate => CalibrationCommands(camera)
        case SwitchPointsEverywhere => [Send(camera, "switchDisplayAllCalibration", [])]
        case Undo => (match Revert(old(history)).applied
                      case None => []
                      case Some(p) => PoseCommands(camera, p))
        case Nudge(delta) => NudgeCommands(camera, NudgeMoves(keys, delta))
        case _ => []
    {
      if !keys.hovered {
        return;
      }
      if keys.space {
        NextCamera(registered);
      } else if keys.a {
        ShowAllCalibrationPoints(SwitchVisibility);
      } else if keys.c {
        DoCalibration(current);
      } else if keys.h {
        hideCameras := !camerasHidden;
      } else if keys.o {
        ShowAllCamerasCalibrationPoints();
      } else if keys.v {
        camerasColorized := !camerasColorized;
      } else if keys.z {
        if keys.ctrl {
          RevertCalibration();
        }
      } else {
        NudgeArrows(keys);
      }
    }

    /** A left press over the view (the first branch of processMouseEvents):
        nothing on the overview camera; ctrl-click removes the picked
        calibration point, shift binds the selected point to the cursor, a
        click adds the picked vertex or deselects. */
    method LeftPress(m: MouseInput, replies: CameraReplies)
      modifies this`previousPointAdded, this`log
      ensures previousPointAdded ==
        if camera != Overview && !(m.ctrl && m.leftClicked) && !m.shift && m.leftClicked && |replies.pickedVertex| == 3
        then replies.pickedVertex else old(previousPointAdded)
      ensures log == old(log) + LeftButtonCommands(camera, m, replies)
    {
      if camera == Overview {
        return;
      }
      if m.ctrl && m.leftClicked {
        var position := replies.pickedCalibrationPoint;
        if |position| == 3 {
          log := log + [SetObject(camera, "removeCalibrationPoint", position)];
        }
      } else if m.shift {
        log := log + [SetObject(camera, "setCalibrationPoint", [m.pos.x * 2.0 - 1.0, m.pos.y * 2.0 - 1.0])];
      } else if m.leftClicked {
        var position := replies.pickedVertex;
        if |position| == 3 {
          log := log + [SetObject(camera, "addCalibrationPoint", position)];
          previousPointAdded := position;
        } else {
          log := log + [SetObject(camera, "deselectCalibrationPoint", [])];
        }
      }
    }

    /** A wheel step changes the selected camera's field of view, which
        stays within [2, 180] degrees; `currentFov` is what the camera reports. */
    method Zoom(wheel: real, currentFov: real)
      requires wheel != 0.0
      modifies this`log
      ensures log == old(log) + WheelCommands(camera, wheel, currentFov)
    {
      var camFov := currentFov + wheel;
      camFov := if camFov < 2.0 then 2.0 else if camFov > 180.0 then 180.0 else camFov;
      if camera != Overview {
        log := log + [SetObject(camera, "fov", [camFov])];
      } else {
        log := log + [SetAttribute(camera, "fov", [camFov])];
      }
    }

    /** processMouseEvents: `m` is this frame's mouse state and `replies` what
        the selected camera answers to the picks and the fov query. A left
        press over the view edits calibration points and ends the frame's
        mouse handling; otherwise a right click sets the pivot, the wheel
        changes the fov, and a captured view is rotated, panned or dollied. */
    method ProcessMouseEvents(m: MouseInput, replies: CameraReplies)
      modifies this`newTarget, this`newTargetDistance, this`previousPointAdded, this`viewCaptured, this`log
      ensures m.hoveredRect && m.leftDown ==>
        && newTarget == old(newTarget) && newTargetDistance == old(newTargetDistance)
        && viewCaptured == old(viewCaptured)
        && previousPointAdded == (if camera != Overview && !(m.ctrl && m.leftClicked) && !m.shift && m.leftClicked
                                     && |replies.pickedVertex| == 3 then replies.pickedVertex else old(previousPointAdded))
        && log == old(log) + LeftButtonCommands(camera, m, replies)
      ensures !(m.hoveredRect && m.leftDown) ==>
        && newTarget == (if m.hoveredRect && m.rightClicked then replies.fragment else old(newTarget))
        && newTargetDistance == (if m.hoveredRect && m.rightClicked then PivotDistance(replies.fragmentDepth) else old(newTargetDistance))
        && previousPointAdded == old(previousPointAdded)
        && viewCaptured == CaptureAfter(old(viewCaptured), m)
        && log == old(log) + (if m.hoveredRect then WheelCommands(camera, m.wheel, replies.fov) else [])
                 + (if viewCaptured then DragCommands(camera, m, newTarget, newTargetDistance) else [])
    {
      if m.hoveredRect {
        if m.leftDown {
          LeftPress(m, replies);
          return;
        }

        if m.rightClicked {
          newTarget := replies.fragment;
          if replies.fragmentDepth == 0.0 {
            newTargetDistance := 1.0;
          } else {
            newTargetDistance := -replies.fragmentDepth * 0.1;
          }
        }

        if m.wheel != 0.0 {
          Zoom(m.wheel, replies.fov);
        }
      }

      if m.rightHeld {
        if m.hovered {
          viewCaptured := true;
        }
      } else if viewCaptured {
        viewCaptured := false;
      }

      if viewCaptured {
        Drag(m);
      }
    }

    /** The drag part of processMouseEvents, while the view is captured. */
    method Drag(m: MouseInput)
      modifies this`log
      ensures log == old(log) + DragCommands(camera, m, newTarget, newTargetDistance)
    {
      if !m.ctrl && !m.shift {
        var dx := m.delta.x;
        var dy := m.delta.y;
        log := log + [SetObject(camera, "up", [0.0, 0.0, 1.0])];
        if |newTarget| == 3 {
          log := log + [Send(camera, "rotateAroundPoint", [dx / 100.0, dy / 100.0, 0.0] + newTarget)];
        } else {
          log := log + [Send(camera, "rotateAroundTarget", [dx / 100.0, dy / 100.0, 0.0])];
        }
      } else if m.shift && !m.ctrl {
        var dx := DragStep(m.delta.x, newTargetDistance);
        var dy := DragStep(m.delta.y, newTargetDistance);
        log := log + [Send(camera, "pan", [-dx, dy, 0.0])];
      } else if !m.shift && m.ctrl {
        var dy := DragStep(m.delta.y, newTargetDistance);
        log := log + [Send(camera, "forward", [dy])];
      }
    }
  }
}
