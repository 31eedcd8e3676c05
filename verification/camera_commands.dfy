/** The effects the global calibration view has on the rest of the engine.
    Every effect is a record appended to a command log, so that the view's
    methods can be specified by the commands they issue. */
module CameraCommands {

  datatype Option<T> = None | Some(value: T)

  /** A camera the view can select: the GUI's own overview camera, or a camera
      registered in the scene, identified by its object name. */
  datatype CameraRef = Overview | Registered(name: string)

  datatype Vec2 = Vec2(x: real, y: real)
  datatype Vec3 = Vec3(x: real, y: real, z: real)

  /** One snapshot of the calibration history: the pose and intrinsics of a
      camera, without its calibration points. */
  datatype Pose = Pose(eye: Vec3, target: Vec3, up: Vec3, fov: real, principalPoint: Vec2)

  datatype Command =
      /** setObject: an attribute change sent to a named object through the registry */
    | SetObject(target: CameraRef, attr: string, values: seq<real>)
      /** setObjectsOfType: the same attribute change sent to every object of a type */
    | SetObjectsOfType(typeTag: string, attr: string, values: seq<real>)
      /** setAttribute called directly on the local camera object */
    | SetAttribute(target: CameraRef, attr: string, values: seq<real>)
      /** setObject of an attribute whose value is read back from the camera
          object itself, which this model treats as opaque */
    | Forward(target: CameraRef, attr: string)
      /** a call into the camera object's own logic (pose solve, point nudge) */
    | Invoke(target: CameraRef, operation: string, args: seq<real>)

  /** The attributes a pose is made of, in the order the view sends them. */
  const PoseAttributes: seq<string> := ["eye", "target", "up", "fov", "principalPoint"]

  function Vec3Values(v: Vec3): seq<real> { [v.x, v.y, v.z] }

  /** The five commands that apply a snapshot to a camera. */
  function PoseCommands(target: CameraRef, p: Pose): (cs: seq<Command>)
    ensures |cs| == |PoseAttributes|
    ensures forall k :: 0 <= k < |cs| ==> cs[k].SetObject? && cs[k].target == target && cs[k].attr == PoseAttributes[k]
  {
    [ SetObject(target, "eye", Vec3Values(p.eye)),
      SetObject(target, "target", Vec3Values(p.target)),
      SetObject(target, "up", Vec3Values(p.up)),
      SetObject(target, "fov", [p.fov]),
      SetObject(target, "principalPoint", [p.principalPoint.x, p.principalPoint.y]) ]
  }

  /** propagateCalibration: every pose attribute, as the camera now reports it,
      is sent to the camera's object. */
  function ForwardPose(target: CameraRef): (cs: seq<Command>)
    ensures |cs| == |PoseAttributes|
    ensures forall k :: 0 <= k < |cs| ==> cs[k] == Forward(target, PoseAttributes[k])
  {
    seq(|PoseAttributes|, k requires 0 <= k < |PoseAttributes| => Forward(target, PoseAttributes[k]))
  }

  /** Attributes of the selected camera go to the object registry when it is a
      registered camera, and straight to the object when it is the overview camera. */
  function Send(selected: CameraRef, attr: string, values: seq<real>): (c: Command)
    ensures (c.SetObject? || c.SetAttribute?) && c.target == selected && c.attr == attr && c.values == values
    ensures c.SetAttribute? <==> selected == Overview
  {
    if selected != Overview then SetObject(selected, attr, values) else SetAttribute(selected, attr, values)
  }
}
