/** The joint records of src/Constants/robotTypes.ts. Angles and limits are
    radians, modelled as `real`. */
module RobotTypes {
  import opened Wrappers

  datatype JointType = Fixed | Revolute | Continuous | Prismatic | Floating | Planar

  datatype JointLimit = JointLimit(lower: real, upper: real, effort: real, velocity: real)

  datatype Vec3 = Vec3(x: real, y: real, z: real)

  datatype JointOrigin = JointOrigin(rpy: Vec3, xyz: Vec3)

  /** A joint as read from the robot description. */
  datatype Joint = Joint(
    name: string,
    jointType: JointType,
    limit: Option<JointLimit>,
    origin: JointOrigin,
    parentLink: string,
    childLink: string,
    axis: Option<Vec3>)

  /** The UI state of one controllable joint. `category` is a plain string,
      as in the source, where fixtures name categories directly. */
  datatype JointControlState = JointControlState(
    name: string,
    currentValue: real,
    targetValue: real,
    minValue: real,
    maxValue: real,
    jointType: JointType,
    category: string)

  /** The seven joint categories and the labels the UI shows for them. */
  datatype JointCategory = Head | LeftHand | RightHand | LeftArm | RightArm | Torso | Base {
    function Label(): string
    {
      match this
      case Head => "Head"
      case LeftHand => "Left Hand"
      case RightHand => "Right Hand"
      case LeftArm => "Left Arm"
      case RightArm => "Right Arm"
      case Torso => "Torso"
      case Base => "Base"
    }
  }

  /** Midpoint of a joint's range. */
  function MidValue(j: JointControlState): real
  {
    (j.minValue + j.maxValue) / 2.0
  }
}
