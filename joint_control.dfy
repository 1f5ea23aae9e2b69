/** The input handlers of one joint's control card
    (src/Components/JointControl.tsx). */
module JointControl {
  import opened Wrappers
  import opened RobotTypes

  /** What the card hands to `onValueChange`. */
  datatype ValueReport = ValueReport(name: string, value: real)

  /** The card's local state: its joint and the value shown while dragging. */
  datatype JointCard = JointCard(joint: JointControlState, localValue: real)

  function Max(a: real, b: real): real { if a < b then b else a }

  function Min(a: real, b: real): real { if b < a then b else a }

  /** `Math.max(min, Math.min(max, v))`. */
  function Clamp(v: real, min: real, max: real): (r: real)
    ensures min <= max ==> min <= r <= max
    ensures min <= v <= max ==> r == v
    ensures v <= min ==> r == min
    ensures min <= max <= v ==> r == max
    ensures max < min ==> r == min
  {
    Max(min, Min(max, v))
  }

  /** Clamping twice is clamping once. */
  lemma ClampIdempotent(v: real, min: real, max: real)
    requires min <= max
    ensures Clamp(Clamp(v, min, max), min, max) == Clamp(v, min, max)
  {
  }

  /** `handleSliderChange`: a non-null value becomes the local value; null
      changes nothing. */
  function HandleSliderChange(card: JointCard, value: Option<real>): (r: JointCard)
    ensures r.joint == card.joint
    ensures value.None? ==> r == card
    ensures value.Some? ==> r.localValue == value.value
  {
    match value
    case None => card
    case Some(v) => card.(localValue := v)
  }

  /** `handleSliderAfterChange`: the committed value is reported as is, with
      no clamp. */
  function HandleSliderAfterChange(card: JointCard, value: real): (r: ValueReport)
    ensures r.name == card.joint.name && r.value == value
  {
    ValueReport(card.joint.name, value)
  }

  /** `handleInputChange`: null reports nothing; any other value is clamped
      to the joint's range and reported under the joint's name. */
  function HandleInputChange(card: JointCard, value: Option<real>): (r: Option<ValueReport>)
    ensures r.Some? <==> value.Some?
    ensures r.Some? ==> r.value.name == card.joint.name
    ensures r.Some? && card.joint.minValue <= card.joint.maxValue ==>
              card.joint.minValue <= r.value.value <= card.joint.maxValue
    ensures r.Some? && card.joint.minValue <= value.value <= card.joint.maxValue ==>
              r.value.value == value.value
  {
    match value
    case None => None
    case Some(v) => Some(ValueReport(card.joint.name, Clamp(v, card.joint.minValue, card.joint.maxValue)))
  }

  /** The number input's wiring: `value || 0` (null and 0 both give 0), then
      the display-to-radian conversion, then `handleInputChange`. */
  function InputNumberChange(card: JointCard, value: Option<real>, showDegrees: bool, degreesToRadians: real -> real): (r: Option<ValueReport>)
    ensures r == HandleInputChange(card, Some(
                   if showDegrees then degreesToRadians(value.GetOr(0.0)) else value.GetOr(0.0)))
    ensures r.Some? && r.value.name == card.joint.name
    ensures card.joint.minValue <= card.joint.maxValue ==> card.joint.minValue <= r.value.value <= card.joint.maxValue
    ensures !showDegrees && value.Some? && card.joint.minValue <= value.value <= card.joint.maxValue ==>
              r.value.value == value.value
    ensures showDegrees && value.Some? && card.joint.minValue <= degreesToRadians(value.value) <= card.joint.maxValue ==>
              r.value.value == degreesToRadians(value.value)
  {
    var raw := if value.None? || value.value == 0.0 then 0.0 else value.value;
    var converted := if showDegrees then degreesToRadians(raw) else raw;
    HandleInputChange(card, Some(converted))
  }

  /** Through the number input's wiring a cleared field is never ignored: it
      reports the clamp of 0 radians (in radian mode). */
  lemma ClearedInputReportsZero(card: JointCard, degreesToRadians: real -> real)
    ensures InputNumberChange(card, None, false, degreesToRadians)
              == Some(ValueReport(card.joint.name, Clamp(0.0, card.joint.minValue, card.joint.maxValue)))
  {
  }

  /** In degree mode, the component's default, a cleared field reports the
      clamp of the conversion of 0 degrees, which is 0 radians for a
      conversion that keeps 0. */
  lemma ClearedInputReportsZeroInDegrees(card: JointCard, degreesToRadians: real -> real)
    requires degreesToRadians(0.0) == 0.0
    ensures InputNumberChange(card, None, true, degreesToRadians)
              == Some(ValueReport(card.joint.name, Clamp(0.0, card.joint.minValue, card.joint.maxValue)))
  {
  }

  /** In either mode, clearing the field and typing 0 report the same. */
  lemma ClearedIsTypedZero(card: JointCard, showDegrees: bool, degreesToRadians: real -> real)
    ensures InputNumberChange(card, None, showDegrees, degreesToRadians)
              == InputNumberChange(card, Some(0.0), showDegrees, degreesToRadians)
  {
  }
}
