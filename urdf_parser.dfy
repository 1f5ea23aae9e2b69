/** UrdfParser.createJointControlStates and UrdfParser.categorizeJoint
    (src/Utils/urdfParser.ts). */
module UrdfParser {
  import opened Wrappers
  import opened Strings
  import opened RobotTypes

  /** Fallback range used when a limit is missing or a bound is 0. */
  const DEFAULT_LOWER: real := -3.14159
  const DEFAULT_UPPER: real := 3.14159

  /** Only revolute and continuous joints get a control. */
  predicate IsControllable(j: Joint)
  {
    j.jointType == Revolute || j.jointType == Continuous
  }

  /** `joints.filter(IsControllable)`. */
  function Controllable(joints: seq<Joint>): (r: seq<Joint>)
    ensures |r| <= |joints|
    ensures forall i :: 0 <= i < |r| ==> IsControllable(r[i]) && r[i] in joints
    ensures forall i :: 0 <= i < |joints| && IsControllable(joints[i]) ==> joints[i] in r
  {
    if joints == [] then []
    else (if IsControllable(joints[0]) then [joints[0]] else []) + Controllable(joints[1..])
  }

  /** Filtering distributes over concatenation: controllable joints keep
      their input order. */
  lemma {:induction false} ControllableAppend(a: seq<Joint>, b: seq<Joint>)
    ensures Controllable(a + b) == Controllable(a) + Controllable(b)
  {
    if a == [] {
      assert a + b == b;
    } else {
      assert (a + b)[1..] == a[1..] + b;
      ControllableAppend(a[1..], b);
    }
  }

  /** `x || fallback` on a number: JavaScript treats both a missing value and
      0 as false. */
  function OrDefault(x: Option<real>, fallback: real): real
  {
    if x.Some? && x.value != 0.0 then x.value else fallback
  }

  function LowerOf(limit: Option<JointLimit>): Option<real>
  {
    if limit.Some? then Some(limit.value.lower) else None
  }

  function UpperOf(limit: Option<JointLimit>): Option<real>
  {
    if limit.Some? then Some(limit.value.upper) else None
  }

  /** The control state built for one joint: name and type copied, both
      values at the middle of the range; when the range is not inverted the
      starting value lies inside it. */
  function ControlStateFor(j: Joint): (s: JointControlState)
    ensures s.name == j.name && s.jointType == j.jointType
    ensures s.category == CategorizeJoint(j.name).Label()
    ensures s.currentValue == s.targetValue == MidValue(s)
    ensures s.minValue <= s.maxValue ==> s.minValue <= s.currentValue <= s.maxValue
  {
    var minValue := OrDefault(LowerOf(j.limit), DEFAULT_LOWER);
    var maxValue := OrDefault(UpperOf(j.limit), DEFAULT_UPPER);
    var midValue := (minValue + maxValue) / 2.0;
    JointControlState(j.name, midValue, midValue, minValue, maxValue, j.jointType,
                      CategorizeJoint(j.name).Label())
  }

  /** A bound of 0 counts as missing: the range falls back to -3.14159 or
      3.14159 exactly when the limit is absent or that bound is 0. */
  lemma RangeDefaults(j: Joint)
    ensures ControlStateFor(j).minValue ==
            if j.limit.None? || j.limit.value.lower == 0.0 then DEFAULT_LOWER else j.limit.value.lower
    ensures ControlStateFor(j).maxValue ==
            if j.limit.None? || j.limit.value.upper == 0.0 then DEFAULT_UPPER else j.limit.value.upper
  {
  }

  /** `createJointControlStates`: one control state per controllable joint,
      in input order. */
  function CreateJointControlStates(joints: seq<Joint>): (r: seq<JointControlState>)
    ensures |r| == |Controllable(joints)|
    ensures forall i :: 0 <= i < |r| ==> r[i] == ControlStateFor(Controllable(joints)[i])
  {
    var controllable := Controllable(joints);
    seq(|controllable|, i requires 0 <= i < |controllable| => ControlStateFor(controllable[i]))
  }

  // ---- categorizeJoint ----

  const HEAD_WORDS: seq<string> := ["head", "eye", "jaw", "neck"]
  const FINGER_WORDS: seq<string> := ["thumb", "index", "majeure", "ring", "pinky"]
  const ARM_WORDS: seq<string> := ["shoulder", "elbow", "wrist"]
  const TORSO_WORDS: seq<string> := ["torso", "stom"]

  /** Some word of `words` occurs in `s`. */
  predicate ContainsAny(s: string, words: seq<string>)
    decreases |words|
  {
    words != [] && (Contains(s, words[0]) || ContainsAny(s, words[1..]))
  }

  lemma {:induction false} ContainsAnyOf(s: string, words: seq<string>, w: string)
    requires w in words && Contains(s, w)
    ensures ContainsAny(s, words)
    decreases |words|
  {
    if words[0] != w {
      ContainsAnyOf(s, words[1..], w);
    }
  }

  /** The test the classifier applies for each category, on the lower-case
      name. `&&` binds tighter than `||`, so "lefthand" alone suffices for a
      hand while "left" needs a finger word. */
  predicate Rule(c: JointCategory, n: string)
    ensures c == Base ==> Rule(c, n)
    ensures n == "" ==> (Rule(c, n) <==> c == Base)
  {
    NoWordInEmpty(HEAD_WORDS);
    NoWordInEmpty(FINGER_WORDS);
    NoWordInEmpty(ARM_WORDS);
    NoWordInEmpty(TORSO_WORDS);
    match c
    case Head => ContainsAny(n, HEAD_WORDS)
    case LeftHand => Contains(n, "lefthand") || (Contains(n, "left") && ContainsAny(n, FINGER_WORDS))
    case RightHand => Contains(n, "righthand") || (Contains(n, "right") && ContainsAny(n, FINGER_WORDS))
    case LeftArm => Contains(n, "left") && ContainsAny(n, ARM_WORDS)
    case RightArm => Contains(n, "right") && ContainsAny(n, ARM_WORDS)
    case Torso => ContainsAny(n, TORSO_WORDS)
    case Base => true
  }

  /** No word occurs in the empty name. */
  lemma {:induction false} NoWordInEmpty(words: seq<string>)
    requires forall i :: 0 <= i < |words| ==> words[i] != ""
    ensures !ContainsAny("", words)
    decreases |words|
  {
    if words != [] {
      NoWordInEmpty(words[1..]);
    }
  }

  /** The order in which the rules are tried: Head first, Base last. */
  function Rank(c: JointCategory): (r: nat)
    ensures r <= 6
    ensures r == 0 <==> c == Head
    ensures r == 6 <==> c == Base
  {
    match c
    case Head => 0
    case LeftHand => 1
    case RightHand => 2
    case LeftArm => 3
    case RightArm => 4
    case Torso => 5
    case Base => 6
  }

  /** `categorizeJoint`: the first category in Rank order whose rule holds of
      the lower-cased name; Base when no other rule holds. */
  function CategorizeJoint(jointName: string): (c: JointCategory)
    ensures Rule(c, ToLower(jointName))
    ensures forall d: JointCategory :: Rank(d) < Rank(c) ==> !Rule(d, ToLower(jointName))
  {
    var name := ToLower(jointName);
    if Rule(Head, name) then Head
    else if Rule(LeftHand, name) then LeftHand
    else if Rule(RightHand, name) then RightHand
    else if Rule(LeftArm, name) then LeftArm
    else if Rule(RightArm, name) then RightArm
    else if Rule(Torso, name) then Torso
    else Base
  }

  /** Classification ignores case. */
  lemma CategorizeIgnoresCase(jointName: string)
    ensures CategorizeJoint(jointName) == CategorizeJoint(ToLower(jointName))
  {
    ToLowerIdempotent(jointName);
  }

  /** The head words are already lower-case. */
  lemma HeadWordsLower(w: string)
    requires w in HEAD_WORDS
    ensures ToLower(w) == w
  {
    assert HEAD_WORDS == ["head", "eye", "jaw", "neck"];
    ToLowerOfLower(w);
  }

  /** "lefthand" is already lower-case. */
  lemma LeftHandLower()
    ensures ToLower("lefthand") == "lefthand"
  {
    ToLowerOfLower("lefthand");
  }

  /** A name containing head, eye, jaw or neck is a Head joint, whatever else
      it contains. */
  lemma HeadWordWins(jointName: string, w: string)
    requires w in HEAD_WORDS && Contains(jointName, w)
    ensures CategorizeJoint(jointName) == Head
  {
    ContainsToLower(jointName, w);
    HeadWordsLower(w);
    ContainsAnyOf(ToLower(jointName), HEAD_WORDS, w);
    assert Rule(Head, ToLower(jointName));
    var c := CategorizeJoint(jointName);
    assert Rank(Head) < Rank(c) ==> !Rule(Head, ToLower(jointName));
  }

  /** "lefthand" by itself makes a Left Hand joint unless a head word occurs. */
  lemma LeftHandWordSuffices(jointName: string)
    requires Contains(jointName, "lefthand")
    requires !ContainsAny(ToLower(jointName), HEAD_WORDS)
    ensures CategorizeJoint(jointName) == LeftHand
  {
    ContainsToLower(jointName, "lefthand");
    LeftHandLower();
    assert Rule(LeftHand, ToLower(jointName)) && !Rule(Head, ToLower(jointName));
    var c := CategorizeJoint(jointName);
    assert Rank(LeftHand) < Rank(c) ==> !Rule(LeftHand, ToLower(jointName));
  }

  /** Without "lefthand", "left" is not enough for a Left Hand joint: a finger
      word must occur too. */
  lemma LeftHandNeedsFinger(jointName: string)
    requires !Contains(ToLower(jointName), "lefthand")
    requires !ContainsAny(ToLower(jointName), FINGER_WORDS)
    ensures CategorizeJoint(jointName) != LeftHand
  {
  }
}
