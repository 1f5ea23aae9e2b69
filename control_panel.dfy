/** The joint-list transformations and status display of the control page
    (src/Pages/RobotControlPanel.tsx). React state is modelled as values:
    each handler maps the previous state to the next one. */
module ControlPanel {
  import opened Wrappers
  import opened Seqs
  import opened RobotTypes
  import opened RosBridge

  /** The page state the handlers below update. */
  datatype Panel = Panel(joints: seq<JointControlState>, categoryOrder: seq<string>, activeId: Option<string>)

  /** The initial category order of the page. */
  const DEFAULT_CATEGORY_ORDER: seq<string> := ["Head", "Torso", "Left Arm", "Right Arm", "Left Hand", "Right Hand", "Base"]

  /** The joint with both values set to `v`. */
  function WithValue(j: JointControlState, v: real): JointControlState
  {
    j.(currentValue := v, targetValue := v)
  }

  /** Everything but `currentValue` and `targetValue` agrees. */
  predicate SameJoint(a: JointControlState, b: JointControlState)
  {
    a.name == b.name && a.minValue == b.minValue && a.maxValue == b.maxValue
    && a.jointType == b.jointType && a.category == b.category
  }

  /** `handleJointValueChange`: every joint with that name gets the value as
      current and target; all other joints, and the length, are unchanged. */
  function JointValueChange(joints: seq<JointControlState>, name: string, value: real): (r: seq<JointControlState>)
    ensures |r| == |joints|
    ensures forall i :: 0 <= i < |r| ==> SameJoint(r[i], joints[i])
    ensures forall i :: 0 <= i < |r| && joints[i].name == name ==>
              r[i].currentValue == value && r[i].targetValue == value
    ensures forall i :: 0 <= i < |r| && joints[i].name != name ==> r[i] == joints[i]
  {
    if joints == [] then []
    else
      var j := joints[|joints| - 1];
      JointValueChange(joints[..|joints| - 1], name, value) + [if j.name == name then WithValue(j, value) else j]
  }

  /** Only the last of two changes of the same joint matters. */
  lemma JointValueChangeLastWins(joints: seq<JointControlState>, name: string, a: real, b: real)
    ensures JointValueChange(JointValueChange(joints, name, a), name, b) == JointValueChange(joints, name, b)
  {
    var once := JointValueChange(joints, name, b);
    var twice := JointValueChange(JointValueChange(joints, name, a), name, b);
    assert |twice| == |once|;
    forall i | 0 <= i < |once| ensures twice[i] == once[i] {
    }
  }

  /** `handleResetCategory`: the joints of that category go to their
      midpoint; the others are unchanged. */
  function ResetCategory(joints: seq<JointControlState>, category: string): (r: seq<JointControlState>)
    ensures |r| == |joints|
    ensures forall i :: 0 <= i < |r| ==> SameJoint(r[i], joints[i])
    ensures forall i :: 0 <= i < |r| && joints[i].category == category ==>
              r[i].currentValue == MidValue(joints[i]) && r[i].targetValue == MidValue(joints[i])
    ensures forall i :: 0 <= i < |r| && joints[i].category != category ==> r[i] == joints[i]
  {
    if joints == [] then []
    else
      var j := joints[|joints| - 1];
      ResetCategory(joints[..|joints| - 1], category) + [if j.category == category then WithValue(j, MidValue(j)) else j]
  }

  /** `handleResetAll`: every joint goes to its midpoint. */
  function ResetAll(joints: seq<JointControlState>): (r: seq<JointControlState>)
    ensures |r| == |joints|
    ensures forall i :: 0 <= i < |r| ==> SameJoint(r[i], joints[i])
    ensures forall i :: 0 <= i < |r| ==>
              r[i].currentValue == MidValue(joints[i]) && r[i].targetValue == MidValue(joints[i])
  {
    if joints == [] then []
    else
      var j := joints[|joints| - 1];
      ResetAll(joints[..|joints| - 1]) + [WithValue(j, MidValue(j))]
  }

  /** Resetting everything resets each category, and a second reset changes
      nothing. */
  lemma ResetAllFacts(joints: seq<JointControlState>, category: string)
    ensures ResetCategory(ResetAll(joints), category) == ResetAll(joints)
    ensures ResetAll(ResetAll(joints)) == ResetAll(joints)
  {
    ResetCategoryAfterResetAll(joints, category);
    ResetAllTwice(joints);
  }

  /** A category reset after a full reset changes nothing. */
  lemma ResetCategoryAfterResetAll(joints: seq<JointControlState>, category: string)
    ensures ResetCategory(ResetAll(joints), category) == ResetAll(joints)
  {
    var all := ResetAll(joints);
    var rc := ResetCategory(all, category);
    forall i | 0 <= i < |all| ensures rc[i] == all[i] {
      assert SameJoint(all[i], joints[i]) && SameJoint(rc[i], all[i]);
      assert MidValue(all[i]) == MidValue(joints[i]);
    }
  }

  /** A second full reset changes nothing. */
  lemma ResetAllTwice(joints: seq<JointControlState>)
    ensures ResetAll(ResetAll(joints)) == ResetAll(joints)
  {
    var all := ResetAll(joints);
    var twice := ResetAll(all);
    forall i | 0 <= i < |all| ensures twice[i] == all[i] {
      assert SameJoint(all[i], joints[i]) && SameJoint(twice[i], all[i]);
      assert MidValue(all[i]) == MidValue(joints[i]);
    }
  }

  /** A midpoint lies in the joint's range whenever the range is proper. */
  lemma ResetInRange(joints: seq<JointControlState>, i: nat)
    requires i < |joints| && joints[i].minValue <= joints[i].maxValue
    ensures joints[i].minValue <= ResetAll(joints)[i].currentValue <= joints[i].maxValue
  {
  }

  /** The joints of one category, in their relative order. */
  function Group(joints: seq<JointControlState>, category: string): (r: seq<JointControlState>)
    ensures |r| <= |joints|
    ensures forall k :: 0 <= k < |r| ==> r[k].category == category && r[k] in joints
    ensures forall k :: 0 <= k < |joints| && joints[k].category == category ==> joints[k] in r
  {
    if joints == [] then []
    else
      var j := joints[|joints| - 1];
      Group(joints[..|joints| - 1], category) + (if j.category == category then [j] else [])
  }

  /** A category no joint has gets an empty group. */
  lemma {:induction false} GroupEmpty(joints: seq<JointControlState>, category: string)
    requires forall k :: 0 <= k < |joints| ==> joints[k].category != category
    ensures Group(joints, category) == []
    decreases |joints|
  {
    if joints != [] {
      GroupEmpty(joints[..|joints| - 1], category);
    }
  }

  /** The group sizes of a list of distinct categories. */
  function GroupSizes(joints: seq<JointControlState>, categories: seq<string>): nat
  {
    if categories == [] then 0
    else GroupSizes(joints, categories[..|categories| - 1]) + |Group(joints, categories[|categories| - 1])|
  }

  /** Adding one joint adds one to the size of its own group only. */
  lemma {:induction false} GroupSizesStep(joints: seq<JointControlState>, j: JointControlState, categories: seq<string>)
    ensures GroupSizes(joints + [j], categories) == GroupSizes(joints, categories) + Count(categories, j.category)
    decreases |categories|
  {
    if categories != [] {
      var init := categories[..|categories| - 1];
      var last := categories[|categories| - 1];
      GroupSizesStep(joints, j, init);
      assert (joints + [j])[..|joints + [j]| - 1] == joints;
      CountLast(categories, j.category);
    }
  }

  /** `Count` taken from the end. */
  lemma {:induction false} CountLast(s: seq<string>, x: string)
    requires s != []
    ensures Count(s, x) == Count(s[..|s| - 1], x) + (if s[|s| - 1] == x then 1 else 0)
    decreases |s|
  {
    if |s| > 1 {
      CountLast(s[1..], x);
      assert s[1..][..|s[1..]| - 1] == s[..|s| - 1][1..];
    }
  }

  /** A value occurring in a list without repetitions is counted once. */
  lemma {:induction false} CountDistinct(s: seq<string>, x: string)
    requires forall i, k :: 0 <= i < k < |s| ==> s[i] != s[k]
    requires x in s
    ensures Count(s, x) == 1
    decreases |s|
  {
    if s[0] == x {
      CountAbsent(s[1..], x);
    } else {
      CountDistinct(s[1..], x);
    }
  }

  lemma {:induction false} CountAbsent(s: seq<string>, x: string)
    requires x !in s
    ensures Count(s, x) == 0
    decreases |s|
  {
    if s != [] {
      CountAbsent(s[1..], x);
    }
  }

  /** The groups partition the joints: over any list of distinct categories
      that names every joint's category, the group sizes sum to the number
      of joints. */
  lemma {:induction false} GroupsPartition(joints: seq<JointControlState>, categories: seq<string>)
    requires forall i, k :: 0 <= i < k < |categories| ==> categories[i] != categories[k]
    requires forall i :: 0 <= i < |joints| ==> joints[i].category in categories
    ensures GroupSizes(joints, categories) == |joints|
    decreases |joints|
  {
    if joints == [] {
      EmptyGroupSizes(categories);
    } else {
      var init := joints[..|joints| - 1];
      var j := joints[|joints| - 1];
      assert joints == init + [j];
      GroupsPartition(init, categories);
      GroupSizesStep(init, j, categories);
      CountDistinct(categories, j.category);
    }
  }

  lemma {:induction false} EmptyGroupSizes(categories: seq<string>)
    ensures GroupSizes([], categories) == 0
    decreases |categories|
  {
    if categories != [] {
      EmptyGroupSizes(categories[..|categories| - 1]);
    }
  }

  /** `categorizedJoints`: one list per category that occurs, holding that
      category's joints in their relative order. */
  method CategorizedJoints(joints: seq<JointControlState>) returns (categories: map<string, seq<JointControlState>>)
    ensures forall c :: c in categories <==> exists i :: 0 <= i < |joints| && joints[i].category == c
    ensures forall c :: c in categories ==> categories[c] == Group(joints, c)
  {
    categories := map[];
    for i := 0 to |joints|
      invariant GroupedUpTo(joints, i, categories)
    {
      GroupedStep(joints, i, categories);
      categories := PushJoint(categories, joints[i]);
    }
    assert joints[..|joints|] == joints;
  }

  /** The reducer's step: create the category's list when missing, then
      push the joint onto it. */
  method PushJoint(categories: map<string, seq<JointControlState>>, joint: JointControlState)
    returns (updated: map<string, seq<JointControlState>>)
    ensures updated == categories[joint.category :=
              (if joint.category in categories then categories[joint.category] else []) + [joint]]
  {
    updated := categories;
    if joint.category !in updated {
      updated := updated[joint.category := []];
    }
    updated := updated[joint.category := updated[joint.category] + [joint]];
  }

  /** The map built from the first `i` joints: one entry per category seen,
      holding that category's group. */
  ghost predicate GroupedUpTo(joints: seq<JointControlState>, i: nat, categories: map<string, seq<JointControlState>>)
    requires i <= |joints|
  {
    && (forall c :: c in categories <==> exists k :: 0 <= k < i && joints[k].category == c)
    && (forall c :: c in categories ==> categories[c] == Group(joints[..i], c))
  }

  /** Pushing joint `i` onto its category's list (created empty when
      missing) extends the map to the first `i + 1` joints. */
  lemma GroupedStep(joints: seq<JointControlState>, i: nat, categories: map<string, seq<JointControlState>>)
    requires i < |joints| && GroupedUpTo(joints, i, categories)
    ensures var c := joints[i].category;
      GroupedUpTo(joints, i + 1, categories[c := (if c in categories then categories[c] else []) + [joints[i]]])
  {
    var c := joints[i].category;
    var updated := categories[c := (if c in categories then categories[c] else []) + [joints[i]]];
    assert joints[..i + 1][..i] == joints[..i];
    if c !in categories {
      GroupEmpty(joints[..i], c);
    }
    forall d | d in updated
      ensures updated[d] == Group(joints[..i + 1], d)
    {
    }
    forall d
      ensures d in updated <==> exists k :: 0 <= k < i + 1 && joints[k].category == d
    {
      if d == c {
        assert joints[i].category == d;
      }
    }
  }

  /** `handleLoadPose`: each joint whose name the pose holds takes the stored
      value (a stored 0 included, as `??` keeps it); the others keep theirs.
      A given category order replaces the current one, even when empty. */
  function LoadPose(panel: Panel, poseJoints: map<string, real>, categoryOrder: Option<seq<string>>): (r: Panel)
    ensures |r.joints| == |panel.joints| && r.activeId == panel.activeId
    ensures forall i :: 0 <= i < |r.joints| ==> SameJoint(r.joints[i], panel.joints[i])
    ensures forall i :: 0 <= i < |r.joints| && panel.joints[i].name in poseJoints ==>
              r.joints[i].currentValue == poseJoints[panel.joints[i].name]
              && r.joints[i].targetValue == poseJoints[panel.joints[i].name]
    ensures forall i :: 0 <= i < |r.joints| && panel.joints[i].name !in poseJoints ==> r.joints[i] == panel.joints[i]
    ensures r.categoryOrder == if categoryOrder.Some? then categoryOrder.value else panel.categoryOrder
  {
    Panel(ApplyPose(panel.joints, poseJoints), categoryOrder.GetOr(panel.categoryOrder), panel.activeId)
  }

  function ApplyPose(joints: seq<JointControlState>, poseJoints: map<string, real>): (r: seq<JointControlState>)
    ensures |r| == |joints|
    ensures forall i :: 0 <= i < |r| ==> SameJoint(r[i], joints[i])
    ensures forall i :: 0 <= i < |r| && joints[i].name in poseJoints ==>
              r[i].currentValue == poseJoints[joints[i].name] && r[i].targetValue == poseJoints[joints[i].name]
    ensures forall i :: 0 <= i < |r| && joints[i].name !in poseJoints ==> r[i] == joints[i]
  {
    if joints == [] then []
    else
      var j := joints[|joints| - 1];
      ApplyPose(joints[..|joints| - 1], poseJoints)
        + [j.(currentValue := if j.name in poseJoints then poseJoints[j.name] else j.currentValue,
              targetValue := if j.name in poseJoints then poseJoints[j.name] else j.targetValue)]
  }

  /** A pose holding every joint's current value loads as no change. */
  lemma LoadOwnPose(joints: seq<JointControlState>, poseJoints: map<string, real>)
    requires forall i :: 0 <= i < |joints| ==>
               joints[i].name in poseJoints && poseJoints[joints[i].name] == joints[i].currentValue
               && joints[i].targetValue == joints[i].currentValue
    ensures ApplyPose(joints, poseJoints) == joints
  {
    var r := ApplyPose(joints, poseJoints);
    forall i | 0 <= i < |joints| ensures r[i] == joints[i] {
    }
  }

  /** `handleDragEnd`: the drag's active item is cleared; the category order
      is moved with `arrayMove(items, oldIndex, newIndex)` unless the drag
      ended over the item it started on. With no `over` item the new index
      is `indexOf(undefined)`, i.e. -1. */
  function DragEnd(panel: Panel, activeId: string, overId: Option<string>,
                   arrayMove: (seq<string>, int, int) -> seq<string>): (r: Panel)
    ensures r.activeId == None && r.joints == panel.joints
    ensures overId == Some(activeId) ==> r.categoryOrder == panel.categoryOrder
    ensures overId != Some(activeId) ==>
              r.categoryOrder == arrayMove(panel.categoryOrder, IndexOf(panel.categoryOrder, activeId),
                                           if overId.Some? then IndexOf(panel.categoryOrder, overId.value) else -1)
  {
    var order :=
      if overId != Some(activeId) then
        var oldIndex := IndexOf(panel.categoryOrder, activeId);
        var newIndex := if overId.Some? then IndexOf(panel.categoryOrder, overId.value) else -1;
        arrayMove(panel.categoryOrder, oldIndex, newIndex)
      else panel.categoryOrder;
    panel.(categoryOrder := order, activeId := None)
  }

  /** `getConnectionStatusText`. */
  function StatusText(status: ConnectionStatus): (r: string)
    ensures |r| >= 3 && forall k :: 0 <= k < |r| ==> r[k] == '.' || 'A' <= r[k] <= 'Z'
    ensures r[|r| - 3..] == "..." <==> status == Connecting || status == Reconnecting
  {
    match status
    case Connected => "CONNECTED"
    case Connecting => "CONNECTING..."
    case Reconnecting => "RECONNECTING..."
    case Disconnected => "DISCONNECTED"
  }

  /** Different statuses show different texts. */
  lemma StatusTextInjective(a: ConnectionStatus, b: ConnectionStatus)
    requires StatusText(a) == StatusText(b)
    ensures a == b
  {
  }

  const GREEN: string := "#00ff41"
  const ORANGE: string := "#ffa500"
  const RED: string := "#ff4d4f"

  /** `getConnectionStatusColor`: more than one connected client overrides
      the status colour with orange. */
  function StatusColor(status: ConnectionStatus, clientCount: int): (r: string)
    ensures clientCount > 1 ==> r == ORANGE
    ensures r == GREEN <==> status == Connected && clientCount <= 1
    ensures r == RED <==> status == Disconnected && clientCount <= 1
    ensures r == ORANGE <==> clientCount > 1 || status == Connecting || status == Reconnecting
  {
    if clientCount > 1 then ORANGE
    else
      match status
      case Connected => GREEN
      case Connecting => ORANGE
      case Reconnecting => ORANGE
      case Disconnected => RED
  }
}
