/** The joint-state publisher, JointStateHandler
    (src/Services/ros/handlers/JointState.handler.ts). The topic name and
    message type come from a configuration file that is not part of this
    model, so they are constructor parameters. */
module JointState {
  import opened Wrappers
  import opened Roslib
  import opened RosBridge
  import opened RobotTypes

  /** One `publish` call: the topic and the message's `position` vector. */
  datatype Publication = Publication(topic: Topic, position: seq<real>)

  /** `joints.map(j => radianToDegree(j.currentValue))`; the conversion is a
      parameter, since its floating-point rounding is not modelled. */
  function Positions(joints: seq<JointControlState>, radianToDegree: real -> real): (r: seq<real>)
    ensures |r| == |joints|
    ensures forall i :: 0 <= i < |joints| ==> r[i] == radianToDegree(joints[i].currentValue)
  {
    if joints == [] then []
    else Positions(joints[..|joints| - 1], radianToDegree) + [radianToDegree(joints[|joints| - 1].currentValue)]
  }

  /** The vector of a concatenation is the concatenation of the vectors, so
      the order of the joints is the order of the positions. */
  lemma {:induction false} PositionsAppend(a: seq<JointControlState>, b: seq<JointControlState>, radianToDegree: real -> real)
    ensures Positions(a + b, radianToDegree) == Positions(a, radianToDegree) + Positions(b, radianToDegree)
    decreases |b|
  {
    if b == [] {
      assert a + b == a;
    } else {
      var b' := b[..|b| - 1];
      assert (a + b)[..|a + b| - 1] == a + b';
      PositionsAppend(a, b', radianToDegree);
    }
  }

  class JointStateHandler {
    var jointStateTopic: Option<Topic>
    var topicsCreated: nat
    var published: seq<Publication>
    const topicName: string
    const messageType: string

    ghost predicate Valid()
      reads this
    {
      jointStateTopic.Some? ==> jointStateTopic.value.serial < topicsCreated
    }

    /** The constructor binds a topic at once if the manager is connected
        (`rosConnection` is the manager's handle at that moment). */
    constructor (rosConnection: Option<HandleId>, topicName: string, messageType: string)
      ensures Valid()
      ensures this.topicName == topicName && this.messageType == messageType && published == []
      ensures rosConnection.None? ==> jointStateTopic == None && topicsCreated == 0
      ensures rosConnection.Some? ==>
                jointStateTopic == Some(Topic(0, rosConnection.value, topicName, messageType)) && topicsCreated == 1
    {
      this.topicName := topicName;
      this.messageType := messageType;
      published := [];
      if rosConnection.Some? {
        jointStateTopic := Some(Topic(0, rosConnection.value, topicName, messageType));
        topicsCreated := 1;
      } else {
        jointStateTopic := None;
        topicsCreated := 0;
      }
    }

    /** `initializeTopic`: with a connection, a new topic on it replaces the
        old binding, even when one exists; without one nothing changes. */
    method InitializeTopic(rosConnection: Option<HandleId>)
      requires Valid()
      modifies this`jointStateTopic, this`topicsCreated
      ensures Valid()
      ensures rosConnection.None? ==> jointStateTopic == old(jointStateTopic) && topicsCreated == old(topicsCreated)
      ensures rosConnection.Some? ==>
                jointStateTopic == Some(Topic(old(topicsCreated), rosConnection.value, topicName, messageType))
                && topicsCreated == old(topicsCreated) + 1
    {
      if rosConnection.Some? {
        jointStateTopic := Some(Topic(topicsCreated, rosConnection.value, topicName, messageType));
        topicsCreated := topicsCreated + 1;
      }
    }

    /** The status listener: `connected` rebinds to the manager's current
        handle when there is one, `disconnected` drops the binding, other
        statuses change nothing. */
    method OnStatus(status: ConnectionStatus, rosConnection: Option<HandleId>)
      requires Valid()
      modifies this`jointStateTopic, this`topicsCreated
      ensures Valid()
      ensures status == Connected && rosConnection.Some? ==>
                jointStateTopic == Some(Topic(old(topicsCreated), rosConnection.value, topicName, messageType))
                && topicsCreated == old(topicsCreated) + 1
      ensures status == Connected && rosConnection.None? ==>
                jointStateTopic == old(jointStateTopic) && topicsCreated == old(topicsCreated)
      ensures status == Disconnected ==> jointStateTopic == None && topicsCreated == old(topicsCreated)
      ensures status != Connected && status != Disconnected ==>
                jointStateTopic == old(jointStateTopic) && topicsCreated == old(topicsCreated)
    {
      if status == Connected {
        InitializeTopic(rosConnection);
      } else if status == Disconnected {
        jointStateTopic := None;
      }
    }

    /** `publishJointStates`: with no topic it first tries to bind one to
        the manager's current handle; with still none it publishes nothing
        (and does not fail). Otherwise exactly one message is published,
        holding one position per joint, in order. */
    method PublishJointStates(joints: seq<JointControlState>, rosConnection: Option<HandleId>, radianToDegree: real -> real)
      requires Valid()
      modifies this`jointStateTopic, this`topicsCreated, this`published
      ensures Valid()
      ensures old(jointStateTopic).Some? ==> jointStateTopic == old(jointStateTopic) && topicsCreated == old(topicsCreated)
      ensures old(jointStateTopic).None? && rosConnection.None? ==>
                jointStateTopic == None && topicsCreated == old(topicsCreated) && published == old(published)
      ensures old(jointStateTopic).None? && rosConnection.Some? ==>
                jointStateTopic == Some(Topic(old(topicsCreated), rosConnection.value, topicName, messageType))
                && topicsCreated == old(topicsCreated) + 1
      ensures jointStateTopic.Some? ==>
                published == old(published) + [Publication(jointStateTopic.value, Positions(joints, radianToDegree))]
    {
      if jointStateTopic.None? {
        InitializeTopic(rosConnection);
      }
      if jointStateTopic.None? {
        return;
      }
      published := published + [Publication(jointStateTopic.value, Positions(joints, radianToDegree))];
    }
  }
}
