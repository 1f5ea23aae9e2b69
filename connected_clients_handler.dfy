/** The connected-clients monitor, ConnectedClientsHandler
    (src/Services/ros/handlers/ConnectedClients.handler.ts): a live count
    topic plus a count request on every connection, reported to one
    callback. */
module ConnectedClients {
  import opened Wrappers
  import opened Roslib
  import opened RosBridge

  const COUNT_TOPIC: string := "/client_count"
  const COUNT_MESSAGE_TYPE: string := "std_msgs/msg/Int32"
  const COUNT_SERVICE: string := "/get_client_count"
  const COUNT_SERVICE_TYPE: string := "camera_ros/srv/GetInt"

  /** A count service result: no result object at all, or one whose `value`
      may be missing or null. */
  datatype CountResult = NoResult | CountResponse(value: Option<int>)

  /** Live messages are forwarded only when `data` is defined, non-null and
      strictly positive. */
  function LiveCount(data: Option<int>): (r: Option<int>)
    ensures r.Some? <==> data.Some? && data.value > 0
    ensures r.Some? ==> r == data
  {
    if data.Some? && data.value > 0 then data else None
  }

  /** Service results are forwarded for any defined, non-null value, 0
      included. */
  function ServiceCount(result: CountResult): (r: Option<int>)
    ensures r.Some? <==> result.CountResponse? && result.value.Some?
    ensures r.Some? ==> r.value == result.value.value
  {
    match result
    case NoResult => None
    case CountResponse(v) => v
  }

  /** The two paths differ exactly on zero and negative counts: a count the
      service reports can be one the live topic drops. */
  lemma ZeroOnlyFromService()
    ensures ServiceCount(CountResponse(Some(0))) == Some(0)
    ensures LiveCount(Some(0)) == None
  {
  }

  class ConnectedClientsHandler {
    var connectedClientsTopic: Option<Topic>
    var connectedClientsService: Option<Service>
    var ros: Option<HandleId>
    var topicsCreated: nat
    /** Every count request sent, in order, on the service object created
        for it. */
    var requests: seq<Service>
    /** Requests whose result callback has run. */
    var answered: set<nat>
    var unsubscribed: seq<Topic>
    /** The callback's calls, in order. */
    var reported: seq<int>

    ghost predicate Valid()
      reads this
    {
      && (connectedClientsTopic.Some? ==> connectedClientsTopic.value.serial < topicsCreated)
      && (forall k :: k in answered ==> k < |requests|)
      && (connectedClientsService.Some? ==> |requests| > 0 && connectedClientsService.value == requests[|requests| - 1])
    }

    constructor (rosConnection: Option<HandleId>)
      ensures Valid()
      ensures ros == rosConnection && connectedClientsTopic == None && connectedClientsService == None
      ensures topicsCreated == 0 && requests == [] && answered == {} && unsubscribed == [] && reported == []
    {
      connectedClientsTopic := None;
      connectedClientsService := None;
      ros := rosConnection;
      topicsCreated := 0;
      requests := [];
      answered := {};
      unsubscribed := [];
      reported := [];
    }

    /** `initializeTopic`: without a connection nothing happens; otherwise a
        new live-count topic on it. */
    method InitializeTopic()
      requires Valid()
      modifies this`connectedClientsTopic, this`topicsCreated
      ensures Valid()
      ensures ros.None? ==> connectedClientsTopic == old(connectedClientsTopic) && topicsCreated == old(topicsCreated)
      ensures ros.Some? ==>
                connectedClientsTopic == Some(Topic(old(topicsCreated), ros.value, COUNT_TOPIC, COUNT_MESSAGE_TYPE))
                && topicsCreated == old(topicsCreated) + 1
    {
      if ros.None? {
        return;
      }
      connectedClientsTopic := Some(Topic(topicsCreated, ros.value, COUNT_TOPIC, COUNT_MESSAGE_TYPE));
      topicsCreated := topicsCreated + 1;
    }

    /** `getConnectedClientsCount`: without a connection nothing happens;
        otherwise a new service object is created and one request sent. */
    method GetConnectedClientsCount()
      requires Valid()
      modifies this`connectedClientsService, this`requests
      ensures Valid()
      ensures ros.None? ==> connectedClientsService == old(connectedClientsService) && requests == old(requests)
      ensures ros.Some? ==>
                connectedClientsService == Some(Service(|old(requests)|, ros.value, COUNT_SERVICE, COUNT_SERVICE_TYPE))
                && requests == old(requests) + [connectedClientsService.value]
    {
      if ros.None? {
        return;
      }
      var service := Service(|requests|, ros.value, COUNT_SERVICE, COUNT_SERVICE_TYPE);
      connectedClientsService := Some(service);
      requests := requests + [service];
    }

    /** The status listener. `connected` takes the manager's handle, binds
        the topic only if none exists, and always asks for the count (both
        no-ops without a handle). `disconnected` tears down the topic, drops
        the handle and reports 0. Other statuses change nothing. */
    method OnStatus(status: ConnectionStatus, rosConnection: Option<HandleId>)
      requires Valid()
      modifies this
      ensures Valid()
      ensures status == Connected ==>
                && ros == rosConnection && reported == old(reported) && unsubscribed == old(unsubscribed)
                && (old(connectedClientsTopic).None? && rosConnection.Some? ==>
                      connectedClientsTopic == Some(Topic(old(topicsCreated), rosConnection.value, COUNT_TOPIC, COUNT_MESSAGE_TYPE))
                      && topicsCreated == old(topicsCreated) + 1)
                && (old(connectedClientsTopic).Some? || rosConnection.None? ==>
                      connectedClientsTopic == old(connectedClientsTopic) && topicsCreated == old(topicsCreated))
                && (rosConnection.Some? ==>
                      requests == old(requests) + [Service(|old(requests)|, rosConnection.value, COUNT_SERVICE, COUNT_SERVICE_TYPE)])
                && (rosConnection.Some? ==>
                      connectedClientsService == Some(Service(|old(requests)|, rosConnection.value, COUNT_SERVICE, COUNT_SERVICE_TYPE)))
                && (rosConnection.None? ==> requests == old(requests) && connectedClientsService == old(connectedClientsService))
      ensures status == Disconnected ==>
                && ros == None && connectedClientsTopic == None
                && unsubscribed == old(unsubscribed)
                     + (if old(connectedClientsTopic).Some? then [old(connectedClientsTopic).value] else [])
                && reported == old(reported) + [0]
                && requests == old(requests) && topicsCreated == old(topicsCreated)
                && connectedClientsService == old(connectedClientsService)
      ensures status != Connected && status != Disconnected ==>
                && ros == old(ros) && connectedClientsTopic == old(connectedClientsTopic) && requests == old(requests)
                && reported == old(reported) && unsubscribed == old(unsubscribed)
                && connectedClientsService == old(connectedClientsService) && topicsCreated == old(topicsCreated)
      ensures answered == old(answered)
    {
      if status == Connected {
        ros := rosConnection;
        if connectedClientsTopic.None? {
          InitializeTopic();
        }
        GetConnectedClientsCount();
      } else if status == Disconnected {
        ros := None;
        if connectedClientsTopic.Some? {
          unsubscribed := unsubscribed + [connectedClientsTopic.value];
          connectedClientsTopic := None;
        }
        reported := reported + [0];
      }
    }

    /** A message of the live-count topic. */
    method OnCountMessage(data: Option<int>)
      requires connectedClientsTopic.Some?
      modifies this`reported
      ensures reported == old(reported) + (if LiveCount(data).Some? then [data.value] else [])
    {
      var count := LiveCount(data);
      if count.Some? {
        reported := reported + [count.value];
      }
    }

    /** The result callback of count request `k`, which runs once. */
    method OnCountResult(k: nat, result: CountResult)
      requires Valid() && k < |requests| && k !in answered
      modifies this`reported, this`answered
      ensures Valid()
      ensures answered == old(answered) + {k}
      ensures reported == old(reported) + (if ServiceCount(result).Some? then [ServiceCount(result).value] else [])
    {
      answered := answered + {k};
      var count := ServiceCount(result);
      if count.Some? {
        reported := reported + [count.value];
      }
    }

    /** `unsubscribe`: tears down only the topic; the status listener stays
        registered with the manager, so a later `connected` binds a new
        topic. */
    method Unsubscribe()
      requires Valid()
      modifies this`connectedClientsTopic, this`unsubscribed
      ensures Valid()
      ensures connectedClientsTopic == None
      ensures unsubscribed == old(unsubscribed)
                + (if old(connectedClientsTopic).Some? then [old(connectedClientsTopic).value] else [])
    {
      if connectedClientsTopic.Some? {
        unsubscribed := unsubscribed + [connectedClientsTopic.value];
        connectedClientsTopic := None;
      }
    }
  }
}
