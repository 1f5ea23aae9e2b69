/** The camera switch service caller, EnableCameraHandler
    (src/Services/ros/handlers/EnableCamera.handler.ts). Each `enableCamera`
    promise is an entry of `calls`. */
module EnableCamera {
  import opened Wrappers
  import opened Roslib
  import RosBridge

  const DEFAULT_SERVICE: string := "/camera/mobius/enable"
  const DEFAULT_SERVICE_TYPE: string := "std_srvs/srv/SetBool"
  const NOT_AVAILABLE: string := "ROS connection not available"
  const CALL_FAILED: string := "Service call failed"

  datatype Outcome = Pending | Resolved(success: bool) | Rejected(message: string)

  /** One request sent: the service object it went through and its `data`. */
  datatype ServiceCall = ServiceCall(service: Service, data: bool, outcome: Outcome)

  /** How `enableCamera` returns: rejected at once, or pending on call `k`. */
  datatype EnableCall = RejectedAtOnce(message: string) | Sent(k: nat)

  /** The result callback: a truthy `success` resolves with it, anything
      else rejects with "Service call failed". */
  function ResultOutcome(success: bool): (r: Outcome)
    ensures r.Resolved? <==> success
    ensures r.Resolved? ==> r.success
    ensures r.Rejected? ==> r.message == CALL_FAILED
  {
    if success then Resolved(success) else Rejected(CALL_FAILED)
  }

  class EnableCameraHandler {
    var service: Option<Service>
    var ros: Option<HandleId>
    var servicesCreated: nat
    var calls: seq<ServiceCall>

    ghost predicate Valid()
      reads this
    {
      service.Some? ==> service.value.serial < servicesCreated
    }

    constructor (rosConnection: Option<HandleId>)
      ensures Valid()
      ensures ros == rosConnection && service == None && servicesCreated == 0 && calls == []
    {
      service := None;
      ros := rosConnection;
      servicesCreated := 0;
      calls := [];
    }

    /** The status listener: `connected` takes the manager's handle and drops
        the cached service; `disconnected` drops both; other statuses change
        nothing. */
    method OnStatus(status: RosBridge.ConnectionStatus, rosConnection: Option<HandleId>)
      requires Valid()
      modifies this`ros, this`service
      ensures Valid()
      ensures status == RosBridge.Connected ==> ros == rosConnection && service == None
      ensures status == RosBridge.Disconnected ==> ros == None && service == None
      ensures status != RosBridge.Connected && status != RosBridge.Disconnected ==> ros == old(ros) && service == old(service)
    {
      if status == RosBridge.Connected {
        ros := rosConnection;
        service := None;
      } else if status == RosBridge.Disconnected {
        ros := None;
        service := None;
      }
    }

    /** `enableCamera`: without a handle it rejects at once and sends
        nothing. Otherwise the service object is created only when none is
        cached (so the name and type of later calls are ignored until it is
        dropped) and one request with `data = enable` is sent. */
    method EnableCamera(enable: bool, serviceName: string := DEFAULT_SERVICE,
                        serviceType: string := DEFAULT_SERVICE_TYPE) returns (call: EnableCall)
      requires Valid()
      modifies this`service, this`servicesCreated, this`calls
      ensures Valid()
      ensures old(ros).None? ==>
                call == RejectedAtOnce(NOT_AVAILABLE) && service == old(service)
                && servicesCreated == old(servicesCreated) && calls == old(calls)
      ensures old(ros).Some? && old(service).Some? ==>
                service == old(service) && servicesCreated == old(servicesCreated)
      ensures old(ros).Some? && old(service).None? ==>
                service == Some(Service(old(servicesCreated), ros.value, serviceName, serviceType))
                && servicesCreated == old(servicesCreated) + 1
      ensures old(ros).Some? ==>
                call == Sent(|old(calls)|) && calls == old(calls) + [ServiceCall(service.value, enable, Pending)]
    {
      if ros.None? {
        return RejectedAtOnce(NOT_AVAILABLE);
      }
      if service.None? {
        service := Some(Service(servicesCreated, ros.value, serviceName, serviceType));
        servicesCreated := servicesCreated + 1;
      }
      calls := calls + [ServiceCall(service.value, enable, Pending)];
      call := Sent(|calls| - 1);
    }

    /** The result callback of call `k`; a settled promise stays settled. */
    method OnServiceResult(k: nat, success: bool)
      requires k < |calls|
      modifies this`calls
      ensures |calls| == |old(calls)|
      ensures old(calls[k].outcome) == Pending ==> calls == old(calls)[k := old(calls[k]).(outcome := ResultOutcome(success))]
      ensures old(calls[k].outcome) != Pending ==> calls == old(calls)
    {
      if calls[k].outcome == Pending {
        calls := calls[k := calls[k].(outcome := ResultOutcome(success))];
      }
    }

    /** The failure callback of call `k`: the promise rejects with the
        transport's error. */
    method OnServiceError(k: nat, error: string)
      requires k < |calls|
      modifies this`calls
      ensures |calls| == |old(calls)|
      ensures old(calls[k].outcome) == Pending ==> calls == old(calls)[k := old(calls[k]).(outcome := Rejected(error))]
      ensures old(calls[k].outcome) != Pending ==> calls == old(calls)
    {
      if calls[k].outcome == Pending {
        calls := calls[k := calls[k].(outcome := Rejected(error))];
      }
    }
  }
}
