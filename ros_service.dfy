/** The bridge connection manager, RosBridgeService
    (src/Services/ros/ros.service.ts). The roslib `Ros` object is a handle
    id; the `connection`, `error` and `close` events of any handle ever
    created, and the firing of the connection timeout, are methods that the
    environment calls. Each `connect` promise is an entry of `attempts`,
    indexed by the handle the call created. */
module RosBridge {
  import opened Wrappers
  import opened Seqs
  import opened Roslib

  datatype ConnectionStatus = Disconnected | Connecting | Connected | Reconnecting

  /** Identifies one callback passed to `onStatusChange`; the same callback
      may be registered more than once. */
  type ListenerId = nat

  /** The `connectionTimeout` field: no timer, a pending timer, or the id of
      a timer that already fired (the source does not null the field when
      the timer fires). */
  datatype Timer = NoTimer | Armed | Expired

  datatype ConnectError = ConstructionFailed | FailedToConnect(detail: string)

  /** The state of one `connect` promise. */
  datatype Settlement = Pending | Resolved | Rejected(error: ConnectError)

  /** One `connect` call that created a handle; `viaReconnect` when it was
      made by `reconnect`, whose `catch` then runs after a rejection. */
  datatype Attempt = Attempt(settlement: Settlement, viaReconnect: bool)

  /** How a `connect` or `reconnect` call returns: settled at once, or
      pending on the handle it created. */
  datatype ConnectCall = ResolvedAtOnce | Awaiting(handle: HandleId) | RejectedAtOnce(error: ConnectError)

  /** The observable effects, in order: a listener call, with the manager's
      handle as listeners then see it through `rosConnection`; creating and
      closing a handle; settling the promise of the attempt on a handle. */
  datatype Effect =
    | Notify(listener: ListenerId, status: ConnectionStatus, rosConnection: Option<HandleId>)
    | Open(handle: HandleId, url: string)
    | Close(handle: HandleId)
    | Settled(handle: HandleId, outcome: Settlement)

  /** What drives the manager from outside: calls of its three entry points
      and the events of its handles and timer. */
  datatype BridgeEvent =
    | ConnectCalled(constructionFails: bool)
    | ReconnectCalled(constructionFails: bool)
    | DisconnectCalled
    | ConnectionEvent
    | ErrorEvent
    | CloseEvent
    | TimeoutFired

  /** The status each event leaves behind: `connect` while connecting or
      connected keeps the status, and only a call whose handle could be
      created leads into `connecting`. */
  function StatusAfter(s: ConnectionStatus, e: BridgeEvent): (r: ConnectionStatus)
    ensures e.ConnectCalled? && (s == Connecting || s == Connected) ==> r == s
    ensures r == Connecting ==> (e.ConnectCalled? || e.ReconnectCalled?) && (!e.constructionFails || s == Connecting)
    ensures e.ReconnectCalled? || (e.ConnectCalled? && s != Connecting && s != Connected) ==>
              (r == Connecting <==> !e.constructionFails) && (r == Disconnected <==> e.constructionFails)
  {
    match e
    case ConnectCalled(fails) =>
      if s == Connecting || s == Connected then s
      else if fails then Disconnected else Connecting
    case ReconnectCalled(fails) => if fails then Disconnected else Connecting
    case ConnectionEvent => Connected
    case _ => Disconnected
  }

  /** `reconnecting` is transient: no event leaves the manager in it; and the
      manager becomes `connected` only through a connection event. */
  lemma StatusAfterFacts(s: ConnectionStatus, e: BridgeEvent)
    ensures StatusAfter(s, e) != Reconnecting || (s == Reconnecting && e.ConnectCalled?)
    ensures StatusAfter(s, e) == Connected && s != Connected ==> e == ConnectionEvent
    ensures (e.ErrorEvent? || e.CloseEvent? || e.TimeoutFired? || e.DisconnectCalled?) ==> StatusAfter(s, e) == Disconnected
  {
  }

  /** The listener calls of one `forEach` over the listeners. */
  function Broadcast(listeners: seq<ListenerId>, status: ConnectionStatus, handle: Option<HandleId>): (r: seq<Effect>)
    ensures |r| == |listeners|
    ensures forall i :: 0 <= i < |listeners| ==> r[i] == Notify(listeners[i], status, handle)
  {
    if listeners == [] then []
    else Broadcast(listeners[..|listeners| - 1], status, handle) + [Notify(listeners[|listeners| - 1], status, handle)]
  }

  /** Registration order is notification order: the calls for two lists of
      listeners are the calls for the first followed by those for the
      second. */
  lemma {:induction false} BroadcastAppend(a: seq<ListenerId>, b: seq<ListenerId>, status: ConnectionStatus, handle: Option<HandleId>)
    ensures Broadcast(a + b, status, handle) == Broadcast(a, status, handle) + Broadcast(b, status, handle)
    decreases |b|
  {
    if b == [] {
      assert a + b == a;
    } else {
      var b' := b[..|b| - 1];
      assert (a + b)[..|a + b| - 1] == a + b';
      BroadcastAppend(a, b', status, handle);
    }
  }

  /** After the unregister function of a listener has run, a broadcast calls
      every other registration and never that listener. */
  lemma UnregisteredNotCalled(listeners: seq<ListenerId>, l: ListenerId, status: ConnectionStatus, handle: Option<HandleId>)
    ensures forall e :: e in Broadcast(RemoveAll(listeners, l), status, handle) ==> e.listener != l
    ensures forall k :: k in listeners && k != l ==> Notify(k, status, handle) in Broadcast(RemoveAll(listeners, l), status, handle)
  {
    var r := RemoveAll(listeners, l);
    var b := Broadcast(r, status, handle);
    forall e | e in b ensures e.listener != l {
      var i :| 0 <= i < |b| && b[i] == e;
    }
    forall k | k in listeners && k != l ensures Notify(k, status, handle) in b {
      var i :| 0 <= i < |r| && r[i] == k;
      assert b[i] == Notify(k, status, handle);
    }
  }

  /** The listener calls of `setConnectionStatus(to)` when the status is
      `from`: none when it does not change. */
  function StatusEffects(from: ConnectionStatus, to: ConnectionStatus, listeners: seq<ListenerId>, handle: Option<HandleId>): seq<Effect>
  {
    if from == to then [] else Broadcast(listeners, to, handle)
  }

  /** The logged statuses never repeat one after the other, and the last one
      is the current status (`disconnected` before any was logged). */
  ghost predicate StatusLogValid(log: seq<ConnectionStatus>, status: ConnectionStatus)
  {
    (log == [] ==> status == Disconnected)
    && (log != [] ==> log[|log| - 1] == status && log[0] != Disconnected)
    && (forall i :: 0 < i < |log| ==> log[i - 1] != log[i])
  }

  /** Logging a change of status keeps the log valid. */
  lemma StatusLogAppend(log: seq<ConnectionStatus>, from: ConnectionStatus, to: ConnectionStatus)
    requires from != to
    ensures StatusLogValid(log, from) ==> StatusLogValid(log + [to], to)
  {
    if StatusLogValid(log, from) {
      var l := log + [to];
      assert l[|l| - 1] == to;
      assert l[0] == if log == [] then to else log[0];
      forall i | 0 < i < |l|
        ensures l[i - 1] != l[i]
      {
        if i < |log| {
          assert l[i - 1] == log[i - 1] && l[i] == log[i];
        } else {
          assert l[i - 1] == log[|log| - 1] == from;
        }
      }
    }
  }

  function CloseEffects(ros: Option<HandleId>): seq<Effect>
  {
    if ros.Some? then [Close(ros.value)] else []
  }

  class RosBridgeService {
    var ros: Option<HandleId>
    var connectionStatus: ConnectionStatus
    var url: string
    var timer: Timer
    var statusListeners: seq<ListenerId>
    /** One entry per handle ever created, in creation order. */
    var attempts: seq<Attempt>
    /** Everything observable the manager did, in order. */
    var trace: seq<Effect>
    /** The "ROS Bridge Status" log lines: every status actually emitted. */
    var statusLog: seq<ConnectionStatus>

    const CONNECTION_TIMEOUT_MS: nat := 10000

    /** Holds between calls and also while `reconnect` is between its own
        status change and the `connect` it delegates to. */
    ghost predicate Consistent()
      reads this
    {
      && (connectionStatus == Connecting ==> timer == Armed)
      && (timer == Armed ==> connectionStatus == Connecting || connectionStatus == Reconnecting)
      && (ros.Some? ==> ros.value < |attempts|)
      && (connectionStatus == Connecting ==>
            |attempts| > 0 && ros == Some(|attempts| - 1) && attempts[|attempts| - 1].settlement == Pending)
      && StatusLogValid(statusLog, connectionStatus)
    }

    /** Holds between calls: the timer is pending exactly while connecting,
        and `reconnecting` is never the status at rest. */
    ghost predicate Valid()
      reads this
    {
      Consistent() && connectionStatus != Reconnecting
    }

    constructor ()
      ensures Valid()
      ensures ros == None && connectionStatus == Disconnected && url == "" && timer == NoTimer
      ensures statusListeners == [] && attempts == [] && trace == [] && statusLog == []
    {
      ros := None;
      connectionStatus := Disconnected;
      url := "";
      timer := NoTimer;
      statusListeners := [];
      attempts := [];
      trace := [];
      statusLog := [];
    }

    /** `rosConnection`: when there is a handle it is one an attempt
        created, and while connecting it is the latest attempt's, whose
        promise is still pending. */
    function RosConnection(): (r: Option<HandleId>)
      reads this
      ensures Consistent() && r.Some? ==> r.value < |attempts|
      ensures Consistent() && connectionStatus == Connecting ==>
                r == Some(|attempts| - 1) && attempts[|attempts| - 1].settlement == Pending
    {
      ros
    }

    /** `isConnected`: a view of the status, which the contract of every
        mutator fixes (StatusAfter, StatusAfterFacts). */
    function IsConnected(): (r: bool)
      reads this
      ensures r <==> connectionStatus == Connected
    {
      connectionStatus == Connected
    }

    /** `currentUrl`: the URL that the latest `connect` or `reconnect`
        past its short-circuit stored (Connect, Reconnect). */
    function CurrentUrl(): (r: string)
      reads this
      ensures r == url
    {
      url
    }

    /** `setConnectionStatus`: a change of status is logged and every
        registered listener is called once, in registration order; setting
        the current status does nothing. */
    method SetConnectionStatus(status: ConnectionStatus)
      modifies this`connectionStatus, this`trace, this`statusLog
      ensures connectionStatus == status
      ensures trace == old(trace) + StatusEffects(old(connectionStatus), status, statusListeners, ros)
      ensures statusLog == if old(connectionStatus) == status then old(statusLog) else old(statusLog) + [status]
      ensures old(StatusLogValid(statusLog, connectionStatus)) ==> StatusLogValid(statusLog, connectionStatus)
    {
      if connectionStatus != status {
        connectionStatus := status;
        var i := 0;
        while i < |statusListeners|
          invariant 0 <= i <= |statusListeners|
          invariant connectionStatus == status && statusLog == old(statusLog)
          invariant trace == old(trace) + Broadcast(statusListeners[..i], status, ros)
        {
          assert statusListeners[..i + 1][..i] == statusListeners[..i];
          trace := trace + [Notify(statusListeners[i], status, ros)];
          i := i + 1;
        }
        assert statusListeners[..i] == statusListeners;
        StatusLogAppend(statusLog, old(connectionStatus), status);
        statusLog := statusLog + [status];
      }
    }

    /** `clearConnectionTimeout`. */
    method ClearConnectionTimeout()
      modifies this`timer
      ensures timer == NoTimer
    {
      if timer != NoTimer {
        timer := NoTimer;
      }
    }

    /** `startConnectionTimeout`: any previous timer is cleared first. */
    method StartConnectionTimeout()
      modifies this`timer
      ensures timer == Armed
    {
      ClearConnectionTimeout();
      timer := Armed;
    }

    /** The `if (this.ros) { this.ros.close(); this.ros = null; }` step. */
    method CloseConnection()
      modifies this`ros, this`trace
      ensures ros == None
      ensures trace == old(trace) + CloseEffects(old(ros))
    {
      if ros.Some? {
        trace := trace + [Close(ros.value)];
        ros := None;
      }
    }

    /** `onStatusChange`: the callback is appended. */
    method OnStatusChange(listener: ListenerId)
      modifies this`statusListeners
      ensures statusListeners == old(statusListeners) + [listener]
    {
      statusListeners := statusListeners + [listener];
    }

    /** The unregister function `onStatusChange` returns: every registration
        of that callback is removed, the others keep their order. */
    method Unregister(listener: ListenerId)
      modifies this`statusListeners
      ensures statusListeners == RemoveAll(old(statusListeners), listener)
    {
      statusListeners := RemoveAll(statusListeners, listener);
    }

    /** The part of `connect` past the short-circuit, shared with
        `reconnect`: store the URL, close the old handle, become
        `connecting`, arm the timer and create a new handle, whose promise is
        pending; a constructor that throws leaves the timer cleared and the
        status `disconnected`. */
    method StartAttempt(newUrl: string, constructionFails: bool, viaReconnect: bool) returns (call: ConnectCall)
      requires Consistent()
      requires connectionStatus != Connecting && connectionStatus != Connected
      modifies this`ros, this`connectionStatus, this`url, this`timer, this`attempts, this`trace, this`statusLog
      ensures Valid()
      ensures url == newUrl
      ensures connectionStatus == if constructionFails then Disconnected else Connecting
      ensures constructionFails ==>
                && call == RejectedAtOnce(ConstructionFailed)
                && ros == None && timer == NoTimer && attempts == old(attempts)
                && trace == old(trace) + CloseEffects(old(ros)) + Broadcast(statusListeners, Connecting, None)
                                       + Broadcast(statusListeners, Disconnected, None)
      ensures !constructionFails ==>
                && call == Awaiting(|old(attempts)|)
                && ros == Some(|old(attempts)|) && timer == Armed
                && attempts == old(attempts) + [Attempt(Pending, viaReconnect)]
                && trace == old(trace) + CloseEffects(old(ros)) + Broadcast(statusListeners, Connecting, None)
                                       + [Open(|old(attempts)|, newUrl)]
    {
      BeginAttempt(newUrl);
      if constructionFails {
        AbortAttempt();
        call := RejectedAtOnce(ConstructionFailed);
      } else {
        var h := OpenHandle(newUrl, viaReconnect);
        call := Awaiting(h);
      }
    }

    /** The `catch` of `connect` when the handle cannot be created: clear the
        timer and become `disconnected`. */
    method AbortAttempt()
      requires connectionStatus == Connecting && StatusLogValid(statusLog, connectionStatus)
      modifies this`connectionStatus, this`timer, this`trace, this`statusLog
      ensures connectionStatus == Disconnected && timer == NoTimer
      ensures trace == old(trace) + Broadcast(statusListeners, Disconnected, ros)
      ensures StatusLogValid(statusLog, connectionStatus)
    {
      ClearConnectionTimeout();
      SetConnectionStatus(Disconnected);
    }

    /** `new ROSLIB.Ros({ url })`: a fresh handle whose promise is pending. */
    method OpenHandle(newUrl: string, viaReconnect: bool) returns (h: HandleId)
      modifies this`ros, this`attempts, this`trace
      ensures h == |old(attempts)| && ros == Some(h)
      ensures attempts == old(attempts) + [Attempt(Pending, viaReconnect)]
      ensures trace == old(trace) + [Open(h, newUrl)]
    {
      h := |attempts|;
      attempts := attempts + [Attempt(Pending, viaReconnect)];
      trace := trace + [Open(h, newUrl)];
      ros := Some(h);
    }

    /** The first steps of every attempt: store the URL, close the old
        handle, become `connecting` and arm the timer. */
    method BeginAttempt(newUrl: string)
      requires Consistent()
      requires connectionStatus != Connecting && connectionStatus != Connected
      modifies this`ros, this`connectionStatus, this`url, this`timer, this`trace, this`statusLog
      ensures url == newUrl && ros == None && connectionStatus == Connecting && timer == Armed
      ensures trace == old(trace) + CloseEffects(old(ros)) + Broadcast(statusListeners, Connecting, None)
      ensures statusLog == old(statusLog) + [Connecting]
      ensures StatusLogValid(statusLog, connectionStatus)
    {
      url := newUrl;
      CloseConnection();
      SetConnectionStatus(Connecting);
      StartConnectionTimeout();
    }

    /** `connect`: while connecting or connected it resolves at once and
        changes nothing; otherwise it starts a new attempt. */
    method Connect(newUrl: string, constructionFails: bool) returns (call: ConnectCall)
      requires Valid()
      modifies this
      ensures Valid()
      ensures connectionStatus == StatusAfter(old(connectionStatus), ConnectCalled(constructionFails))
      ensures old(connectionStatus) == Connecting || old(connectionStatus) == Connected ==>
                call == ResolvedAtOnce && unchanged(this)
      ensures old(connectionStatus) == Disconnected ==>
                && url == newUrl && statusListeners == old(statusListeners)
                && (constructionFails ==>
                      && call == RejectedAtOnce(ConstructionFailed)
                      && ros == None && timer == NoTimer && attempts == old(attempts)
                      && trace == old(trace) + CloseEffects(old(ros)) + Broadcast(statusListeners, Connecting, None)
                                             + Broadcast(statusListeners, Disconnected, None))
                && (!constructionFails ==>
                      && call == Awaiting(|old(attempts)|)
                      && ros == Some(|old(attempts)|) && timer == Armed
                      && attempts == old(attempts) + [Attempt(Pending, false)]
                      && trace == old(trace) + CloseEffects(old(ros)) + Broadcast(statusListeners, Connecting, None)
                                             + [Open(|old(attempts)|, newUrl)])
    {
      if connectionStatus == Connecting || connectionStatus == Connected {
        call := ResolvedAtOnce;
        return;
      }
      call := StartAttempt(newUrl, constructionFails, false);
    }

    /** `reconnect`: always emits `reconnecting`, then does what `connect`
        does past its short-circuit (which `reconnecting` never takes); when
        that fails at once its `catch` sets `disconnected`, already the
        status, so nothing more is emitted. */
    method Reconnect(newUrl: string, constructionFails: bool) returns (call: ConnectCall)
      requires Valid()
      modifies this
      ensures Valid()
      ensures connectionStatus == StatusAfter(old(connectionStatus), ReconnectCalled(constructionFails))
      ensures url == newUrl && statusListeners == old(statusListeners)
      ensures constructionFails ==>
                && call == RejectedAtOnce(ConstructionFailed)
                && ros == None && timer == NoTimer && attempts == old(attempts)
                && trace == old(trace) + Broadcast(statusListeners, Reconnecting, old(ros))
                                       + CloseEffects(old(ros)) + Broadcast(statusListeners, Connecting, None)
                                       + Broadcast(statusListeners, Disconnected, None)
      ensures !constructionFails ==>
                && call == Awaiting(|old(attempts)|)
                && ros == Some(|old(attempts)|) && timer == Armed
                && attempts == old(attempts) + [Attempt(Pending, true)]
                && trace == old(trace) + Broadcast(statusListeners, Reconnecting, old(ros))
                                       + CloseEffects(old(ros)) + Broadcast(statusListeners, Connecting, None)
                                       + [Open(|old(attempts)|, newUrl)]
    {
      SetConnectionStatus(Reconnecting);
      call := StartAttempt(newUrl, constructionFails, true);
      if call.RejectedAtOnce? {
        SetConnectionStatus(Disconnected);
      }
    }

    /** `disconnect`: never fails, and always ends with no timer, no handle
        and status `disconnected`. A pending `connect` promise stays
        pending. */
    method Disconnect()
      requires Valid()
      modifies this`ros, this`connectionStatus, this`timer, this`trace, this`statusLog
      ensures Valid()
      ensures timer == NoTimer && ros == None && connectionStatus == Disconnected
      ensures trace == old(trace) + CloseEffects(old(ros)) + StatusEffects(old(connectionStatus), Disconnected, statusListeners, None)
    {
      ClearConnectionTimeout();
      CloseConnection();
      SetConnectionStatus(Disconnected);
    }

    /** The pending promise of the attempt on `h`, settled with `outcome`;
        a promise already settled stays as it was. */
    method Settle(h: HandleId, outcome: Settlement)
      requires h < |attempts|
      modifies this`attempts, this`trace
      ensures |attempts| == |old(attempts)|
      ensures old(attempts[h].settlement) == Pending ==>
                attempts == old(attempts)[h := old(attempts[h]).(settlement := outcome)]
                && trace == old(trace) + [Settled(h, outcome)]
      ensures old(attempts[h].settlement) != Pending ==> attempts == old(attempts) && trace == old(trace)
    {
      if attempts[h].settlement == Pending {
        attempts := attempts[h := attempts[h].(settlement := outcome)];
        trace := trace + [Settled(h, outcome)];
      }
    }

    /** The `connection` event of handle `h` (any handle ever created): the
        timer is cleared and the status set to `connected` before the
        attempt's promise resolves. */
    method OnConnection(h: HandleId)
      requires Valid() && h < |attempts|
      modifies this`connectionStatus, this`timer, this`attempts, this`trace, this`statusLog
      ensures Valid()
      ensures timer == NoTimer && connectionStatus == Connected
      ensures |attempts| == |old(attempts)|
      ensures old(attempts[h].settlement) == Pending ==>
                attempts == old(attempts)[h := old(attempts[h]).(settlement := Resolved)]
                && trace == old(trace) + StatusEffects(old(connectionStatus), Connected, statusListeners, ros)
                                       + [Settled(h, Resolved)]
      ensures old(attempts[h].settlement) != Pending ==>
                attempts == old(attempts)
                && trace == old(trace) + StatusEffects(old(connectionStatus), Connected, statusListeners, ros)
    {
      ClearConnectionTimeout();
      SetConnectionStatus(Connected);
      Settle(h, Resolved);
    }

    /** The `error` event of handle `h`: the timer is cleared, the status set
        to `disconnected`, and then a pending promise of the attempt on `h`
        is rejected; for an attempt made by `reconnect` its `catch` sets
        `disconnected` again, which emits nothing. */
    method OnError(h: HandleId, detail: string)
      requires Valid() && h < |attempts|
      modifies this`connectionStatus, this`timer, this`attempts, this`trace, this`statusLog
      ensures Valid()
      ensures timer == NoTimer && connectionStatus == Disconnected
      ensures |attempts| == |old(attempts)|
      ensures old(attempts[h].settlement) == Pending ==>
                attempts == old(attempts)[h := old(attempts[h]).(settlement := Rejected(FailedToConnect(detail)))]
                && trace == old(trace) + StatusEffects(old(connectionStatus), Disconnected, statusListeners, ros)
                                       + [Settled(h, Rejected(FailedToConnect(detail)))]
      ensures old(attempts[h].settlement) != Pending ==>
                attempts == old(attempts)
                && trace == old(trace) + StatusEffects(old(connectionStatus), Disconnected, statusListeners, ros)
    {
      ClearConnectionTimeout();
      SetConnectionStatus(Disconnected);
      var wasPending := attempts[h].settlement == Pending;
      Settle(h, Rejected(FailedToConnect(detail)));
      if wasPending && attempts[h].viaReconnect {
        SetConnectionStatus(Disconnected);
      }
    }

    /** The `close` event of handle `h`: the timer is cleared and the status
        set to `disconnected`; no promise is settled. */
    method OnClose(h: HandleId)
      requires Valid() && h < |attempts|
      modifies this`connectionStatus, this`timer, this`trace, this`statusLog
      ensures Valid()
      ensures timer == NoTimer && connectionStatus == Disconnected
      ensures trace == old(trace) + StatusEffects(old(connectionStatus), Disconnected, statusListeners, ros)
    {
      ClearConnectionTimeout();
      SetConnectionStatus(Disconnected);
    }

    /** The connection timeout firing (only a pending timer fires): the
        status is forced to `disconnected` while the handle is still set,
        then the handle is closed and nulled. The attempt's promise is not
        settled, and the field keeps the fired timer's id. */
    method OnTimeout()
      requires Valid() && timer == Armed
      modifies this`ros, this`connectionStatus, this`timer, this`trace, this`statusLog
      ensures Valid()
      ensures timer == Expired && ros == None && connectionStatus == Disconnected
      ensures trace == old(trace) + Broadcast(statusListeners, Disconnected, old(ros)) + CloseEffects(old(ros))
    {
      SetConnectionStatus(Disconnected);
      CloseConnection();
      timer := Expired;
    }
  }

  /** A `reconnect` from a live handle, followed by the `close` event of the
      handle it replaced. The listener that `createConnection` attached to
      the old handle is never removed, so that event clears the new
      attempt's timer and notifies `disconnected` while the new handle is
      set and its promise is pending, now with no timeout behind it. */
  method StaleCloseAfterReconnect(m: RosBridgeService, newUrl: string) returns (stale: HandleId, current: HandleId)
    requires m.Valid() && m.ros.Some?
    modifies m
    ensures stale == old(m.ros).value && stale != current && m.ros == Some(current)
    ensures m.connectionStatus == Disconnected && m.timer == NoTimer
    ensures current < |m.attempts| && m.attempts[current].settlement == Pending
    ensures m.trace == old(m.trace) + Broadcast(m.statusListeners, Reconnecting, Some(stale)) + [Close(stale)]
                       + Broadcast(m.statusListeners, Connecting, None) + [Open(current, newUrl)]
                       + Broadcast(m.statusListeners, Disconnected, Some(current))
  {
    stale := m.ros.value;
    var call := m.Reconnect(newUrl, false);
    current := call.handle;
    m.OnClose(stale);
  }
}
