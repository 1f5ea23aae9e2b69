/** The camera stream handler, CameraHandler
    (src/Services/ros/handlers/Camera.handler.ts): a list of frame
    subscribers, an image topic that exists while there are subscribers and
    a connection, and per-frame throttling, delay and rate metrics. Time is
    the `Date.now()` value of each message, in integer milliseconds. */
module Camera {
  import opened Wrappers
  import opened Seqs
  import opened Roslib
  import opened RosBridge

  newtype byte = x: int | 0 <= x < 256

  /** Identifies one callback passed to `subscribeToCamera`. */
  type CallbackId = nat

  /** Frames closer together than this are dropped (about 10 per second). */
  const FRAME_INTERVAL: int := 100
  /** Length of the frame-rate window. */
  const FPS_WINDOW: int := 1000

  const DEFAULT_TOPIC: string := "/camera/mobius/jpg"
  const DEFAULT_MESSAGE_TYPE: string := "sensor_msgs/msg/CompressedImage"

  /** The handler's frame metrics. */
  datatype FrameClock = FrameClock(lastFrameTime: int, frameDelay: int, fps: int, frameCount: int, fpsStartTime: int)

  const INITIAL_CLOCK: FrameClock := FrameClock(0, 0, 0, 0, 0)

  /** `Math.round(n / d)` for a non-negative quotient: the nearest integer,
      halves rounded up. */
  function RoundDiv(n: nat, d: nat): (r: nat)
    requires d > 0
    ensures 2 * d * r <= 2 * n + d < 2 * d * r + 2 * d
  {
    (2 * n + d) / (2 * d)
  }

  /** A message at `now` is processed only when at least the frame interval
      has passed since the last processed one. */
  predicate Accepts(c: FrameClock, now: int)
    ensures Accepts(c, now) ==> now > c.lastFrameTime
  {
    now - c.lastFrameTime >= FRAME_INTERVAL
  }

  /** Once a message time passes the throttle, every later one does too,
      until a frame is processed. */
  lemma AcceptsLater(c: FrameClock, now: int, later: int)
    requires Accepts(c, now) && now <= later
    ensures Accepts(c, later)
  {
  }

  /** The metrics after a message arriving at `now`. A dropped message
      changes nothing. A processed one reports the time since the previous
      processed frame as its delay (0 for the very first), counts itself in
      the current window (which the first processed frame opens), and once
      the window spans a second publishes the rounded rate and opens a new
      window at `now`. */
  function Tick(c: FrameClock, now: int): (r: FrameClock)
    requires c.frameCount >= 0
    ensures r.frameCount >= 0
    ensures !Accepts(c, now) ==> r == c
    ensures Accepts(c, now) ==> r.lastFrameTime == now
    ensures Accepts(c, now) && c.lastFrameTime == 0 ==> r.frameDelay == 0
    ensures Accepts(c, now) && c.lastFrameTime > 0 ==> r.frameDelay == now - c.lastFrameTime >= FRAME_INTERVAL
    ensures Accepts(c, now) ==>
              var start := if c.fpsStartTime == 0 then now else c.fpsStartTime;
              if now - start >= FPS_WINDOW then
                r.fps == RoundDiv((c.frameCount + 1) * 1000, now - start) && r.frameCount == 0 && r.fpsStartTime == now
              else
                r.fps == c.fps && r.frameCount == c.frameCount + 1 && r.fpsStartTime == start
  {
    if !Accepts(c, now) then c
    else
      var frameDelay := if c.lastFrameTime > 0 then now - c.lastFrameTime else 0;
      var fpsStartTime := if c.fpsStartTime == 0 then now else c.fpsStartTime;
      var frameCount := c.frameCount + 1;
      var timeElapsed := now - fpsStartTime;
      if timeElapsed >= FPS_WINDOW then
        FrameClock(now, frameDelay, RoundDiv(frameCount * 1000, timeElapsed), 0, now)
      else
        FrameClock(now, frameDelay, c.fps, frameCount, fpsStartTime)
  }

  /** `n` messages arriving every frame interval, the first at `t`. */
  function SteadyRun(c: FrameClock, t: int, n: nat): FrameClock
    requires c.frameCount >= 0
    ensures SteadyRun(c, t, n).frameCount >= 0
    decreases n
  {
    if n == 0 then c else SteadyRun(Tick(c, t), t + FRAME_INTERVAL, n - 1)
  }

  lemma {:induction false} SteadyRunSplit(c: FrameClock, t: int, a: nat, b: nat)
    requires c.frameCount >= 0
    ensures SteadyRun(c, t, a + b) == SteadyRun(SteadyRun(c, t, a), t + a * FRAME_INTERVAL, b)
    decreases a
  {
    if a > 0 {
      SteadyRunSplit(Tick(c, t), t + FRAME_INTERVAL, a - 1, b);
    }
  }

  /** Inside one window, each frame of a steady stream is counted and the
      published rate stays as it was. */
  lemma {:induction false} SteadyWithinWindow(c: FrameClock, n: nat)
    requires c.frameCount >= 0 && c.lastFrameTime > 0 && c.fpsStartTime > 0
    requires c.lastFrameTime + n * FRAME_INTERVAL - c.fpsStartTime < FPS_WINDOW
    ensures SteadyRun(c, c.lastFrameTime + FRAME_INTERVAL, n)
              == c.(lastFrameTime := c.lastFrameTime + n * FRAME_INTERVAL,
                    frameDelay := if n == 0 then c.frameDelay else FRAME_INTERVAL,
                    frameCount := c.frameCount + n)
    decreases n
  {
    if n > 0 {
      var c' := Tick(c, c.lastFrameTime + FRAME_INTERVAL);
      assert c' == c.(lastFrameTime := c.lastFrameTime + FRAME_INTERVAL, frameDelay := FRAME_INTERVAL,
                      frameCount := c.frameCount + 1);
      SteadyWithinWindow(c', n - 1);
    }
  }

  /** The first second of a steady stream: eleven frames, the last of which
      publishes 11 and opens the next window. */
  lemma SteadyFirstWindow(t0: int)
    requires t0 >= FRAME_INTERVAL
    ensures SteadyRun(INITIAL_CLOCK, t0, 11) == FrameClock(t0 + 1000, 100, 11, 0, t0 + 1000)
  {
    var first := Tick(INITIAL_CLOCK, t0);
    assert first == FrameClock(t0, 0, 0, 1, t0);
    SteadyWithinWindow(first, 9);
    var c9 := SteadyRun(first, t0 + FRAME_INTERVAL, 9);
    assert c9 == FrameClock(t0 + 900, 100, 0, 10, t0);
    assert Tick(c9, t0 + 1000) == FrameClock(t0 + 1000, 100, 11, 0, t0 + 1000);
    SteadyRunSplit(first, t0 + FRAME_INTERVAL, 9, 1);
  }

  /** The second second: ten more frames, the last of which publishes 10. */
  lemma SteadySecondWindow(t0: int)
    requires t0 >= FRAME_INTERVAL
    ensures SteadyRun(FrameClock(t0 + 1000, 100, 11, 0, t0 + 1000), t0 + 1100, 10).fps == 10
  {
    var c10 := FrameClock(t0 + 1000, 100, 11, 0, t0 + 1000);
    SteadyWithinWindow(c10, 9);
    var c19 := SteadyRun(c10, t0 + 1100, 9);
    assert c19 == FrameClock(t0 + 1900, 100, 11, 9, t0 + 1000);
    assert Tick(c19, t0 + 2000).fps == 10;
    SteadyRunSplit(c10, t0 + 1100, 9, 1);
  }

  /** A steady 10-per-second stream starting at `t0` reports 11 frames per
      second after its first second and 10 after its second: the first
      window counts the frame that opens it, later windows start on a frame
      already counted in the window before. */
  lemma SteadyStreamRates(t0: int)
    requires t0 >= FRAME_INTERVAL
    ensures SteadyRun(INITIAL_CLOCK, t0, 11).fps == 11
    ensures SteadyRun(INITIAL_CLOCK, t0, 21).fps == 10
  {
    SteadyFirstWindow(t0);
    SteadySecondWindow(t0);
    SteadyRunSplit(INITIAL_CLOCK, t0, 11, 10);
  }

  /** `binary.charCodeAt(i)` stored in a `Uint8Array`, which keeps the low
      eight bits (the output of `atob` is always below 256). */
  function ByteOf(c: char): byte
  {
    (c as int % 256) as byte
  }

  /** The bytes of a decoded image string. */
  function BytesOf(binary: string): (r: seq<byte>)
    ensures |r| == |binary|
    ensures forall i :: 0 <= i < |binary| ==> r[i] == ByteOf(binary[i])
  {
    if binary == [] then [] else BytesOf(binary[..|binary| - 1]) + [ByteOf(binary[|binary| - 1])]
  }

  /** The array-filling loop: an array of the decoded length holding each
      character code. */
  method DecodeImage(binary: string) returns (bytes: array<byte>)
    ensures fresh(bytes)
    ensures bytes[..] == BytesOf(binary)
  {
    var len := |binary|;
    bytes := new byte[len];
    for i := 0 to len
      invariant bytes[..i] == BytesOf(binary)[..i]
    {
      bytes[i] := ByteOf(binary[i]);
      assert bytes[..i + 1] == bytes[..i] + [bytes[i]];
      assert BytesOf(binary)[..i + 1] == BytesOf(binary)[..i] + [BytesOf(binary)[i]];
    }
    assert bytes[..] == bytes[..len];
    assert BytesOf(binary)[..len] == BytesOf(binary);
  }

  /** One subscriber call: the image array (the same object for every
      subscriber of a frame), the frame delay and the rate. */
  datatype Delivery = Delivery(subscriber: CallbackId, image: array<byte>, frameDelay: int, fps: int)

  /** The subscriber calls of one `forEach`. */
  function Deliveries(subscribers: seq<CallbackId>, image: array<byte>, frameDelay: int, fps: int): (r: seq<Delivery>)
    ensures |r| == |subscribers|
    ensures forall i :: 0 <= i < |r| ==> r[i] == Delivery(subscribers[i], image, frameDelay, fps)
  {
    if subscribers == [] then []
    else Deliveries(subscribers[..|subscribers| - 1], image, frameDelay, fps)
           + [Delivery(subscribers[|subscribers| - 1], image, frameDelay, fps)]
  }

  class CameraHandler {
    var imageTopic: Option<Topic>
    var subscribers: seq<CallbackId>
    var ros: Option<HandleId>
    var lastFrameTime: int
    var frameDelay: int
    var fps: int
    var frameCount: int
    var fpsStartTime: int
    /** Topic objects created so far; the next one gets this serial. */
    var topicsCreated: nat
    /** Topics this handler unsubscribed from, in order. */
    var unsubscribed: seq<Topic>
    /** Every subscriber call made, in order. */
    var deliveries: seq<Delivery>

    /** A topic exists only while someone is subscribed. */
    ghost predicate Valid()
      reads this
    {
      && frameCount >= 0
      && (imageTopic.Some? ==> imageTopic.value.serial < topicsCreated && |subscribers| > 0)
    }

    ghost function Clock(): FrameClock
      reads this
    {
      FrameClock(lastFrameTime, frameDelay, fps, frameCount, fpsStartTime)
    }

    /** Constructing the handler reads the manager's current connection
        (registering the status listener is the manager's `onStatusChange`). */
    constructor (rosConnection: Option<HandleId>)
      ensures Valid()
      ensures ros == rosConnection && imageTopic == None && subscribers == []
      ensures Clock() == INITIAL_CLOCK
      ensures topicsCreated == 0 && unsubscribed == [] && deliveries == []
    {
      imageTopic := None;
      subscribers := [];
      ros := rosConnection;
      lastFrameTime := 0;
      frameDelay := 0;
      fps := 0;
      frameCount := 0;
      fpsStartTime := 0;
      topicsCreated := 0;
      unsubscribed := [];
      deliveries := [];
    }

    /** `initializeTopic`: without a connection nothing happens; otherwise a
        new topic on the handler's connection becomes the image topic. */
    method InitializeTopic(topicName: string, messageType: string)
      requires Valid() && |subscribers| > 0
      modifies this`imageTopic, this`topicsCreated
      ensures Valid()
      ensures ros.None? ==> imageTopic == old(imageTopic) && topicsCreated == old(topicsCreated)
      ensures ros.Some? ==>
                imageTopic == Some(Topic(old(topicsCreated), ros.value, topicName, messageType))
                && topicsCreated == old(topicsCreated) + 1
    {
      if ros.None? {
        return;
      }
      imageTopic := Some(Topic(topicsCreated, ros.value, topicName, messageType));
      topicsCreated := topicsCreated + 1;
    }

    /** The status listener. `connected` takes the manager's connection and
        creates the default topic if there are subscribers and no topic;
        `disconnected` drops the connection and tears the topic down; other
        statuses change nothing. */
    method OnStatus(status: ConnectionStatus, rosConnection: Option<HandleId>)
      requires Valid()
      modifies this`ros, this`imageTopic, this`topicsCreated, this`unsubscribed
      ensures Valid()
      ensures status == Connected ==>
                && ros == rosConnection && unsubscribed == old(unsubscribed)
                && (|subscribers| > 0 && old(imageTopic).None? && rosConnection.Some? ==>
                      imageTopic == Some(Topic(old(topicsCreated), rosConnection.value, DEFAULT_TOPIC, DEFAULT_MESSAGE_TYPE))
                      && topicsCreated == old(topicsCreated) + 1)
                && (!(|subscribers| > 0 && old(imageTopic).None? && rosConnection.Some?) ==>
                      imageTopic == old(imageTopic) && topicsCreated == old(topicsCreated))
      ensures status == Disconnected ==>
                && ros == None && imageTopic == None && topicsCreated == old(topicsCreated)
                && unsubscribed == old(unsubscribed) + (if old(imageTopic).Some? then [old(imageTopic).value] else [])
      ensures status != Connected && status != Disconnected ==>
                ros == old(ros) && imageTopic == old(imageTopic)
                && topicsCreated == old(topicsCreated) && unsubscribed == old(unsubscribed)
    {
      if status == Connected {
        ros := rosConnection;
        if |subscribers| > 0 && imageTopic.None? {
          InitializeTopic(DEFAULT_TOPIC, DEFAULT_MESSAGE_TYPE);
        }
      } else if status == Disconnected {
        ros := None;
        if imageTopic.Some? {
          unsubscribed := unsubscribed + [imageTopic.value];
          imageTopic := None;
        }
      }
    }

    /** `subscribeToCamera`: the callback is always appended; a topic is
        created only when there is none and a connection is available. */
    method SubscribeToCamera(callback: CallbackId, topicName: string := DEFAULT_TOPIC,
                             messageType: string := DEFAULT_MESSAGE_TYPE)
      requires Valid()
      modifies this`subscribers, this`imageTopic, this`topicsCreated
      ensures Valid()
      ensures subscribers == old(subscribers) + [callback]
      ensures old(imageTopic).None? && ros.Some? ==>
                imageTopic == Some(Topic(old(topicsCreated), ros.value, topicName, messageType))
                && topicsCreated == old(topicsCreated) + 1
      ensures !(old(imageTopic).None? && ros.Some?) ==>
                imageTopic == old(imageTopic) && topicsCreated == old(topicsCreated)
    {
      subscribers := subscribers + [callback];
      if imageTopic.Some? {
        return;
      }
      InitializeTopic(topicName, messageType);
    }

    /** `unsubscribeFromCamera`: every registration of the callback is
        removed; when none are left the topic is unsubscribed and nulled. */
    method UnsubscribeFromCamera(callback: CallbackId)
      requires Valid()
      modifies this`subscribers, this`imageTopic, this`unsubscribed
      ensures Valid()
      ensures subscribers == RemoveAll(old(subscribers), callback)
      ensures subscribers == [] ==>
                imageTopic == None
                && unsubscribed == old(unsubscribed) + (if old(imageTopic).Some? then [old(imageTopic).value] else [])
      ensures subscribers != [] ==> imageTopic == old(imageTopic) && unsubscribed == old(unsubscribed)
    {
      subscribers := RemoveAll(subscribers, callback);
      if |subscribers| == 0 && imageTopic.Some? {
        unsubscribed := unsubscribed + [imageTopic.value];
        imageTopic := None;
      }
    }

    /** The image topic's message callback, for a message arriving at `now`
        whose `data` field is `data`; `atob` is the browser's base64 decoder,
        `None` where it throws. The metrics follow `Tick`. A dropped frame, a
        message without data, or data that does not decode reaches no
        subscriber; otherwise every current subscriber receives the same
        array of decoded bytes with the new delay and rate. */
    method OnImageMessage(now: int, data: Option<string>, atob: string -> Option<string>)
      returns (image: Option<array<byte>>)
      requires Valid() && imageTopic.Some?
      modifies this`lastFrameTime, this`frameDelay, this`fps, this`frameCount, this`fpsStartTime, this`deliveries
      ensures Valid()
      ensures Clock() == Tick(old(Clock()), now)
      ensures !Accepts(old(Clock()), now) || data.None? || data == Some("") || atob(data.value).None? ==>
                image == None && deliveries == old(deliveries)
      ensures Accepts(old(Clock()), now) && data.Some? && data.value != "" && atob(data.value).Some? ==>
                && image.Some? && fresh(image.value)
                && image.value[..] == BytesOf(atob(data.value).value)
                && deliveries == old(deliveries) + Deliveries(subscribers, image.value, frameDelay, fps)
    {
      image := None;
      var accepted := UpdateMetrics(now);
      if !accepted || data.None? || data.value == "" {
        return;
      }
      var binary := atob(data.value);
      if binary.None? {
        return;
      }
      var bytes := DecodeImage(binary.value);
      Deliver(bytes);
      image := Some(bytes);
    }

    /** The metrics part of the message callback: the throttle, the delay
        and the rate window. */
    method UpdateMetrics(now: int) returns (accepted: bool)
      requires Valid()
      modifies this`lastFrameTime, this`frameDelay, this`fps, this`frameCount, this`fpsStartTime
      ensures Valid()
      ensures accepted == Accepts(old(Clock()), now)
      ensures Clock() == Tick(old(Clock()), now)
    {
      if now - lastFrameTime < FRAME_INTERVAL {
        return false;
      }
      frameDelay := if lastFrameTime > 0 then now - lastFrameTime else 0;
      lastFrameTime := now;
      if fpsStartTime == 0 {
        fpsStartTime := now;
      }
      frameCount := frameCount + 1;
      var timeElapsed := now - fpsStartTime;
      if timeElapsed >= FPS_WINDOW {
        fps := RoundDiv(frameCount * 1000, timeElapsed);
        frameCount := 0;
        fpsStartTime := now;
      }
      return true;
    }

    /** `this.subscribers.forEach(sub => sub(array, this.frameDelay, this.fps))`. */
    method Deliver(bytes: array<byte>)
      modifies this`deliveries
      ensures deliveries == old(deliveries) + Deliveries(subscribers, bytes, frameDelay, fps)
    {
      for i := 0 to |subscribers|
        invariant deliveries == old(deliveries) + Deliveries(subscribers[..i], bytes, frameDelay, fps)
      {
        assert subscribers[..i + 1][..i] == subscribers[..i];
        deliveries := deliveries + [Delivery(subscribers[i], bytes, frameDelay, fps)];
      }
      assert subscribers[..|subscribers|] == subscribers;
    }
  }
}
