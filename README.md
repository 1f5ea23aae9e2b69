# lucy_control_panel core, in Dafny

This project models the logic behind the Lucy robot control panel, a React
application that drives an InMoov-style humanoid over a ROS bridge
websocket. The following parts are modelled and proved:

- **Bridge connection manager** (`RosBridge.RosBridgeService`). It is the
  singleton that owns the one roslib `Ros` connection and its four-state
  status (`disconnected`, `connecting`, `connected`, `reconnecting`). It
  also owns the 10-second connection timeout and the list of status
  listeners.
  - A `Ros` object is an abstract handle id, handed out in creation order.
  - The websocket's `connection`, `error` and `close` events, and the
    firing of the timeout, are methods that take the handle they come from.
    Handlers stay attached to every handle ever created, so an event from a
    replaced handle still acts on the manager.
  - Each `connect` call's promise is an entry of `attempts` that is
    pending, resolved or rejected.
  - Every observable effect is appended to `trace` in order: a listener
    notified, a handle opened, a handle closed, a promise settled.
- **Channel handlers**. Each is a class reacting to the manager's
  notifications, together with any requests from the UI:
  - the camera stream (`Camera.CameraHandler`): frame throttling, frame
    delay and FPS, byte decoding and fan-out to subscribers;
  - the joint-state publisher (`JointState.JointStateHandler`);
  - the connected-clients monitor
    (`ConnectedClients.ConnectedClientsHandler`);
  - the camera enable service (`EnableCamera.EnableCameraHandler`).
- **Pose storage** (`PoseStorage.CookieStorageService`). It stores one
  cookie per pose plus an index cookie.
  - The browser's cookie jar is a sequence of name/value cookies in
    creation order (`CookieJar`). `document.cookie` lookups are the "first
    `; `-separated row starting with `key=`" rule.
  - JSON and URI encoding are the functions of a `Codec`. Its laws
    (`Lawful`) are the round trips the real encoders guarantee.
- **Pure helpers**:
  - joint filtering, range defaults and categorisation (`UrdfParser`);
  - mesh path resolution over the robot configuration (`RobotConfig`);
  - the joint-list updates, grouping, pose loading, drag handling and
    status display of the control page (`ControlPanel`);
  - the clamp applied to typed input (`JointControl`).

Shared helpers model the JavaScript string and array operations they
stand for (`Strings`, `Seqs`, `Wrappers`, `Roslib`, `RobotTypes`).

Time (`Date.now()`), generated ids, `atob`, `radianToDegree` /
`degreesToRadians` and the roslib callbacks (service results, incoming
messages) are inputs of the methods that need them.

Two behaviours are stated because the code has them:

- A steady 10 Hz camera stream reports 11 FPS for its first window. The
  frame that opens the window is counted. See `Camera.SteadyStreamRates`.
- The `reconnect` call itself, from `connected`, passes through
  `reconnecting` and `connecting` and notifies no `disconnected`. But it
  closes the old handle, and the `close` listener `createConnection`
  attached to that handle is never removed. When that handle's `close`
  event arrives, it clears the new attempt's timer and notifies
  `disconnected`. The handlers then drop their handle and topics, while
  the new handle stays set and its promise stays pending with no timeout
  behind it, until that handle's own `connection` or `error` event. See
  `RosBridge.StaleCloseAfterReconnect`.

## Model

| member | source | states |
|---|---|---|
| RosBridge.Broadcast | src/Services/ros/ros.service.ts:25 | one notification per registered listener, in registration order, each carrying the new status |
| RosBridge.BroadcastAppend | src/Services/ros/ros.service.ts:25 | notifying a concatenated listener list notifies the first part, then the second |
| RosBridge.UnregisteredNotCalled | src/Services/ros/ros.service.ts:98-103 | once a listener is unregistered it receives no notification; every other listener still receives one |
| RosBridge.StatusAfterFacts | src/Services/ros/ros.service.ts:35-51 | only a `connection` event leads into `connected`; error, close, timeout and disconnect all lead to `disconnected`; `reconnecting` survives only a pending connect from itself |
| RosBridge.StatusAfter | src/Services/ros/ros.service.ts:105-156 | `connect` while connecting or connected keeps the status; a `connect` past that check, or any `reconnect`, ends in `connecting` exactly when the handle could be created and in `disconnected` exactly when it could not; nothing else ends in `connecting` |
| RosBridge.RosBridgeService.constructor | src/Services/ros/ros.service.ts:15-19 | starts disconnected, with no handle, empty URL, no timer and no listeners |
| RosBridge.RosBridgeService.IsConnected | src/Services/ros/ros.service.ts:90-92 | true exactly when the status is `connected`, the status each mutator fixes through StatusAfter |
| RosBridge.RosBridgeService.RosConnection | src/Services/ros/ros.service.ts:82-84 | a handle it returns was created by an attempt; while connecting it is the latest attempt's handle, whose promise is pending |
| RosBridge.RosBridgeService.CurrentUrl | src/Services/ros/ros.service.ts:94-96 | the stored URL, which Connect and Reconnect set to their argument past the short-circuit |
| RosBridge.RosBridgeService.SetConnectionStatus | src/Services/ros/ros.service.ts:22-28 | the status becomes the argument; listeners are notified in order only when it differs from the old status, and the status log then grows by that status (so it never repeats a status twice in a row) |
| RosBridge.StatusLogAppend | src/Services/ros/ros.service.ts:22-28 | logging a status different from the current one keeps the log free of repeats and ending in the current status |
| RosBridge.RosBridgeService.ClearConnectionTimeout | src/Services/ros/ros.service.ts:56-61 | afterwards no timer is pending |
| RosBridge.RosBridgeService.StartConnectionTimeout | src/Services/ros/ros.service.ts:63-73 | afterwards one timer is armed |
| RosBridge.RosBridgeService.CloseConnection | src/Services/ros/ros.service.ts:115-118 | a held handle is closed (recorded in the trace) and the handle becomes null |
| RosBridge.RosBridgeService.OnStatusChange | src/Services/ros/ros.service.ts:98-99 | appends the listener to the list |
| RosBridge.RosBridgeService.Unregister | src/Services/ros/ros.service.ts:100-102 | removes every occurrence of the listener, keeping the others in order |
| RosBridge.RosBridgeService.StartAttempt | src/Services/ros/ros.service.ts:113-144 | stores the URL, closes any prior handle, notifies `connecting`, arms the timer and opens a fresh handle with a pending promise; a constructor failure clears the timer, notifies `disconnected` and rejects at once |
| RosBridge.RosBridgeService.BeginAttempt | src/Services/ros/ros.service.ts:113-121 | stores the URL, closes any prior handle, logs and notifies `connecting` and arms the timer |
| RosBridge.RosBridgeService.AbortAttempt | src/Services/ros/ros.service.ts:140-143 | clears the timer and becomes `disconnected`, notifying every listener |
| RosBridge.RosBridgeService.OpenHandle | src/Services/ros/ros.service.ts:124 | a fresh handle, numbered after all earlier ones, with a pending promise and an `Open` effect |
| RosBridge.RosBridgeService.Connect | src/Services/ros/ros.service.ts:105-146 | while `connecting` or `connected` it resolves at once and changes nothing; from `disconnected` it behaves as StartAttempt with the status, URL, handle, timer, promise and trace stated in full |
| RosBridge.RosBridgeService.Reconnect | src/Services/ros/ros.service.ts:148-156 | notifies `reconnecting` with the old handle, then connects without short-circuiting; a failed attempt ends `disconnected` and rejects |
| RosBridge.RosBridgeService.Disconnect | src/Services/ros/ros.service.ts:158-165 | always ends with no timer, no handle and status `disconnected`, closing the old handle first and notifying only on a change |
| RosBridge.RosBridgeService.Settle | src/Services/ros/ros.service.ts:126-136 | settles a pending promise once; a settled promise ignores later outcomes |
| RosBridge.RosBridgeService.OnConnection | src/Services/ros/ros.service.ts:35-39 | clears the timer and sets `connected` (listeners notified first), then resolves the handle's pending promise |
| RosBridge.RosBridgeService.OnError | src/Services/ros/ros.service.ts:41-45 | clears the timer and sets `disconnected`, then rejects the handle's pending promise with the error |
| RosBridge.RosBridgeService.OnClose | src/Services/ros/ros.service.ts:47-51 | clears the timer and sets `disconnected`; no promise is settled |
| RosBridge.StaleCloseAfterReconnect | src/Services/ros/ros.service.ts:47-51 | after a reconnect from a live handle, that handle's close event leaves the new handle set with its promise pending, but the status `disconnected`, no timer, and one `disconnected` notification per listener carrying the new handle |
| RosBridge.RosBridgeService.OnTimeout | src/Services/ros/ros.service.ts:65-72 | notifies `disconnected` with the old handle still set, then closes and nulls the handle; the pending promise stays pending |
| Camera.RoundDiv | src/Services/ros/handlers/Camera.handler.ts:83 | `Math.round(n / d)` for non-negative n: the nearest integer, halves rounded up |
| Camera.Accepts | src/Services/ros/handlers/Camera.handler.ts:66-68 | a message passes the throttle only at least 100 ms after the last processed frame, so processed frame times strictly increase |
| Camera.AcceptsLater | src/Services/ros/handlers/Camera.handler.ts:66-68 | a time that passes the throttle stays passing for every later time |
| Camera.Tick | src/Services/ros/handlers/Camera.handler.ts:65-86 | a frame less than 100 ms after the last accepted one changes no metric; otherwise the delay is 0 for the first frame and the gap (at least 100) after, and the FPS window restarts with `round(count*1000/elapsed)` once 1000 ms have elapsed, the FPS being kept before that |
| Camera.SteadyRunSplit | src/Services/ros/handlers/Camera.handler.ts:65-86 | a steady frame run splits into two consecutive runs |
| Camera.SteadyWithinWindow | src/Services/ros/handlers/Camera.handler.ts:75-86 | inside one FPS window a steady run only counts frames and advances the last frame time |
| Camera.SteadyStreamRates | src/Services/ros/handlers/Camera.handler.ts:75-86 | a steady 10 Hz stream reports 11 FPS after its first window and 10 after its second |
| Camera.SteadyFirstWindow | src/Services/ros/handlers/Camera.handler.ts:75-86 | eleven frames of a steady stream publish 11 and open the next window at the eleventh frame |
| Camera.SteadySecondWindow | src/Services/ros/handlers/Camera.handler.ts:75-86 | ten more frames publish 10 |
| Camera.BytesOf | src/Services/ros/handlers/Camera.handler.ts:94-96 | one byte per decoded character, in order, the char code truncated to 8 bits |
| Camera.DecodeImage | src/Services/ros/handlers/Camera.handler.ts:93-96 | a fresh array of exactly the decoded length whose element i is the i-th char code |
| Camera.Deliveries | src/Services/ros/handlers/Camera.handler.ts:98 | every subscriber, in order, receives the same array, delay and FPS |
| Camera.CameraHandler.constructor | src/Services/ros/handlers/Camera.handler.ts:6-15 | starts with the manager's handle, no topic, no subscribers and zeroed metrics |
| Camera.CameraHandler.InitializeTopic | src/Services/ros/handlers/Camera.handler.ts:49-62 | with no handle nothing changes; otherwise a new topic is bound to the handle with the given name and type |
| Camera.CameraHandler.OnStatus | src/Services/ros/handlers/Camera.handler.ts:18-31 | on `connected` the handle refreshes and a topic is created only when there are subscribers, no topic and a handle; on `disconnected` handle and topic become null, the old topic being unsubscribed; other statuses change nothing |
| Camera.CameraHandler.SubscribeToCamera | src/Services/ros/handlers/Camera.handler.ts:105-115 | always appends the callback; creates a topic only when none exists and a handle is available |
| Camera.CameraHandler.UnsubscribeFromCamera | src/Services/ros/handlers/Camera.handler.ts:117-123 | removes every occurrence of the callback; when none remain the topic is unsubscribed and nulled |
| Camera.CameraHandler.OnImageMessage | src/Services/ros/handlers/Camera.handler.ts:64-102 | metrics advance by Tick even without data; a dropped frame, missing data or a decode failure delivers nothing; otherwise the decoded array goes to every subscriber |
| Camera.CameraHandler.UpdateMetrics | src/Services/ros/handlers/Camera.handler.ts:65-86 | the metric fields advance exactly as Tick says; the result tells whether the frame was accepted |
| Camera.CameraHandler.Deliver | src/Services/ros/handlers/Camera.handler.ts:98 | appends one delivery per current subscriber |
| JointState.Positions | src/Services/ros/handlers/JointState.handler.ts:58-60 | same length and order as the joints; element i is `radianToDegree(joints[i].currentValue)` |
| JointState.PositionsAppend | src/Services/ros/handlers/JointState.handler.ts:59 | the position vector of a concatenation is the concatenation of the vectors |
| JointState.JointStateHandler.constructor | src/Services/ros/handlers/JointState.handler.ts:12-22 | binds a topic at once when the manager holds a handle, none otherwise |
| JointState.JointStateHandler.InitializeTopic | src/Services/ros/handlers/JointState.handler.ts:24-33 | rebinds the topic to the current handle when there is one; otherwise leaves it |
| JointState.JointStateHandler.OnStatus | src/Services/ros/handlers/JointState.handler.ts:13-19 | on `connected` rebinds when a handle exists; on `disconnected` the topic becomes null; other statuses change nothing |
| JointState.JointStateHandler.PublishJointStates | src/Services/ros/handlers/JointState.handler.ts:48-62 | with no topic it first tries to bind one; with still no topic nothing is published; otherwise exactly one message with Positions is published |
| ConnectedClients.LiveCount | src/Services/ros/handlers/ConnectedClients.handler.ts:73-77 | a live value reaches the callback exactly when it is defined, non-null and strictly positive |
| ConnectedClients.ServiceCount | src/Services/ros/handlers/ConnectedClients.handler.ts:44-48 | a service result is forwarded exactly when it exists and has a defined, non-null value |
| ConnectedClients.ZeroOnlyFromService | src/Services/ros/handlers/ConnectedClients.handler.ts:44-48 | a zero is forwarded from the service but filtered from the topic |
| ConnectedClients.ConnectedClientsHandler.constructor | src/Services/ros/handlers/ConnectedClients.handler.ts:11-31 | starts with the manager's handle and no topic or service |
| ConnectedClients.ConnectedClientsHandler.InitializeTopic | src/Services/ros/handlers/ConnectedClients.handler.ts:57-78 | with no handle nothing changes; otherwise binds `/client_count` |
| ConnectedClients.ConnectedClientsHandler.GetConnectedClientsCount | src/Services/ros/handlers/ConnectedClients.handler.ts:33-49 | with no handle nothing changes; otherwise creates a fresh service binding and issues one request |
| ConnectedClients.ConnectedClientsHandler.OnStatus | src/Services/ros/handlers/ConnectedClients.handler.ts:12-28 | on `connected` takes the handle, binds a new topic (one more created) only if none exists, and with a handle replaces the service by a new one and sends one request; without a handle nothing else changes; on `disconnected` the topic is unsubscribed and nulled, the handle nulled and 0 reported; other statuses change nothing |
| ConnectedClients.ConnectedClientsHandler.OnCountMessage | src/Services/ros/handlers/ConnectedClients.handler.ts:73-77 | reports the value exactly when LiveCount lets it through |
| ConnectedClients.ConnectedClientsHandler.OnCountResult | src/Services/ros/handlers/ConnectedClients.handler.ts:44-48 | each request is answered once; reports the value exactly when ServiceCount lets it through |
| ConnectedClients.ConnectedClientsHandler.Unsubscribe | src/Services/ros/handlers/ConnectedClients.handler.ts:80-85 | tears down only the topic; handle, service and listener stay |
| EnableCamera.ResultOutcome | src/Services/ros/handlers/EnableCamera.handler.ts:54-61 | resolves exactly when `success` is truthy, otherwise rejects with "Service call failed" |
| EnableCamera.EnableCameraHandler.constructor | src/Services/ros/handlers/EnableCamera.handler.ts:10-22 | starts with the manager's handle and no cached service |
| EnableCamera.EnableCameraHandler.OnStatus | src/Services/ros/handlers/EnableCamera.handler.ts:11-19 | `connected` refreshes the handle and drops the cached service; `disconnected` nulls both; other statuses change nothing |
| EnableCamera.EnableCameraHandler.EnableCamera | src/Services/ros/handlers/EnableCamera.handler.ts:36-68 | with no handle it rejects with "ROS connection not available" and sends nothing; otherwise the service is created only when absent and reused after, and one pending request carrying `data = enable` is sent |
| EnableCamera.EnableCameraHandler.OnServiceResult | src/Services/ros/handlers/EnableCamera.handler.ts:54-61 | settles a pending call by ResultOutcome; a settled call stays as it was |
| EnableCamera.EnableCameraHandler.OnServiceError | src/Services/ros/handlers/EnableCamera.handler.ts:62-64 | a transport error rejects the pending call with that error |
| CookieJar.Rows | src/Services/storageService.ts:30-31 | one `name=value` row per cookie, in jar order |
| CookieJar.FindRow | src/Services/storageService.ts:32 | none exactly when no row starts with the prefix; otherwise the first row that does |
| CookieJar.UpToEq | src/Services/storageService.ts:33 | the text before the first `=`, which holds no `=` and is the whole text when there is none |
| CookieJar.SecondField | src/Services/storageService.ts:33 | `row.split('=')[1]`: defined exactly when the row holds a `=`; then the `=`-free text that follows the first `=` and runs to the next `=` or the end |
| CookieJar.CookieValue | src/Services/storageService.ts:30-33 | a value exactly when some row starts with `key=`; a value found never holds a `=` |
| CookieJar.NamedValue | src/Services/storageService.ts:49 | the value of the cookie with that name, none exactly when no cookie has it |
| CookieJar.Upsert | src/Services/storageService.ts:49 | writing a cookie sets its value and leaves every other name's value as it was |
| CookieJar.Remove | src/Services/storageService.ts:90 | an expired write removes the name and leaves every other name's value |
| CookieJar.UpsertWellFormed | src/Services/storageService.ts:49 | writing a name without `=` keeps names unique and free of `=` |
| CookieJar.RowMatchesOnlyItsName | src/Services/storageService.ts:32 | a row starts with `key=` exactly when its cookie is named `key` |
| CookieJar.CookieValueIsNamedValue | src/Services/storageService.ts:30-33 | the row lookup reads the text before the first `=` of the named cookie's value |
| CookieJar.WriteThenLookup | src/Services/storageService.ts:30-33 | a written `=`-free value reads back; a removed one reads as absent; other keys read as before |
| CookieJar.UpsertThenLookup | src/Services/storageService.ts:30-33 | a written `=`-free value reads back and other keys read as before |
| CookieJar.RemoveThenLookup | src/Services/storageService.ts:30-33 | a removed key reads as absent and other keys read as before |
| PoseStorage.PoseKeyFacts | src/Services/storageService.ts:20-21 | a pose cookie's name never collides with the index cookie's |
| PoseStorage.IndexRoundTrip | src/Services/storageService.ts:28-54 | `setPoseIndex` then `getPoseIndex` gives back the ids; pose lookups are unaffected |
| PoseStorage.PoseKeyInjective | src/Services/storageService.ts:60 | different ids have different cookie names |
| PoseStorage.PoseRoundTrip | src/Services/storageService.ts:56-87 | `setPoseCookie` then `getPoseCookie` gives back the pose; the index is unaffected |
| PoseStorage.PoseKey | src/Services/storageService.ts:60 | `lucy_pose_` followed by the id, nothing else |
| PoseStorage.PoseIndex | src/Services/storageService.ts:28-43 | no index cookie, an empty value or a value that does not decode all read as the empty list |
| PoseStorage.PoseCookie | src/Services/storageService.ts:56-71 | no pose cookie or an empty value reads as null; a pose read is what the codec decodes from the stored value |
| PoseStorage.WithTimestamp | src/Services/storageService.ts:152 | the poses of a list that carry one timestamp, in list order |
| PoseStorage.InsertKeepsTies | src/Services/storageService.ts:152 | inserting a pose into a sorted list places it ahead of the poses with its timestamp and keeps the order of every timestamp's poses |
| PoseStorage.SortKeepsTies | src/Services/storageService.ts:152 | the sort is stable: for every timestamp, its poses come out in their input order |
| PoseStorage.PoseWriteFrame | src/Services/storageService.ts:82 | writing one pose leaves every other pose's lookup as it was |
| PoseStorage.PoseCookieOf | src/Services/storageService.ts:136-137 | one lookup per index id, in order |
| PoseStorage.Kept | src/Services/storageService.ts:136-144 | the found poses in index order, all of them exactly when every id was found |
| PoseStorage.IdsOf | src/Services/storageService.ts:147 | the poses' ids, in order |
| PoseStorage.Names | src/Services/storageService.ts:111 | the poses' names, in order |
| PoseStorage.FoundIds | src/Services/storageService.ts:147 | exactly the ids whose lookup found a pose |
| PoseStorage.KeptIdsAreFoundIds | src/Services/storageService.ts:136-147 | when each pose carries its own id, the kept poses' ids are the found ids in their original order |
| PoseStorage.FoundAll | src/Services/storageService.ts:148 | when every id has a pose nothing is filtered out |
| PoseStorage.CleanedIndex | src/Services/storageService.ts:146-150 | for a jar whose index lists plain ids (no `=`, not "index") and whose pose cookies each hold a pose carrying their own id (IdsConsistent), after `loadPoses` the index lists exactly the ids that still have a pose, in their original order; the index is rewritten only when some were missing; every pose reads as before |
| PoseStorage.EmptyJarConsistent | src/Services/storageService.ts:28-43 | a jar without cookies satisfies IdsConsistent |
| PoseStorage.SavedKeepsIds | src/Services/storageService.ts:120-126 | a save of a pose with a plain id keeps the jar well-formed and IdsConsistent: its cookie holds a pose carrying its id, and the index gains only that id |
| PoseStorage.CleanedKeepsIds | src/Services/storageService.ts:146-150 | the clean-up of `loadPoses` keeps the jar well-formed and IdsConsistent: poses read as before and the rewritten index is a sub-list of the old one |
| PoseStorage.InsertByTimestamp | src/Services/storageService.ts:152 | inserting into a newest-first list keeps it sorted and adds exactly that pose |
| PoseStorage.InsertBehind | src/Services/storageService.ts:152 | a pose older than the head goes behind it and the list stays sorted with that pose added |
| PoseStorage.ConsSorted | src/Services/storageService.ts:152 | a pose at least as new as the head of a sorted list can go in front |
| PoseStorage.SortByTimestampDesc | src/Services/storageService.ts:152 | the result is sorted newest first and is a permutation of its input; SortKeepsTies adds stability |
| PoseStorage.JointValues | src/Services/storageService.ts:97-100 | the record holds exactly the joints' names, each mapped to the current value of the last joint of that name |
| PoseStorage.JointValuesStep | src/Services/storageService.ts:97-100 | recording the last joint over the record of the others keeps both properties of JointValues |
| PoseStorage.CollectJointValues | src/Services/storageService.ts:96-100 | the `forEach` loop builds exactly JointValues: every joint name, mapped to the value of its last joint |
| PoseStorage.SuffixedInjective | src/Services/storageService.ts:115 | different counters give different `name (k)` names |
| PoseStorage.SuffixNotEarlier | src/Services/storageService.ts:115 | the name for k is not among those for 1 to m, when m < k |
| PoseStorage.SuffixSetFacts | src/Services/storageService.ts:115 | the names for 1 to k are k distinct names |
| PoseStorage.SuffixSetWithin | src/Services/storageService.ts:114-115 | names that are all used lie among the existing names |
| PoseStorage.SuffixesBound | src/Services/storageService.ts:114-117 | at most as many suffixed names can be in use as there are names, so the counter is bounded |
| PoseStorage.LeastFreeFrom | src/Services/storageService.ts:113-117 | the least counter from a start on whose name is unused |
| PoseStorage.DedupName | src/Services/storageService.ts:110-118 | the trimmed name when unused, otherwise `name (k)` for the least k >= 1 not in use; never an existing name |
| PoseStorage.DeduplicateName | src/Services/storageService.ts:111-118 | the `while` loop terminates and computes DedupName |
| PoseStorage.SaveEffects | src/Services/storageService.ts:120-128 | a save appends exactly the new id at the end of the index and `loadPose` of that id returns the pose; other poses read as before |
| PoseStorage.RemoveEffects | src/Services/storageService.ts:89-91 | deleting a pose cookie makes it read as null; the index and the other poses read as before |
| PoseStorage.DeleteEffects | src/Services/storageService.ts:155-163 | a delete removes every occurrence of the id from the index, keeps the other ids in order, and `loadPose` of it returns null |
| PoseStorage.DeletedKeepsIds | src/Services/storageService.ts:155-163 | a delete of a plain id keeps the jar well-formed and IdsConsistent |
| PoseStorage.CookieStorageService.constructor | src/Services/storageService.ts:19-22 | holds the given jar and codec |
| PoseStorage.CookieStorageService.SetPoseIndex | src/Services/storageService.ts:45-54 | writes the encoded ids under the index name |
| PoseStorage.CookieStorageService.SetPoseCookie | src/Services/storageService.ts:73-87 | an encoded pose over 4000 characters is refused with nothing written; otherwise it is written under its pose name |
| PoseStorage.CookieStorageService.DeletePoseCookie | src/Services/storageService.ts:89-91 | removes the pose's cookie |
| PoseStorage.CookieStorageService.LoadPose | src/Services/storageService.ts:165-167 | a pose it returns is stored under the pose's key with a non-empty value, and is what the codec decodes from that value |
| PoseStorage.CookieStorageService.LoadPoses | src/Services/storageService.ts:131-153 | returns the found poses newest first and leaves the cleaned-up jar |
| PoseStorage.CookieStorageService.CollectPoses | src/Services/storageService.ts:132-144 | the loop over the index collects exactly the poses that read back, in index order |
| PoseStorage.CookieStorageService.SavePose | src/Services/storageService.ts:93-129 | loads (cleaning up), builds the pose with the joints record and the de-duplicated trimmed name; an oversized pose fails before the pose or the index is written; otherwise the pose then the index with the id appended are written |
| PoseStorage.CookieStorageService.DeletePose | src/Services/storageService.ts:155-163 | removes the pose cookie, then writes the filtered index |
| UrdfParser.Controllable | src/Utils/urdfParser.ts:65-66 | keeps exactly the `revolute` and `continuous` joints |
| UrdfParser.ControllableAppend | src/Utils/urdfParser.ts:65-66 | the filter distributes over concatenation, so input order is kept |
| UrdfParser.ControlStateFor | src/Utils/urdfParser.ts:67-81 | name and type copied, category from CategorizeJoint, current and target both the midpoint of the range |
| UrdfParser.RangeDefaults | src/Utils/urdfParser.ts:69-70 | min and max default to -3.14159 and 3.14159 when the limit is absent or the bound is 0 |
| UrdfParser.CreateJointControlStates | src/Utils/urdfParser.ts:64-83 | one control state per controllable joint, in input order |
| UrdfParser.ContainsAnyOf | src/Utils/urdfParser.ts:88 | a name containing any listed word satisfies the `||` chain |
| UrdfParser.Rule | src/Utils/urdfParser.ts:88-101 | Base holds of every name; of the empty name only Base holds |
| UrdfParser.Rank | src/Utils/urdfParser.ts:88-101 | the tests are tried from Head (first) to Base (last, and only Base is last) |
| UrdfParser.CategorizeJoint | src/Utils/urdfParser.ts:85-103 | the lower-cased name satisfies the chosen category's test and no earlier test in the order Head, Left Hand, Right Hand, Left Arm, Right Arm, Torso, Base |
| UrdfParser.CategorizeIgnoresCase | src/Utils/urdfParser.ts:86 | classification ignores ASCII case |
| UrdfParser.HeadWordWins | src/Utils/urdfParser.ts:88-89 | a name containing head, eye, jaw or neck is Head whatever else it contains |
| UrdfParser.HeadWordsLower | src/Utils/urdfParser.ts:88-89 | the head words are their own lower-case form |
| UrdfParser.LeftHandWordSuffices | src/Utils/urdfParser.ts:90-91 | "lefthand" alone makes a non-head joint Left Hand |
| UrdfParser.LeftHandLower | src/Utils/urdfParser.ts:90-91 | "lefthand" is its own lower-case form |
| UrdfParser.LeftHandNeedsFinger | src/Utils/urdfParser.ts:90 | without "lefthand" and without a finger word a joint is never Left Hand |
| RobotConfig.GetMeshPath | src/Constants/robotConfig.ts:43-48 | fails exactly for a format other than stl whose sub-directory is not set; otherwise `meshBasePath/sub` |
| RobotConfig.FullMeshPathsOf | src/Constants/robotConfig.ts:43-48 | a format has a full path exactly when it is stl or its sub-directory is set and non-empty; that path is `meshBasePath/sub` |
| RobotConfig.GetFullMeshFilePath | src/Constants/robotConfig.ts:83-86 | fails exactly when GetMeshPath does; otherwise appends `/filename`; stl always succeeds |
| RobotConfig.ResolveUrdfMeshPath | src/Constants/robotConfig.ts:91-101 | a path starting with `../meshes/` maps to the mesh base, `/` and the rest; any other path is unchanged |
| RobotConfig.ResolveIdempotent | src/Constants/robotConfig.ts:91-101 | resolving twice equals resolving once, for a base not starting with `.` |
| RobotConfig.RobotConfigResolves | src/Constants/robotConfig.ts:33 | with the shipped configuration, resolution is idempotent and maps to `/meshes/` plus the rest |
| RobotConfig.GetAllMeshPaths | src/Constants/robotConfig.ts:106-114 | holds exactly the formats whose full path is defined, each with that path |
| RobotConfig.RobotConfigFormats | src/Constants/robotConfig.ts:28-41 | with the shipped configuration all three formats are configured and resolve |
| ControlPanel.JointValueChange | src/Pages/RobotControlPanel.tsx:192-200 | joints with the name get current and target set to the value; every other joint and the length are unchanged |
| ControlPanel.JointValueChangeLastWins | src/Pages/RobotControlPanel.tsx:192-200 | two changes of one joint equal the last one |
| ControlPanel.ResetCategory | src/Pages/RobotControlPanel.tsx:202-212 | joints of the category go to their midpoint; other joints are unchanged |
| ControlPanel.ResetAll | src/Pages/RobotControlPanel.tsx:214-221 | every joint goes to its midpoint, with everything else kept |
| ControlPanel.ResetAllFacts | src/Pages/RobotControlPanel.tsx:202-221 | after a reset-all, resetting again or resetting a category changes nothing |
| ControlPanel.ResetCategoryAfterResetAll | src/Pages/RobotControlPanel.tsx:202-221 | a category reset after a full reset changes nothing |
| ControlPanel.ResetAllTwice | src/Pages/RobotControlPanel.tsx:202-221 | a second full reset changes nothing |
| ControlPanel.ResetInRange | src/Pages/RobotControlPanel.tsx:214-221 | a reset joint lies within its range when the range is ordered |
| ControlPanel.Group | src/Pages/RobotControlPanel.tsx:225-230 | a category's list holds exactly the joints of that category, in order |
| ControlPanel.GroupEmpty | src/Pages/RobotControlPanel.tsx:226-227 | a category no joint has gets no list |
| ControlPanel.GroupSizesStep | src/Pages/RobotControlPanel.tsx:229 | adding one joint grows the total group size by one for each listing of its category |
| ControlPanel.GroupsPartition | src/Pages/RobotControlPanel.tsx:223-232 | over distinct categories covering all joints, the group sizes sum to the joint count |
| ControlPanel.CategorizedJoints | src/Pages/RobotControlPanel.tsx:223-232 | the `forEach` loop builds a key exactly for each category some joint has, mapped to that category's Group |
| ControlPanel.GroupedStep | src/Pages/RobotControlPanel.tsx:225-230 | pushing the next joint onto its category list, created when missing, extends the map from the first i joints to the first i + 1 |
| ControlPanel.PushJoint | src/Pages/RobotControlPanel.tsx:226-229 | the map gains the joint at the end of its category list, created empty when missing, and nothing else changes |
| ControlPanel.ApplyPose | src/Pages/RobotControlPanel.tsx:236-242 | joints named in the pose take its value, a stored 0 included; absent names keep their values |
| ControlPanel.LoadPose | src/Pages/RobotControlPanel.tsx:234-249 | ApplyPose on the joints, and the category order replaced only when one is given |
| ControlPanel.LoadOwnPose | src/Pages/RobotControlPanel.tsx:234-249 | loading a pose taken from the current joints changes nothing |
| ControlPanel.DragEnd | src/Pages/RobotControlPanel.tsx:255-267 | the order is untouched when dropped on itself; otherwise arrayMove moves it between the two `indexOf` positions; the active id is cleared |
| ControlPanel.StatusText | src/Pages/RobotControlPanel.tsx:293-301 | an upper-case label of at least three characters, ending in `...` exactly for `connecting` and `reconnecting` |
| ControlPanel.StatusTextInjective | src/Pages/RobotControlPanel.tsx:293-301 | each status has its own label |
| ControlPanel.StatusColor | src/Pages/RobotControlPanel.tsx:303-314 | orange whenever more than one client is connected; otherwise green for connected, red for disconnected and orange for connecting or reconnecting |
| JointControl.Clamp | src/Components/JointControl.tsx:37 | `max(min, min(max, v))`: within the range when it is ordered, v itself when in range, min when the range is inverted |
| JointControl.ClampIdempotent | src/Components/JointControl.tsx:37 | clamping twice equals clamping once |
| JointControl.HandleSliderChange | src/Components/JointControl.tsx:25-29 | a null slider value changes nothing; otherwise the local value follows |
| JointControl.HandleSliderAfterChange | src/Components/JointControl.tsx:31-33 | the committed value is reported unclamped under the joint's name |
| JointControl.HandleInputChange | src/Components/JointControl.tsx:35-40 | a null input reports nothing; otherwise the clamped value is reported, an in-range value unchanged |
| JointControl.InputNumberChange | src/Components/JointControl.tsx:122 | every change of the number input is reported for the joint, never ignored: a cleared input is read as 0, converted, and clamped into the joint's range; an in-range value (after conversion) is reported unchanged |
| JointControl.ClearedInputReportsZero | src/Components/JointControl.tsx:122 | clearing the field reports 0 clamped into the range (radian mode) |
| JointControl.ClearedInputReportsZeroInDegrees | src/Components/JointControl.tsx:17 | in degree mode, the default, clearing the field reports 0 clamped into the range when the conversion keeps 0 |
| JointControl.ClearedIsTypedZero | src/Components/JointControl.tsx:122 | in either mode a cleared field reports what a typed 0 reports |
| Strings.Trim | src/Services/storageService.ts:104 | `String.prototype.trim`: no leading or trailing whitespace remains and the inside is kept |
| Strings.SkipLeading | src/Services/storageService.ts:104 | the first position from i on that is not whitespace; everything skipped is whitespace |
| Strings.SkipTrailing | src/Services/storageService.ts:104 | the end of the text once trailing whitespace back to a lower bound is dropped; everything dropped is whitespace |
| Strings.ToLower | src/Utils/urdfParser.ts:86 | lower-cases ASCII letters, same length |
| Strings.ReplaceFirst | src/Constants/robotConfig.ts:96 | `replace` with a string pattern rewrites a leading match and leaves a string without the pattern unchanged; a first match further in is not stated, ResolveUrdfMeshPath replacing only after its StartsWith check |
| Strings.NatToString | src/Services/storageService.ts:115 | decimal digits without a leading zero |
| Strings.NatToStringInjective | src/Services/storageService.ts:115 | different counters print differently |
| Seqs.RemoveAll | src/Services/ros/ros.service.ts:101 | `filter(x => x !== v)`: no occurrence remains and every other element stays |
| Seqs.IndexOf | src/Pages/RobotControlPanel.tsx:260-261 | `indexOf`: the first position, or -1 exactly when absent |

## Left out

- roslib internals (websocket transport, message envelopes, `Topic.subscribe` and `publish` plumbing): a `Ros` object is a handle id. Topics and services are records, and incoming messages and service results are method inputs.
- Timers and clocks: `setTimeout` is the armed/expired timer state, fired by `OnTimeout`. `Date.now()` is the `now` parameter. The 10-second constant is kept, but elapsed time is not. The 1000 ms publish interval of the control page (`REFRESH_RATE`) is not part of this model.
- Promises and `async`: each `connect` promise is an entry of `attempts`. `await` is the sequence of method calls. No concurrency is modelled.
- Encoding and randomness: `atob` is a parameter and `JSON.stringify/parse` with the URI encoding is the `Codec`. `generateId` (`Date.now` and `Math.random`) is the `id` parameter of `SavePose`. The MD5 of the login form is not part of this model.
- `radianToDegree` and `degreesToRadians` are function parameters. JavaScript floating point and the display rounding of JointControl are not modelled; angles are `real`.
- `UrdfParser.parseJoints` (DOMParser, `parseFloat`) and the three.js mesh loading are not part of this model. Joints are given as records.
- src/Services/ros.service.ts, the older manager and publisher, is not part of this model. It is superseded by the `ros/handlers` classes.
- src/Constants/rosConfig.ts is not part of this model: the joint-state topic's name and message type are constructor parameters of `JointStateHandler`.
- The React hooks, presentational components and the App bootstrap are left out. Only the handlers' computations are modelled.
- `arrayMove` of dnd-kit is a parameter of `DragEnd`, since its code is not part of this model.
- `getInstance` singletons, and the static `cleanup` of CameraHandler, JointStateHandler and EnableCameraHandler: the cleanup only calls the listener's unregister function, which is `RosBridgeService.Unregister`.
- ConnectedClientsHandler.cleanup is not modelled. Its static `instance` is never assigned (the class is built with `new`), so the cleanup does nothing.
- The local-value sync effect of JointControl (lines 21-23) is left out. It is a React re-render effect, not logic.
- Listener or subscriber callbacks that throw or re-enter the manager are left out. The model treats each notification as an opaque, recorded effect.
- Cookie attributes (`path`, `max-age`, `expires`) and the browser's 4 KB limit on the index cookie are left out. An id holding `;` or `=` would be read back differently; the storage lemmas require plain ids: without `=`, and other than "index", whose pose cookie name `lucy_pose_index` is the index cookie's.
- `String.prototype.toLowerCase` is modelled for ASCII letters only, and `trim` for the JavaScript whitespace characters below U+FFFF that Dafny's `char` can hold. `encoded.length` counts characters, not UTF-16 code units.
- A stored index whose JSON is not an array (so `push` would throw after parsing) is left out: the codec's decoder gives a list of ids or nothing.
- JavaScript prototype lookups through `poseJoints[joint.name]` (for a name such as `constructor`) are not modelled. A pose record is a map.
- PoseStorage.CookieStorageService.SavePose: a failed save still leaves the index cleaned up by the `loadPoses` it begins with, as the code does. The statement "nothing is written" covers the pose and the appended id only.
- Strings.ReplaceFirst: its contract states a match at the start and no match at all, but not a first match further in, because the only caller, `ResolveUrdfMeshPath`, replaces only after checking that the path starts with the prefix.
- ControlPanel.StatusText: the `UNKNOWN` default of the switch is not modelled. The four statuses are the whole `ConnectionStatus` type, so no status reaches it.
- PoseStorage.CleanedIndex: a jar written by other code, where a pose cookie holds a pose with a different id, is not covered. There the rewritten index takes the decoded poses' ids (`poses.map(p => p.id)`), not the looked-up ones. The jars the model's own save, delete and clean-up produce from an empty jar all meet the hypothesis (EmptyJarConsistent, SavedKeepsIds, DeletedKeepsIds, CleanedKeepsIds).
