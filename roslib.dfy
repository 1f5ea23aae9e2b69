/** The parts of the roslib client library the panel relies on, as abstract
    values: a `Ros` connection object becomes a handle id, and `Topic` and
    `Service` objects become records naming the handle they were created on.
    The library's own behaviour (the websocket, message envelopes) is not
    part of this model. */
module Roslib {
  /** Identifies one `new ROSLIB.Ros(...)` object; ids are handed out in
      creation order, starting at 0. */
  type HandleId = nat

  /** A `new ROSLIB.Topic(...)` object. `serial` tells apart two topic
      objects created with the same arguments. */
  datatype Topic = Topic(serial: nat, ros: HandleId, name: string, messageType: string)

  /** A `new ROSLIB.Service(...)` object. */
  datatype Service = Service(serial: nat, ros: HandleId, name: string, serviceType: string)
}
