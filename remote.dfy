/**
 * Entities of the remote device farm as the plugin observes them, and the
 * failures its remote calls and its own checks raise. The farm, the HTTP
 * client and the CI host are opaque: every remote answer reaches the model
 * as an input (an "oracle"), never as something the model computes.
 */
module Remote {

  datatype Option<+T> = None | Some(value: T)

  /** The exceptions that cross the plugin's methods. */
  datatype Failure =
    | ApiFailure(status: int)      // APIException raised by the API client, with its HTTP status
    | IoWrapped(status: int)       // IOException wrapping an APIException of that status
    | IoError(message: string)     // IOException raised by the plugin with its own message
    | Interrupted                  // InterruptedException from a sleep
    | NumberFormat(input: string)  // NumberFormatException from Integer.parseInt
    | NullReference                // NullPointerException on a null filter list

  /** A call that either returns a value or throws. */
  datatype Outcome<+T> = Ok(value: T) | Fail(error: Failure)

  /** `new IOException(e)` around an APIException; every other exception passes unchanged. */
  function WrapApi(e: Failure): (w: Failure)
    ensures e.ApiFailure? ==> w == IoWrapped(e.status)
    ensures !e.ApiFailure? ==> w == e
  {
    if e.ApiFailure? then IoWrapped(e.status) else e
  }

  /** A point-in-time snapshot of a device of the pool. */
  datatype Device = Device(id: int, displayName: string, online: bool, locked: bool)

  /** A device that can be leased right away. */
  predicate Free(d: Device) { d.online && !d.locked }

  /** A device that is online but already leased by someone else. */
  predicate Taken(d: Device) { d.online && d.locked }

  /** A search hit for a label group or for a label (device property) inside a group. */
  datatype LabelHit = LabelHit(id: int, displayName: string)

  /**
   * The read-only queries a device search issues, answered by the farm:
   * label groups matching a search text, labels of a group matching a search
   * text, and the devices carrying every one of a list of label ids (the
   * empty list asks for all devices).
   */
  datatype Farm = Farm(
    labelGroups: string -> Outcome<seq<LabelHit>>,
    labels: (int, string) -> Outcome<seq<LabelHit>>,
    devices: seq<int> -> Outcome<seq<Device>>)

  /** Device session states; Ended stands for every state other than WAITING and RUNNING. */
  datatype SessionState = Waiting | Running | Ended

  datatype Session = Session(id: int, state: SessionState)

  /** Test run states of the flash project. */
  datatype RunState = Created | Waiting | Running | Finished | Aborted

  /** One entry of a proxy-discovery answer: the JSON object's string fields. */
  type ProxyEntry = map<string, string>
}
