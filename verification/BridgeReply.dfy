/**
  How the bridge turns one claimed command into a response record, and how the host
  reads an execution outcome back out of it.
 */
module BridgeReply {
  import opened Basics

  /** A request id: a fresh uuid for every `send_command`. */
  type Request = nat

  /** What `pcall(handle_command, cmd)` reports; the three raised forms are the shapes of the error object. */
  datatype Handler = Returned | RaisedText | RaisedNothing | RaisedOther

  /** The fields of `response.json` the host looks at; `id` is `None` for the bridge's "unknown". */
  datatype Response = Response(
    id: Option<Request>,
    ok: bool,
    serializationFailed: bool,
    commandCompleted: bool,
    outcome: Option<Outcome>)

  /**
    The response record of one processed command, or `None` when even the fixed fallback could not be
    encoded. `encodable` says whether the full response fits the JSON limits, `fallback` whether the
    fixed one does, as it always does for ids of bounded length. An invalid command file never reaches its
    handler and has no known id.
   */
  function Reply(id: Option<Request>, invalid: bool, handler: Handler, encodable: bool, fallback: bool)
    : Option<Response>
  {
    var ok := !invalid && handler == Returned;
    var encoded := if !ok && handler == RaisedOther then false else encodable;
    if encoded then
      Some(Response(id, ok, false, false, None))
    else if fallback then
      Some(Response(id, false, true, ok,
                    Some(if ok then Completed else if invalid then NotExecuted else Unknown)))
    else
      None
  }

  /** The outcome `send_command` derives from a response it has correlated with its request. */
  function HostOutcome(response: Response): Outcome {
    if response.ok || response.commandCompleted then Completed
    else if response.outcome == Some(NotExecuted) then NotExecuted
    else Unknown
  }

  /**
    End to end over one reply: the host concludes `completed` exactly when the handler returned
    normally, also when its result could not be serialized, and concludes `not_executed` exactly from the fixed
    fallback for a command file that was rejected before any handler ran. The fallback stands for exactly the
    responses that cannot be encoded.
   */
  lemma ReplyTellsTheTruth(id: Option<Request>, invalid: bool, handler: Handler, encodable: bool, fallback: bool)
    requires Reply(id, invalid, handler, encodable, fallback).Some?
    ensures var outcome := HostOutcome(Reply(id, invalid, handler, encodable, fallback).value);
            && (outcome == Completed <==> !invalid && handler == Returned)
            && (outcome == NotExecuted <==>
                  invalid && Reply(id, invalid, handler, encodable, fallback).value.serializationFailed)
            && (Reply(id, invalid, handler, encodable, fallback).value.serializationFailed <==>
                  !encodable || handler == RaisedOther)
            && Reply(id, invalid, handler, encodable, fallback).value.id == id
  {
  }
}
