/** Through the gateway a batch does and gives what it does and gives on a direct connection. */
module Transparency {

  import opened Wrappers
  import opened Errors
  import opened Commands
  import opened Devices
  import opened Compilation
  import opened Settlement
  import opened Protocol
  import opened Server
  import opened Client
  import PhysicalOwner
  import DM = DriverModel

  /** A session of an open connection: who is asked, and how messages are measured. */
  datatype Link = Link(config: Config, session: Session, size: Measure)

  function RequestFor(id: int, payloads: seq<Json>): Message {
    RequestMessage(id, "execute", map["commands" := List(payloads)])
  }

  function Arrive(size: Measure, messages: seq<Message>): seq<Arrival> {
    seq(|messages|, i requires 0 <= i < |messages| => Got(Line(size(Object(messages[i])) + 1, true, Some(Object(messages[i])))))
  }

  /** A batch through client, server and owner and back: serialize, frame, decode, run on the instrument in
      the owner, report, frame, and read past the heartbeats. A response that cannot be framed ends the
      connection instead. */
  function ThroughGateway<S>(dev: Device<S>, link: Link, id: int, sights: seq<PhysicalOwner.Progress>,
                             s: S, commands: seq<Command>): (S, Outcome)
  {
    var payloads := SerializeAll(commands);
    if payloads.Failure? then (s, Raised(payloads.error))
    else
      var framed := EncodeMessage(link.size, RequestFor(id, payloads.value));
      if framed.Failure? then (s, Raised(framed.error))
      else
        // What the owner is given does not depend on what will come of it.
        var batch := HandleLine(link.config, Some(link.session), framed.value, Turn([], Values([]), 0)).submitted;
        var run := RunCommands(dev, s, if batch.Some? then batch.value else []);
        var outcome := OutcomeOf(run, if batch.Some? then batch.value else []);
        var handled := HandleLine(link.config, Some(link.session), framed.value, Turn(sights, outcome, |sights| + 1));
        var reply := EncodeMessage(link.size, handled.response);
        var last := if reply.Success? then Got(reply.value) else Ended;
        var result := Await(Arrive(link.size, handled.beats) + [last], id).0;
        (run.world, OutcomeOfResult(result, |commands|))
  }

  /** The batch keeps within the limits of the protocol: command count and length, and both messages. */
  predicate Fits<S>(dev: Device<S>, link: Link, id: int, s: S, commands: seq<Command>) {
    && 1 <= |commands| <= MAX_BATCH_COMMANDS && ShortTexts(commands)
    && SerializeAll(commands).Success?
    && link.size(Object(RequestFor(id, SerializeAll(commands).value))) <= MAX_MESSAGE_BYTES
    && link.size(Object(ReplyTo(id, DM.Direct(dev)(s, commands).1))) <= MAX_MESSAGE_BYTES
  }

  function ReplyTo(id: int, outcome: Outcome): Message {
    match outcome
    case Values(values) => ResultResponse(Int(id), Object(map["values" := List(ValuesToJson(values))]))
    case Raised(e) => ErrorResponse(Int(id), e)
  }

  /** The heartbeats of a request are small enough to be framed. */
  predicate SmallBeats(size: Measure, id: int) {
    && size(Object(HeartbeatNotification(Int(id), "queued"))) <= MAX_MESSAGE_BYTES
    && size(Object(HeartbeatNotification(Int(id), "executing"))) <= MAX_MESSAGE_BYTES
  }

  lemma RequestDecodes(link: Link, id: int, payloads: seq<Json>)
    requires link.size(Object(RequestFor(id, payloads))) <= MAX_MESSAGE_BYTES
    ensures
      var framed := EncodeMessage(link.size, RequestFor(id, payloads));
      && framed.Success? && WithinLimits(framed.value)
      && DecodeMessage(framed.value) == Success(RequestFor(id, payloads))
  {
    assert Member(RequestFor(id, payloads), "jsonrpc") == Str("2.0");
  }

  lemma RequestDispatches(link: Link, id: int, payloads: seq<Json>, turn: Turn)
    ensures HandleRequest(link.config, Some(link.session), RequestFor(id, payloads), turn)
         == HandleExecute(Int(id), map["commands" := List(payloads)], link.session, turn)
  {
    var m := RequestFor(id, payloads);
    assert Member(m, "id") == Int(id) && Member(m, "method") == Str("execute");
    assert m["params"] == Object(map["commands" := List(payloads)]);
  }

  lemma RequestExecutes(link: Link, id: int, payloads: seq<Json>, commands: seq<Command>, turn: Turn)
    requires 1 <= |payloads| <= MAX_BATCH_COMMANDS && DeserializeAll(payloads) == Success(commands)
    ensures HandleExecute(Int(id), map["commands" := List(payloads)], link.session, turn)
         == Handled(BeatsFor(Int(id), turn.sights), ReplyTo(id, turn.outcome), Some(link.session), Some(commands), false)
  {
    var params := map["commands" := List(payloads)];
    assert Member(params, "commands") == List(payloads);
    assert BatchOf(params) == Success(commands);
  }

  /** The server decodes the request to the client's own batch and answers with what comes of it. */
  lemma RequestIsHandled(link: Link, id: int, payloads: seq<Json>, commands: seq<Command>, turn: Turn)
    requires 1 <= |payloads| <= MAX_BATCH_COMMANDS && DeserializeAll(payloads) == Success(commands)
    requires link.size(Object(RequestFor(id, payloads))) <= MAX_MESSAGE_BYTES
    ensures
      var framed := EncodeMessage(link.size, RequestFor(id, payloads));
      && framed.Success?
      && HandleLine(link.config, Some(link.session), framed.value, turn)
         == Handled(BeatsFor(Int(id), turn.sights), ReplyTo(id, turn.outcome), Some(link.session), Some(commands), false)
  {
    RequestDecodes(link, id, payloads);
    RequestDispatches(link, id, payloads, turn);
    RequestExecutes(link, id, payloads, commands, turn);
  }

  /** Heartbeats for the request are read past. */
  lemma {:induction false} BeatsAreSkipped(size: Measure, id: int, sights: seq<PhysicalOwner.Progress>, last: Arrival)
    requires SmallBeats(size, id)
    ensures Await(Arrive(size, BeatsFor(Int(id), sights)) + [last], id) == Await([last], id)
  {
    var arrivals := Arrive(size, BeatsFor(Int(id), sights)) + [last];
    if sights != [] {
      HeartbeatRoundTrip(id, StateName(sights[0]), id);
      var beat := HeartbeatNotification(Int(id), StateName(sights[0]));
      assert Member(beat, "jsonrpc") == Str("2.0");
      assert arrivals[0] == Got(Line(size(Object(beat)) + 1, true, Some(Object(beat))));
      assert arrivals[1..] == Arrive(size, BeatsFor(Int(id), sights[1..])) + [last];
      BeatsAreSkipped(size, id, sights[1..], last);
    } else {
      assert arrivals == [last];
    }
  }

  /** A response to the client's own request is read for what it says. */
  lemma ResponseIsRead(size: Measure, id: int, outcome: Outcome)
    requires outcome.Raised? ==> !outcome.error.Verification?
    requires size(Object(ReplyTo(id, outcome))) <= MAX_MESSAGE_BYTES
    ensures
      var m := ReplyTo(id, outcome);
      Await([Got(EncodeMessage(size, m).value)], id).0 ==
      match outcome
      case Values(values) => Success(Object(map["values" := List(ValuesToJson(values))]))
      case Raised(e) => Failure(ReconstructException(SerializeException(e, TRACEBACK)))
  {
    var m := ReplyTo(id, outcome);
    assert Member(m, "jsonrpc") == Str("2.0") && Member(m, "id") == Int(id) && "method" !in m;
    assert ParseHeartbeat(m, id) == Success(None);
    if outcome.Raised? {
      assert "error" in m;
      var data := SerializeException(outcome.error, TRACEBACK);
      assert Member(m["error"].members, "data") == data;
    } else {
      assert "error" !in m && "result" in m;
    }
  }

  lemma ValuesRoundTrip(values: seq<Option<string>>)
    ensures OutcomeOfResult(Success(Object(map["values" := List(ValuesToJson(values))])), |values|) == Values(values)
  {
    var items := ValuesToJson(values);
    assert Member(map["values" := List(items)], "values") == List(items);
    assert forall i :: 0 <= i < |items| ==> items[i] == Null || items[i].Str?;
    assert seq(|items|, i requires 0 <= i < |items| => if items[i].Str? then Some(items[i].s) else None) == values;
  }

  lemma GatewaySteps<S>(dev: Device<S>, link: Link, id: int, sights: seq<PhysicalOwner.Progress>,
                        s: S, commands: seq<Command>)
    requires AllValid(commands) && Fits(dev, link, id, s, commands) && SmallBeats(link.size, id)
    ensures
      var (world, outcome) := DM.Direct(dev)(s, commands);
      var reply := EncodeMessage(link.size, ReplyTo(id, outcome));
      && reply.Success?
      && ThroughGateway(dev, link, id, sights, s, commands)
         == (world, OutcomeOfResult(Await([Got(reply.value)], id).0, |commands|))
  {
    CommandsRoundTrip(commands);
    var payloads := SerializeAll(commands).value;
    var outcome := DM.Direct(dev)(s, commands).1;
    RequestIsHandled(link, id, payloads, commands, Turn([], Values([]), 0));
    RequestIsHandled(link, id, payloads, commands, Turn(sights, outcome, |sights| + 1));
    BeatsAreSkipped(link.size, id, sights, Got(EncodeMessage(link.size, ReplyTo(id, outcome)).value));
  }

  lemma DirectErrorsAreNotTheDrivers<S>(dev: Device<S>, s: S, commands: seq<Command>)
    ensures
      var outcome := DM.Direct(dev)(s, commands).1;
      && (outcome.Raised? ==> !outcome.error.Verification?)
      && (outcome.Values? ==> |outcome.values| == |commands|)
  {
  }

  /** Within the limits, the gateway leaves the instrument in the state a direct connection leaves it in, and
      gives the same values or raises the same exception, class, arguments and batch position, if and only
      if an exception raised is one that can be rebuilt on the other side. */
  lemma GatewayIsTransparent<S>(dev: Device<S>, link: Link, id: int, sights: seq<PhysicalOwner.Progress>,
                                s: S, commands: seq<Command>)
    requires AllValid(commands) && Fits(dev, link, id, s, commands) && SmallBeats(link.size, id)
    ensures ThroughGateway(dev, link, id, sights, s, commands).0 == DM.Direct(dev)(s, commands).0
    ensures
      var outcome := DM.Direct(dev)(s, commands).1;
      ThroughGateway(dev, link, id, sights, s, commands).1 == outcome
      <==> (outcome.Raised? ==> Portable(outcome.error))
  {
    var outcome := DM.Direct(dev)(s, commands).1;
    GatewaySteps(dev, link, id, sights, s, commands);
    DirectErrorsAreNotTheDrivers(dev, s, commands);
    ResponseIsRead(link.size, id, outcome);
    if outcome.Values? {
      ValuesRoundTrip(outcome.values);
    } else {
      ExceptionRoundTrip(outcome.error, TRACEBACK);
    }
  }

  /** The gateway as an executor for the driver. */
  function Remote<S>(dev: Device<S>, link: Link, id: int, sights: seq<PhysicalOwner.Progress>): DM.Executor<S> {
    (s: S, commands: seq<Command>) => ThroughGateway(dev, link, id, sights, s, commands)
  }

  /** The driver cannot tell: for every list of operations, with whatever reads, writes and verifications,
      the instrument, every Deferred and the exception raised end the same as on a direct connection. */
  lemma DriverCannotTell<S>(dev: Device<S>, link: Link, id: int, sights: seq<PhysicalOwner.Progress>,
                            d: DM.State<S>, ops: seq<Op>)
    requires SmallBeats(link.size, id)
    requires FirstTextError(Flatten(ops)).None? ==>
      var outcome := DM.Direct(dev)(d.world, Flatten(ops)).1;
      Fits(dev, link, id, d.world, Flatten(ops)) && (outcome.Raised? ==> Portable(outcome.error))
    ensures DM.ExecutePending(Remote(dev, link, id, sights), d, ops) == DM.ExecutePending(DM.Direct(dev), d, ops)
  {
    if FirstTextError(Flatten(ops)).None? {
      ValidMeansNoTextError(Flatten(ops));
      GatewayIsTransparent(dev, link, id, sights, d.world, Flatten(ops));
    }
  }

  /** An exception the direct executor raises is portable unless it is one it does not translate or comes
      from a transport with a class or arguments of its own. */
  lemma PortableFaults(fault: Fault, index: nat, command: Command)
    ensures Portable(RaisedFor(fault, index, command)) <==>
      match fault
      case Known(cls, args) =>
        && cls in CANONICAL && (forall i :: 0 <= i < |args| ==> !args[i].OpaqueArg?)
        && (cls == "SPD3000VerificationError" ==> |args| == 1)
      case Other(_, _) => false
      case _ => true
  {
    var cls := if fault.OsTimeout? then "SPD3000TimeoutError" else "SPD3000ConnectionError";
    assert cls in CANONICAL && cls != "SPD3000VerificationError";
  }

  // ----- the command limits do not make a message fit -----

  function TotalLength(commands: seq<Command>): nat {
    if commands == [] then 0
    else TotalLength(commands[..|commands| - 1]) + |commands[|commands| - 1].text|
  }

  lemma {:induction false} TotalOfEqualLengths(commands: seq<Command>, n: nat)
    requires forall i :: 0 <= i < |commands| ==> |commands[i].text| == n
    ensures TotalLength(commands) == |commands| * n
  {
    if commands != [] {
      TotalOfEqualLengths(commands[..|commands| - 1], n);
    }
  }

  /** 256 commands of 4096 bytes are within the limits for commands, but whatever the JSON text looks like,
      the request that holds them is longer than a message may be: the batch is refused before it is sent. */
  lemma FullBatchDoesNotFit<S>(dev: Device<S>, link: Link, id: int, sights: seq<PhysicalOwner.Progress>,
                               s: S, commands: seq<Command>)
    requires |commands| == MAX_BATCH_COMMANDS
    requires forall i :: 0 <= i < |commands| ==> |commands[i].text| == MAX_COMMAND_BYTES
    requires SerializeAll(commands).Success? ==>
      link.size(Object(RequestFor(id, SerializeAll(commands).value))) > TotalLength(commands)
    ensures ShortTexts(commands)
    ensures ThroughGateway(dev, link, id, sights, s, commands)
         == (s, Raised(GatewayProtocolError("Gateway message exceeds 1 MiB")))
  {
    TotalOfEqualLengths(commands, MAX_COMMAND_BYTES);
    SerializableBatch(commands);
  }

}
