/** Gateway messages: JSON-RPC 2.0 objects, heartbeats, commands and exceptions (gateway/protocol.py). */
module Protocol {

  import opened Wrappers
  import opened Errors
  import opened Commands
  import opened Devices

  datatype Json =
    | Null
    | Bool(on: bool)
    | Int(n: int)
    | Real(r: real)
    | Str(s: string)
    | List(items: seq<Json>)
    | Object(members: map<string, Json>)

  type Message = map<string, Json>

  const MAX_MESSAGE_BYTES := 1024 * 1024
  const MAX_BATCH_COMMANDS := 256
  const MAX_COMMAND_BYTES := 4096

  /** dict.get */
  function Member(m: Message, key: string): Json {
    if key in m then m[key] else Null
  }

  /** Python's equality of a JSON value with a whole number: True is 1 and 1.0 is 1. */
  predicate EqualsInt(j: Json, n: int) {
    match j
    case Int(m) => m == n
    case Bool(on) => (if on then 1 else 0) == n
    case Real(r) => r == n as real
    case _ => false
  }

  /** A line as readline hands it over: its length with the LF, if it has one, and what its JSON text says;
      None when it is not JSON. */
  datatype Line = Line(length: nat, terminated: bool, body: Option<Json>)

  /** The length in bytes of the JSON text of a value: any measure. */
  type Measure = Json -> nat

  function GatewayProtocolError(message: string): Error {
    Gateway("GatewayProtocolError", message)
  }

  function EncodeMessage(size: Measure, m: Message): Result<Line, Error> {
    if size(Object(m)) > MAX_MESSAGE_BYTES then Failure(GatewayProtocolError("Gateway message exceeds 1 MiB"))
    else Success(Line(size(Object(m)) + 1, true, Some(Object(m))))
  }

  /** A message is framed if and only if its text takes at most one mebibyte, and then reads back as itself. */
  lemma FramedMessage(size: Measure, m: Message)
    ensures EncodeMessage(size, m).Success? <==> size(Object(m)) <= 1048576
    ensures EncodeMessage(size, m).Success? && "jsonrpc" in m && m["jsonrpc"] == Str("2.0") ==>
      var line := EncodeMessage(size, m).value;
      WithinLimits(line) && line.length == size(Object(m)) + 1 && DecodeMessage(line) == Success(m)
  {
  }

  predicate WithinLimits(line: Line) {
    line.length <= MAX_MESSAGE_BYTES + 1 && line.terminated
  }

  /** The line without its LF, parsed and minimally validated. */
  function DecodeMessage(line: Line): Result<Message, Error> {
    if line.length > MAX_MESSAGE_BYTES + 1 then Failure(GatewayProtocolError("Gateway message exceeds 1 MiB"))
    else if line.body.None? then Failure(GatewayProtocolError("Malformed JSON-RPC message"))
    else if !line.body.value.Object? || Member(line.body.value.members, "jsonrpc") != Str("2.0") then
      Failure(GatewayProtocolError("Expected a JSON-RPC 2.0 object"))
    else Success(line.body.value.members)
  }

  // ----- heartbeats -----

  predicate IsHeartbeatState(state: string) {
    state == "queued" || state == "executing"
  }

  function HeartbeatNotification(id: Json, state: string): Message {
    map["jsonrpc" := Str("2.0"), "method" := Str("heartbeat"),
        "params" := Object(map["request_id" := id, "state" := Str(state)])]
  }

  /** The state of a heartbeat for the expected request, or None for a final response. */
  function ParseHeartbeat(m: Message, expected: int): Result<Option<string>, Error> {
    if Member(m, "method") != Str("heartbeat") then Success(None)
    else if "id" in m then Failure(GatewayProtocolError("Gateway heartbeat must be a JSON-RPC notification"))
    else
      match Member(m, "params")
      case Object(params) =>
        if !EqualsInt(Member(params, "request_id"), expected) then
          Failure(GatewayProtocolError("Gateway heartbeat request ID did not match the request"))
        else
          (match Member(params, "state")
           case Str(state) =>
             if IsHeartbeatState(state) then Success(Some(state))
             else Failure(GatewayProtocolError("Gateway heartbeat state was invalid"))
           case _ => Failure(GatewayProtocolError("Gateway heartbeat state was invalid")))
      case _ => Failure(GatewayProtocolError("Gateway heartbeat params must be an object"))
  }

  /** A heartbeat is read back, as its state, for its own request only; anyone else refuses it. */
  lemma HeartbeatRoundTrip(n: int, state: string, expected: int)
    requires IsHeartbeatState(state)
    ensures ParseHeartbeat(HeartbeatNotification(Int(n), state), expected).Success? <==> n == expected
    ensures n == expected ==> ParseHeartbeat(HeartbeatNotification(Int(n), state), expected) == Success(Some(state))
  {
    var m := HeartbeatNotification(Int(n), state);
    assert "id" !in m && Member(m, "method") == Str("heartbeat");
    assert Member(m, "params") == Object(map["request_id" := Int(n), "state" := Str(state)]);
  }

  // ----- commands -----

  function Utf8Length(text: string): nat {
    if text == [] then 0
    else
      var c := text[|text| - 1];
      Utf8Length(text[..|text| - 1])
      + (if c < '\U{80}' then 1 else if c < '\U{800}' then 2 else if c < '\U{10000}' then 3 else 4)
  }

  lemma {:induction false} AsciiLength(text: string)
    requires IsAscii(text)
    ensures Utf8Length(text) == |text|
  {
    if text != [] {
      AsciiLength(text[..|text| - 1]);
    }
  }

  function SerializeCommand(command: Command): Result<Json, Error> {
    if |command.text| > MAX_COMMAND_BYTES then Failure(GatewayProtocolError("SCPI command exceeds 4096 bytes"))
    else Success(Object(map["kind" := Str(Kind(command)), "text" := Str(command.text)]))
  }

  function Checked(command: Command): Result<Command, Error> {
    var refused := TextError(command.text);
    if refused.Some? then Failure(refused.value) else Success(command)
  }

  function DeserializeCommand(payload: Json): Result<Command, Error> {
    match payload
    case Object(m) =>
      (match Member(m, "text")
       case Str(text) =>
         if Utf8Length(text) > MAX_COMMAND_BYTES then
           Failure(GatewayProtocolError("SCPI command exceeds 4096 bytes"))
         else if Member(m, "kind") == Str("write") then Checked(Write(text))
         else if Member(m, "kind") == Str("query") then Checked(Query(text))
         else Failure(GatewayProtocolError("Command kind must be 'write' or 'query'"))
       case _ => Failure(GatewayProtocolError("Command text must be a string")))
    case _ => Failure(GatewayProtocolError("Command must be an object"))
  }

  /** A command that passes its constructor survives the trip exactly when it has at most 4096 bytes. */
  lemma CommandRoundTrip(command: Command)
    requires TextError(command.text).None?
    ensures SerializeCommand(command).Success? <==> |command.text| <= 4096
    ensures SerializeCommand(command).Success? ==>
      DeserializeCommand(SerializeCommand(command).value) == Success(command)
  {
    AsciiLength(command.text);
  }

  /** A payload is accepted as a command if and only if it is an object with one of the two kinds and a text of
      at most 4096 characters that the command's constructor takes. */
  lemma AcceptedCommand(payload: Json, command: Command)
    ensures DeserializeCommand(payload) == Success(command) <==>
      && payload.Object? && "kind" in payload.members && "text" in payload.members
      && payload.members["text"] == Str(command.text)
      && payload.members["kind"] == Str(if command.Query? then "query" else "write")
      && |command.text| <= 4096 && TextError(command.text).None?
  {
    if IsAscii(command.text) {
      AsciiLength(command.text);
    }
  }

  /** The list of serialized commands, or the first error. */
  function SerializeAll(commands: seq<Command>): Result<seq<Json>, Error> {
    if commands == [] then Success([])
    else
      var earlier := SerializeAll(commands[..|commands| - 1]);
      var last := SerializeCommand(commands[|commands| - 1]);
      if earlier.Failure? then earlier
      else if last.Failure? then Failure(last.error)
      else Success(earlier.value + [last.value])
  }

  function DeserializeAll(payloads: seq<Json>): (r: Result<seq<Command>, Error>)
    ensures r.Success? ==> |r.value| == |payloads| && AllValid(r.value)
  {
    if payloads == [] then Success([])
    else
      var earlier := DeserializeAll(payloads[..|payloads| - 1]);
      var last := DeserializeCommand(payloads[|payloads| - 1]);
      if earlier.Failure? then earlier
      else if last.Failure? then Failure(last.error)
      else Success(earlier.value + [last.value])
  }

  predicate ShortTexts(commands: seq<Command>) {
    forall i :: 0 <= i < |commands| ==> |commands[i].text| <= MAX_COMMAND_BYTES
  }

  lemma ShortPrefix(commands: seq<Command>)
    requires commands != []
    ensures
      var n := |commands| - 1;
      && (AllValid(commands) ==> AllValid(commands[..n]) && TextError(commands[n].text).None?)
      && (ShortTexts(commands) <==> ShortTexts(commands[..n]) && |commands[n].text| <= MAX_COMMAND_BYTES)
  {
    var n := |commands| - 1;
    assert forall i :: 0 <= i < n ==> commands[..n][i] == commands[i];
  }

  lemma {:induction false} SerializableBatch(commands: seq<Command>)
    ensures SerializeAll(commands).Success? <==> ShortTexts(commands)
    ensures ShortTexts(commands) ==> |SerializeAll(commands).value| == |commands|
  {
    if commands != [] {
      ShortPrefix(commands);
      SerializableBatch(commands[..|commands| - 1]);
    }
  }

  /** A batch of short commands that passed their constructors survives the trip. */
  lemma {:induction false} CommandsRoundTrip(commands: seq<Command>)
    requires AllValid(commands) && ShortTexts(commands)
    ensures SerializeAll(commands).Success? && |SerializeAll(commands).value| == |commands|
    ensures DeserializeAll(SerializeAll(commands).value) == Success(commands)
  {
    SerializableBatch(commands);
    if commands != [] {
      var n := |commands| - 1;
      ShortPrefix(commands);
      CommandsRoundTrip(commands[..n]);
      CommandRoundTrip(commands[n]);
      DeserializeSnoc(SerializeAll(commands[..n]).value, SerializeCommand(commands[n]).value, commands[..n], commands[n]);
      assert commands[..n] + [commands[n]] == commands;
    }
  }

  lemma DeserializeSnoc(payloads: seq<Json>, last: Json, commands: seq<Command>, command: Command)
    requires DeserializeAll(payloads) == Success(commands) && DeserializeCommand(last) == Success(command)
    ensures DeserializeAll(payloads + [last]) == Success(commands + [command])
  {
    assert (payloads + [last])[..|payloads|] == payloads;
  }

  // ----- exceptions -----

  /** The SPD3000Error classes that are rebuilt by name on the other side. */
  const CANONICAL: set<string> := {
    "SPD3000Error", "SPD3000TimeoutError", "SPD3000ConnectionError", "SPD3000ProtocolError",
    "SPD3000CommandError", "SPD3000ValidationError", "SPD3000DeferredResultError",
    "SPD3000VerificationError", "UnsupportedFeatureError", "UnknownModelError"}

  const GATEWAY_CLASSES: set<string> := {
    "GatewayAuthenticationError", "GatewayVersionMismatchError", "GatewayProtocolError", "GatewayInternalError"}

  function ArgToJson(a: Arg): Json {
    match a
    case NoArg => Null
    case BoolArg(flag) => Bool(flag)
    case NumberArg(r) => Real(r)
    case TextArg(s) => Str(s)
    case OpaqueArg(repr) => Str(repr)
  }

  function ArgOfJson(j: Json): Arg {
    match j
    case Null => NoArg
    case Bool(on) => BoolArg(on)
    case Int(n) => NumberArg(n as real)
    case Real(r) => NumberArg(r)
    case Str(s) => TextArg(s)
    case _ => OpaqueArg("")
  }

  function ArgsToJson(args: seq<Arg>): seq<Json> {
    seq(|args|, i requires 0 <= i < |args| => ArgToJson(args[i]))
  }

  function ArgsOfJson(items: seq<Json>): seq<Arg> {
    seq(|items|, i requires 0 <= i < |items| => ArgOfJson(items[i]))
  }

  /** The three position attributes, as far as the exception has them. */
  function PositionMembers(at: Position): Message {
    (if at.index.Some? then map["batch_command_index" := Int(at.index.value)] else map[])
    + (if at.kind.Some? then map["batch_command_kind" := Str(at.kind.value)] else map[])
    + (if at.command.Some? then map["batch_command" := Str(at.command.value)] else map[])
  }

  /** The structured data of an exception. The driver's own verification errors never reach the server. */
  function SerializeException(e: Error, traceback: string): Json
    requires !e.Verification?
  {
    match e
    case South(cls, args, at) =>
      Object(map["kind" := Str("southbound"), "exception_type" := Str(cls), "args" := List(ArgsToJson(args)),
                 "remote_traceback" := Str(traceback)] + PositionMembers(at))
    case Gateway(cls, message) =>
      Object(map["kind" := Str("gateway"), "exception_type" := Str(cls), "message" := Str(message),
                 "remote_traceback" := Str(traceback)])
    case Foreign(_, message) =>
      Object(map["kind" := Str("gateway"), "exception_type" := Str("GatewayInternalError"),
                 "message" := Str(message), "remote_traceback" := Str(traceback)])
  }

  function ReconstructPosition(m: Message): Position {
    var index := Member(m, "batch_command_index");
    var kind := Member(m, "batch_command_kind");
    var command := Member(m, "batch_command");
    Position(if index.Int? then Some(index.n) else None,
             if kind == Str("write") || kind == Str("query") then Some(kind.s) else None,
             if command.Str? then Some(command.s) else None)
  }

  /** The exception raised for the data of an error response, without its remote traceback. The
      verification error class takes exactly one positional argument. */
  function ReconstructException(data: Json): Error {
    if !data.Object? then GatewayProtocolError("Gateway error lacked structured data")
    else
      var m := data.members;
      var cls := Member(m, "exception_type");
      if Member(m, "kind") == Str("southbound") then
        var args := if "args" in m then m["args"] else List([]);
        if !cls.Str? || cls.s !in CANONICAL || !args.List? then
          GatewayProtocolError("Unknown southbound exception type")
        else if cls.s == "SPD3000VerificationError" && |args.items| != 1 then
          Foreign("TypeError", "SPD3000VerificationError.__init__")
        else South(cls.s, ArgsOfJson(args.items), ReconstructPosition(m))
      else
        var message := if "message" in m then m["message"] else Str("Gateway request failed");
        Gateway(if cls.Str? && cls.s in GATEWAY_CLASSES then cls.s else "GatewayInternalError",
                if message.Str? then message.s else "")
  }

  /** What the other side can rebuild: a registered class and arguments JSON has values for. */
  predicate Portable(e: Error) {
    match e
    case South(cls, args, at) =>
      && cls in CANONICAL
      && (forall i :: 0 <= i < |args| ==> !args[i].OpaqueArg?)
      && (cls == "SPD3000VerificationError" ==> |args| == 1)
      && (at.kind.Some? ==> at.kind.value == "write" || at.kind.value == "query")
    case Gateway(cls, _) => cls in GATEWAY_CLASSES
    case _ => false
  }

  lemma ArgsRoundTrip(args: seq<Arg>)
    ensures ArgsOfJson(ArgsToJson(args)) == args <==> forall i :: 0 <= i < |args| ==> !args[i].OpaqueArg?
  {
    var back := ArgsOfJson(ArgsToJson(args));
    assert forall i :: 0 <= i < |args| ==> (back[i] == args[i] <==> !args[i].OpaqueArg?);
  }

  lemma PositionRoundTrip(rest: Message, at: Position)
    requires "batch_command_index" !in rest && "batch_command_kind" !in rest && "batch_command" !in rest
    ensures ReconstructPosition(rest + PositionMembers(at))
         == at.(kind := if at.kind == Some("write") || at.kind == Some("query") then at.kind else None)
  {
  }

  /** An exception is raised on the client's side exactly as it was raised on the server's, with its class,
      arguments and batch position, if and only if it is portable. */
  lemma ExceptionRoundTrip(e: Error, traceback: string)
    requires !e.Verification?
    ensures ReconstructException(SerializeException(e, traceback)) == e <==> Portable(e)
  {
    var data := SerializeException(e, traceback);
    if e.South? {
      var rest := map["kind" := Str("southbound"), "exception_type" := Str(e.cls),
                      "args" := List(ArgsToJson(e.args)), "remote_traceback" := Str(traceback)];
      assert data.members == rest + PositionMembers(e.at);
      PositionRoundTrip(rest, e.at);
      ArgsRoundTrip(e.args);
      assert Member(data.members, "kind") == Str("southbound");
      assert Member(data.members, "exception_type") == Str(e.cls);
      assert data.members["args"] == List(ArgsToJson(e.args));
    } else {
      assert Member(data.members, "kind") == Str("gateway");
    }
  }

  /** The classes that are rebuilt, by name; any other comes back as another error. */
  lemma KnownClasses(cls: string, message: string, traceback: string)
    ensures
      var e := South(cls, [TextArg(message)], UNPLACED);
      ReconstructException(SerializeException(e, traceback)) == e <==>
        cls in {"SPD3000Error", "SPD3000TimeoutError", "SPD3000ConnectionError", "SPD3000ProtocolError",
                "SPD3000CommandError", "SPD3000ValidationError", "SPD3000DeferredResultError",
                "SPD3000VerificationError", "UnsupportedFeatureError", "UnknownModelError"}
    ensures
      var e := Gateway(cls, message);
      ReconstructException(SerializeException(e, traceback)) == e <==>
        cls in {"GatewayAuthenticationError", "GatewayVersionMismatchError", "GatewayProtocolError", "GatewayInternalError"}
    ensures ReconstructException(SerializeException(Foreign(cls, message), traceback)) == Gateway("GatewayInternalError", message)
  {
    ExceptionRoundTrip(South(cls, [TextArg(message)], UNPLACED), traceback);
    ExceptionRoundTrip(Gateway(cls, message), traceback);
  }

}
