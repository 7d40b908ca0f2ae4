/** One client connection of the gateway server (gateway/server.py, GatewayServer._handle). */
module Server {

  import opened Wrappers
  import opened Errors
  import opened Commands
  import opened Devices
  import opened Protocol
  import PhysicalOwner

  /** The build the gateway runs and the token it asks for, if any. */
  datatype Config = Config(commit: string, token: Option<string>)

  datatype Session = Session(interval: real, timeout: real)

  /** What a request meets: in the owner, the state of its work each time the wait for it timed out, and what
      came of it; and how many more messages the client's connection takes before it breaks. */
  datatype Turn = Turn(sights: seq<PhysicalOwner.Progress>, outcome: Outcome, room: nat)

  /** What one request line leads to. */
  datatype Handled = Handled(
    beats: seq<Message>,
    response: Message,
    session: Option<Session>,
    submitted: Option<seq<Command>>,
    last: bool)

  function Amount(j: Json): Option<real> {
    match j
    case Int(n) => Some(n as real)
    case Real(r) => Some(r)
    case _ => None
  }

  /** ExecutionSettings from the handshake; any complaint becomes a protocol error. */
  function SettingsOf(settings: Json): Result<Session, Error> {
    if !settings.Object? then Failure(GatewayProtocolError("Handshake settings must be an object"))
    else
      var interval := Amount(Member(settings.members, "min_command_interval"));
      var timeout := Amount(Member(settings.members, "timeout"));
      if interval.None? || timeout.None? || interval.value < 0.0 || timeout.value <= 0.0 then
        Failure(GatewayProtocolError("Invalid execution settings"))
      else Success(Session(interval.value, timeout.value))
  }

  const UNKNOWN_COMMIT := "unknown"

  function Handshake(config: Config, params: Message): Result<Session, Error> {
    var commit := Member(params, "commit");
    if commit == Str(UNKNOWN_COMMIT) || commit != Str(config.commit) then
      Failure(Gateway("GatewayVersionMismatchError", "Client commit does not match gateway commit"))
    else if config.token.Some? && Member(params, "token") != Str(config.token.value) then
      Failure(Gateway("GatewayAuthenticationError", "Invalid gateway token"))
    else SettingsOf(Member(params, "settings"))
  }

  /** The batch of an execute request, or why it is refused. */
  function BatchOf(params: Message): (r: Result<seq<Command>, Error>)
    ensures r.Success? ==> 1 <= |r.value| <= MAX_BATCH_COMMANDS && AllValid(r.value)
  {
    var commands := Member(params, "commands");
    if !commands.List? || commands.items == [] then
      Failure(GatewayProtocolError("execute.commands must be a non-empty list"))
    else if |commands.items| > MAX_BATCH_COMMANDS then Failure(GatewayProtocolError("Batch exceeds 256 commands"))
    else DeserializeAll(commands.items)
  }

  function ValuesToJson(values: seq<Option<string>>): seq<Json> {
    seq(|values|, i requires 0 <= i < |values| => if values[i].Some? then Str(values[i].value) else Null)
  }

  function ResultResponse(id: Json, result: Json): Message {
    map["jsonrpc" := Str("2.0"), "id" := id, "result" := result]
  }

  /** str(exc), for the exceptions that carry one text. */
  function MessageOf(e: Error): string {
    match e
    case South(_, args, _) => if |args| == 1 && args[0].TextArg? then args[0].text else ""
    case Gateway(_, message) => message
    case Foreign(_, message) => message
    case Verification(_, _, _, _, _) => ""
  }

  const TRACEBACK := "Traceback (most recent call last):"

  function ErrorResponse(id: Json, e: Error): Message {
    map["jsonrpc" := Str("2.0"), "id" := id,
        "error" := Object(map["code" := Int(-32000), "message" := Str(MessageOf(e)),
                              "data" := if e.Verification? then Null else SerializeException(e, TRACEBACK)])]
  }

  function StateName(p: PhysicalOwner.Progress): string {
    if p.Queued? then "queued" else "executing"
  }

  function BeatsFor(id: Json, sights: seq<PhysicalOwner.Progress>): seq<Message> {
    seq(|sights|, i requires 0 <= i < |sights| => HeartbeatNotification(id, StateName(sights[i])))
  }

  /** A refused request: an error response and no other effect. */
  function Refuse(id: Json, session: Option<Session>, e: Error): Handled {
    Handled([], ErrorResponse(id, e), session, None, false)
  }

  function HandleExecute(id: Json, params: Message, session: Session, turn: Turn): Handled {
    match BatchOf(params)
    case Failure(e) => Refuse(id, Some(session), e)
    case Success(batch) =>
      var response :=
        match turn.outcome
        case Values(values) => ResultResponse(id, Object(map["values" := List(ValuesToJson(values))]))
        case Raised(e) => ErrorResponse(id, e);
      Handled(BeatsFor(id, turn.sights), response, Some(session), Some(batch), false)
  }

  function HandleRequest(config: Config, session: Option<Session>, request: Message, turn: Turn): Handled {
    var id := Member(request, "id");
    var verb := Member(request, "method");
    var params := if "params" in request then request["params"] else Object(map[]);
    if !verb.Str? || !params.Object? then
      Refuse(id, session, GatewayProtocolError("Request method or params were malformed"))
    else if session.None? then
      if verb.s != "handshake" then Refuse(id, None, GatewayProtocolError("handshake must be the first request"))
      else
        match Handshake(config, params.members)
        case Failure(e) => Refuse(id, None, e)
        case Success(started) =>
          Handled([], ResultResponse(id, Object(map["commit" := Str(config.commit)])), Some(started), None, false)
    else if verb.s == "execute" then HandleExecute(id, params.members, session.value, turn)
    else if verb.s == "ping" then
      Handled([], ResultResponse(id, Object(map["ok" := Bool(true)])), session, None, false)
    else if verb.s == "close" then
      Handled([], ResultResponse(id, Object(map["closed" := Bool(true)])), session, None, true)
    else Refuse(id, session, GatewayProtocolError("Unknown gateway method"))
  }

  /** What the loop of _handle does with one line. */
  function HandleLine(config: Config, session: Option<Session>, line: Line, turn: Turn): Handled {
    if !WithinLimits(line) then
      Refuse(Null, session, GatewayProtocolError("Request exceeded limits or lacked LF"))
    else
      match DecodeMessage(line)
      case Failure(e) => Refuse(Null, session, e)
      case Success(request) => HandleRequest(config, session, request, turn)
  }

  // ----- a connection -----

  /** The connection after some lines: what was written, what reached the owner, and whether it is up. */
  datatype Connection = Connection(
    session: Option<Session>,
    output: seq<Message>,
    submitted: seq<seq<Command>>,
    open: bool)

  const FRESH := Connection(None, [], [], true)

  /** How the heartbeats of a request end: all sent, at one too long to be framed, or at a broken connection. */
  datatype Ending = AllSent | TooLong | Lost

  /** How many heartbeats go out, in order, and how that ends. */
  function SendBeats(size: Measure, beats: seq<Message>, room: nat): (r: (nat, Ending))
    ensures r.0 <= |beats| && (r.1.AllSent? ==> r.0 == |beats| <= room)
  {
    if beats == [] then (0, AllSent)
    else
      var (sent, ending) := SendBeats(size, beats[..|beats| - 1], room);
      if !ending.AllSent? then (sent, ending)
      else if EncodeMessage(size, beats[|beats| - 1]).Failure? then (sent, TooLong)
      else if sent >= room then (sent, Lost)
      else (sent + 1, AllSent)
  }

  const MESSAGE_TOO_LONG := GatewayProtocolError("Gateway message exceeds 1 MiB")

  /** The response to a request: an error in place of the result if a heartbeat was too long. */
  function FinalResponse(h: Handled, ending: Ending): Message {
    if ending.TooLong? then ErrorResponse(Member(h.response, "id"), MESSAGE_TOO_LONG) else h.response
  }

  /** The response can be framed and written. */
  predicate Answers(size: Measure, h: Handled, room: nat) {
    var (sent, ending) := SendBeats(size, h.beats, room);
    !ending.Lost? && EncodeMessage(size, FinalResponse(h, ending)).Success? && sent < room
  }

  /** A response that cannot be framed or written, and a heartbeat that cannot be written, end the handler
      and with it the connection. */
  function ServeOne(config: Config, size: Measure, c: Connection, line: Line, turn: Turn): Connection {
    if !c.open then c
    else
      var h := HandleLine(config, c.session, line, turn);
      var (sent, ending) := SendBeats(size, h.beats, turn.room);
      var submitted := if h.submitted.Some? then c.submitted + [h.submitted.value] else c.submitted;
      if !Answers(size, h, turn.room) then Connection(h.session, c.output + h.beats[..sent], submitted, false)
      else Connection(h.session, c.output + h.beats[..sent] + [FinalResponse(h, ending)], submitted, !h.last)
  }

  function Serve(config: Config, size: Measure, lines: seq<Line>, turns: seq<Turn>): Connection
    requires |turns| == |lines|
  {
    if lines == [] then FRESH
    else
      var n := |lines| - 1;
      ServeOne(config, size, Serve(config, size, lines[..n], turns[..n]), lines[n], turns[n])
  }

  /** The handler of one connection. */
  class Handler {
    const config: Config
    const size: Measure
    var session: Option<Session>
    var output: seq<Message>
    var submitted: seq<seq<Command>>

    constructor (config: Config, size: Measure)
      ensures this.config == config && this.size == size
      ensures session == None && output == [] && submitted == []
    {
      this.config, this.size, session, output, submitted := config, size, None, [], [];
    }

    /** The wait for a submitted batch: a heartbeat goes out each time it times out. After one that could not
        be written the wait goes on in silence; one that is too long ends it with an exception. */
    method AwaitWork(id: Json, sights: seq<PhysicalOwner.Progress>, room: nat) returns (sent: nat, ending: Ending)
      modifies this`output
      ensures (sent, ending) == SendBeats(size, BeatsFor(id, sights), room)
      ensures output == old(output) + BeatsFor(id, sights)[..sent]
    {
      sent, ending := 0, AllSent;
      ghost var beats := BeatsFor(id, sights);
      assert beats[..0] == [];
      for i := 0 to |sights|
        invariant (sent, ending) == SendBeats(size, beats[..i], room)
        invariant output == old(output) + beats[..sent]
      {
        OneMoreBeat(size, beats, room, i);
        var beat := HeartbeatNotification(id, StateName(sights[i]));
        if ending.AllSent? {
          if EncodeMessage(size, beat).Failure? {
            ending := TooLong;
            BeatsEndedEarlier(size, beats, room, i + 1);
            return;
          }
          if sent >= room {
            ending := Lost;
          } else {
            output, sent := output + [beat], sent + 1;
          }
        }
      }
      assert beats[..|sights|] == beats;
    }

    /** One turn of the loop of _handle. */
    method ServeLine(line: Line, turn: Turn) returns (open: bool)
      modifies this
      ensures Connection(session, output, submitted, open)
           == ServeOne(config, size, old(Connection(session, output, submitted, true)), line, turn)
    {
      var h := HandleLine(config, session, line, turn);
      BeatsOfHandled(config, session, line, turn);
      session := h.session;
      var sent, ending := 0, AllSent;
      if h.submitted.Some? {
        submitted := submitted + [h.submitted.value];
        sent, ending := AwaitWork(Member(line.body.value.members, "id"), turn.sights, turn.room);
      }
      assert output == old(output) + h.beats[..sent] && (sent, ending) == SendBeats(size, h.beats, turn.room);
      if ending.Lost? {
        return false;
      }
      var response := FinalResponse(h, ending);
      var encoded := EncodeMessage(size, response);
      if encoded.Failure? || sent >= turn.room {
        return false;
      }
      output := output + [response];
      open := !h.last;
    }

    /** _handle: read lines until the client is gone, asks to close, or cannot be answered. */
    method Handle(lines: seq<Line>, turns: seq<Turn>) returns (open: bool)
      requires |turns| == |lines| && session == None && output == [] && submitted == []
      modifies this
      ensures Connection(session, output, submitted, open) == Serve(config, size, lines, turns)
    {
      open := true;
      for n := 0 to |lines|
        invariant open && Connection(session, output, submitted, open) == Serve(config, size, lines[..n], turns[..n])
      {
        assert lines[..n + 1][..n] == lines[..n] && turns[..n + 1][..n] == turns[..n];
        open := ServeLine(lines[n], turns[n]);
        if !open {
          ServedNoMore(config, size, lines, turns, n + 1);
          return;
        }
      }
      assert lines[..|lines|] == lines && turns[..|turns|] == turns;
    }
  }

  lemma OneMoreBeat(size: Measure, beats: seq<Message>, room: nat, i: nat)
    requires i < |beats|
    ensures
      var (sent, ending) := SendBeats(size, beats[..i], room);
      && SendBeats(size, beats[..i + 1], room)
         == (if !ending.AllSent? then (sent, ending)
             else if EncodeMessage(size, beats[i]).Failure? then (sent, TooLong)
             else if sent >= room then (sent, Lost)
             else (sent + 1, AllSent))
      && (ending.AllSent? ==> sent == i && beats[..i] + [beats[i]] == beats[..i + 1])
  {
    assert beats[..i + 1][..i] == beats[..i];
  }

  /** Once the heartbeats have ended, none is sent any more. */
  lemma {:induction false} BeatsEndedEarlier(size: Measure, beats: seq<Message>, room: nat, k: nat)
    requires k <= |beats| && !SendBeats(size, beats[..k], room).1.AllSent?
    ensures SendBeats(size, beats, room) == SendBeats(size, beats[..k], room)
    decreases |beats|
  {
    if k == |beats| {
      assert beats[..k] == beats;
    } else {
      assert beats[..|beats| - 1][..k] == beats[..k];
      BeatsEndedEarlier(size, beats[..|beats| - 1], room, k);
    }
  }

  lemma BeatsOfHandled(config: Config, session: Option<Session>, line: Line, turn: Turn)
    ensures
      var h := HandleLine(config, session, line, turn);
      && (h.submitted.None? ==> h.beats == [])
      && (h.submitted.Some? ==>
            && line.body.Some? && line.body.value.Object?
            && h.beats == BeatsFor(Member(line.body.value.members, "id"), turn.sights))
  {
  }

  lemma {:induction false} ServedNoMore(config: Config, size: Measure, lines: seq<Line>, turns: seq<Turn>, k: nat)
    requires |turns| == |lines| && k <= |lines| && !Serve(config, size, lines[..k], turns[..k]).open
    ensures Serve(config, size, lines, turns) == Serve(config, size, lines[..k], turns[..k])
    decreases |lines|
  {
    if k == |lines| {
      assert lines[..k] == lines && turns[..k] == turns;
    } else {
      var n := |lines| - 1;
      assert lines[..n][..k] == lines[..k] && turns[..n][..k] == turns[..k];
      ServedNoMore(config, size, lines[..n], turns[..n], k);
    }
  }

}
