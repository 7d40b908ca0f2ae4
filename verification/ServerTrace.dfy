/** What a client connection of the gateway looks like from outside, over all its requests. */
module ServerTrace {

  import opened Wrappers
  import opened Errors
  import opened Commands
  import opened Devices
  import opened Protocol
  import opened Server
  import opened PhysicalOwner
  import opened Watching
  import OwnerSchedule

  /** The id a response has to a line: that of the request if the line decodes, null otherwise. */
  function IdOf(line: Line): Json {
    if WithinLimits(line) && DecodeMessage(line).Success? then Member(DecodeMessage(line).value, "id") else Null
  }

  /** The line asks for the execution of a batch. */
  predicate AsksToExecute(line: Line) {
    WithinLimits(line) && DecodeMessage(line).Success? && Member(DecodeMessage(line).value, "method") == Str("execute")
  }

  /** A final response: it echoes the id and has either a result or an error. */
  predicate IsResponse(m: Message, id: Json) {
    && Member(m, "jsonrpc") == Str("2.0") && "id" in m && m["id"] == id
    && ("result" in m <==> "error" !in m) && "method" !in m
  }

  /** Heartbeats for one request: some that say queued, then some that say executing. */
  ghost predicate AreBeats(beats: seq<Message>, id: Json, queued: nat) {
    && queued <= |beats|
    && (forall i :: 0 <= i < queued ==> beats[i] == HeartbeatNotification(id, "queued"))
    && (forall i :: queued <= i < |beats| ==> beats[i] == HeartbeatNotification(id, "executing"))
  }

  function QueuedCount(sights: seq<Progress>): (q: nat)
    ensures q <= |sights|
  {
    if sights == [] || sights[0].Executing? then 0 else 1 + QueuedCount(sights[1..])
  }

  lemma {:induction false} QueuedThenExecuting(sights: seq<Progress>)
    requires Progressing(sights)
    ensures forall i :: 0 <= i < QueuedCount(sights) ==> sights[i].Queued?
    ensures forall i :: QueuedCount(sights) <= i < |sights| ==> sights[i].Executing?
  {
    if sights != [] && sights[0].Queued? {
      var rest := sights[1..];
      assert forall i, j :: 0 <= i < j < |rest| ==> rest[i] == sights[i + 1] && rest[j] == sights[j + 1];
      QueuedThenExecuting(rest);
      assert forall i :: 1 <= i < |sights| ==> sights[i] == rest[i - 1];
    }
  }

  lemma BeatsAreBeats(id: Json, sights: seq<Progress>)
    requires Progressing(sights)
    ensures AreBeats(BeatsFor(id, sights), id, QueuedCount(sights))
  {
    QueuedThenExecuting(sights);
  }

  lemma ResponsesAreResponses(id: Json, result: Json, e: Error)
    ensures IsResponse(ResultResponse(id, result), id) && IsResponse(ErrorResponse(id, e), id)
  {
    var r, f := ResultResponse(id, result), ErrorResponse(id, e);
    assert "result" in r && "error" !in r && "method" !in r && "error" in f && "result" !in f && "method" !in f;
  }

  /** Every line is answered by exactly one final response. */
  lemma AnswersEveryLine(config: Config, session: Option<Session>, line: Line, turn: Turn)
    ensures IsResponse(HandleLine(config, session, line, turn).response, IdOf(line))
  {
    var h := HandleLine(config, session, line, turn);
    if "result" in h.response {
      ResponsesAreResponses(IdOf(line), h.response["result"], ASSERTION_ERROR);
    }
    ErrorsAreResponses(IdOf(line));
  }

  lemma ErrorsAreResponses(id: Json)
    ensures forall e :: IsResponse(ErrorResponse(id, e), id)
    ensures forall r :: IsResponse(ResultResponse(id, r), id)
  {
    forall e
      ensures IsResponse(ErrorResponse(id, e), id)
    {
      ResponsesAreResponses(id, Null, e);
    }
    forall r
      ensures IsResponse(ResultResponse(id, r), id)
    {
      ResponsesAreResponses(id, r, ASSERTION_ERROR);
    }
  }

  /** The list of an execute request is accepted as a batch if and only if it has 1 to 256 items and each is
      accepted as the command at its place. */
  lemma AcceptedBatch(params: Message, batch: seq<Command>)
    ensures BatchOf(params) == Success(batch) <==>
      && "commands" in params && params["commands"].List?
      && var items := params["commands"].items;
         && 1 <= |items| <= 256 && |batch| == |items|
         && forall i :: 0 <= i < |items| ==> DeserializeCommand(items[i]) == Success(batch[i])
  {
    if "commands" in params && params["commands"].List? {
      DeserializedOneByOne(params["commands"].items, batch);
    }
  }

  lemma {:induction false} DeserializedOneByOne(items: seq<Json>, batch: seq<Command>)
    ensures DeserializeAll(items) == Success(batch) <==>
      |batch| == |items| && forall i :: 0 <= i < |items| ==> DeserializeCommand(items[i]) == Success(batch[i])
  {
    if items != [] && |batch| == |items| {
      var n := |items| - 1;
      DeserializedOneByOne(items[..n], batch[..n]);
      LastDeserialized(items, batch);
      assert forall i :: 0 <= i < n ==> items[..n][i] == items[i] && batch[..n][i] == batch[i];
    }
  }

  lemma LastDeserialized(items: seq<Json>, batch: seq<Command>)
    requires items != [] && |batch| == |items|
    ensures
      var n := |items| - 1;
      DeserializeAll(items) == Success(batch) <==>
        DeserializeAll(items[..n]) == Success(batch[..n]) && DeserializeCommand(items[n]) == Success(batch[n])
  {
    var n := |items| - 1;
    var earlier, last := DeserializeAll(items[..n]), DeserializeCommand(items[n]);
    if earlier.Success? && last.Success? {
      SnocSplits(earlier.value, last.value, batch);
    }
  }

  lemma SnocSplits(earlier: seq<Command>, last: Command, batch: seq<Command>)
    ensures earlier + [last] == batch <==>
      |batch| == |earlier| + 1 && earlier == batch[..|earlier|] && last == batch[|earlier|]
  {
    if |batch| == |earlier| + 1 && earlier == batch[..|earlier|] && last == batch[|earlier|] {
      assert batch == batch[..|earlier|] + [batch[|earlier|]];
    }
  }

  /** Only an execute request in an open session reaches the owner, with a batch of 1 to 256 commands that
      pass their constructors; only then are there heartbeats. */
  lemma ReachesOwner(config: Config, session: Option<Session>, line: Line, turn: Turn)
    ensures
      var h := HandleLine(config, session, line, turn);
      && (h.submitted.None? ==> h.beats == [])
      && (h.submitted.Some? ==>
            && session.Some? && h.session == session && AsksToExecute(line)
            && 1 <= |h.submitted.value| <= MAX_BATCH_COMMANDS && AllValid(h.submitted.value)
            && h.beats == BeatsFor(IdOf(line), turn.sights))
  {
  }

  /** A session starts with an accepted handshake and in no other way, and is not replaced afterwards. */
  lemma SessionStartsWithHandshake(config: Config, session: Option<Session>, line: Line, turn: Turn)
    ensures
      var h := HandleLine(config, session, line, turn);
      && (session.Some? ==> h.session == session)
      && (session.None? && h.session.Some? ==>
            && WithinLimits(line) && DecodeMessage(line).Success?
            && var request := DecodeMessage(line).value;
               && Member(request, "method") == Str("handshake") && Member(request, "params").Object?
               && var params := Member(request, "params").members;
                  && Member(params, "commit") == Str(config.commit) && config.commit != UNKNOWN_COMMIT
                  && (config.token.Some? ==> Member(params, "token") == Str(config.token.value)))
  {
    var h := HandleLine(config, session, line, turn);
    if session.None? && h.session.Some? {
      var request := DecodeMessage(line).value;
      assert "params" !in request ==> Member(map[], "commit") == Null;
    }
  }

  /** The whole number or fraction a JSON value is, for the numbers of the settings. */
  predicate IsAmount(j: Json, x: real) {
    (j.Int? && j.n as real == x) || (j.Real? && j.r == x)
  }

  /** The settings ask for the interval and the timeout, in the ranges allowed. */
  predicate AsksFor(settings: Json, interval: real, timeout: real) {
    && settings.Object?
    && "min_command_interval" in settings.members && IsAmount(settings.members["min_command_interval"], interval)
    && "timeout" in settings.members && IsAmount(settings.members["timeout"], timeout)
    && interval >= 0.0 && timeout > 0.0
  }

  /** The client runs the same known build. */
  predicate SameBuild(config: Config, params: Message) {
    "commit" in params && params["commit"] == Str(config.commit) && config.commit != "unknown"
  }

  /** The client knows the token, if there is one. */
  predicate KnowsToken(config: Config, params: Message) {
    config.token.Some? ==> "token" in params && params["token"] == Str(config.token.value)
  }

  /** A handshake is accepted with exactly the settings it asks for, if and only if it comes from the same build,
      with the token, and asks for allowed settings. */
  lemma AcceptedHandshake(config: Config, params: Message)
    ensures forall interval, timeout ::
      Handshake(config, params) == Success(Session(interval, timeout)) <==>
        SameBuild(config, params) && KnowsToken(config, params)
        && "settings" in params && AsksFor(params["settings"], interval, timeout)
    ensures
      var answer := Handshake(config, params);
      answer.Failure? ==>
        && answer.error.Gateway?
        && answer.error.cls == (if !SameBuild(config, params) then "GatewayVersionMismatchError"
                                else if !KnowsToken(config, params) then "GatewayAuthenticationError"
                                else "GatewayProtocolError")
  {
  }

  /** The line carries a request for a method with some parameters. */
  predicate Requests(line: Line, verb: string, params: Message) {
    && line.length <= 1048577 && line.terminated && line.body.Some? && line.body.value.Object?
    && var m := line.body.value.members;
       && "jsonrpc" in m && m["jsonrpc"] == Str("2.0") && "method" in m && m["method"] == Str(verb)
       && (if "params" in m then m["params"] == Object(params) else params == map[])
  }

  function RequestId(line: Line): Json
    requires line.body.Some? && line.body.value.Object?
  {
    if "id" in line.body.value.members then line.body.value.members["id"] else Null
  }

  /** On a connection without a session such a handshake is answered with the commit and opens the session; any
      other leaves it without one and is answered with an error. */
  lemma HandshakeOpensSession(config: Config, line: Line, turn: Turn, params: Message)
    requires Requests(line, "handshake", params)
    ensures
      var h := HandleLine(config, None, line, turn);
      && h.submitted.None? && !h.last && h.beats == [] && "id" in h.response && h.response["id"] == RequestId(line)
      && (forall interval, timeout ::
            h.session == Some(Session(interval, timeout)) <==>
              SameBuild(config, params) && KnowsToken(config, params)
              && "settings" in params && AsksFor(params["settings"], interval, timeout))
      && (h.session.Some? ==>
            "result" in h.response && h.response["result"] == Object(map["commit" := Str(config.commit)]))
      && (h.session.None? ==> "error" in h.response)
  {
    AcceptedHandshake(config, params);
    assert Member(line.body.value.members, "method") == Str("handshake");
  }

  /** The error a response carries, by class. */
  predicate Complains(m: Message, cls: string) {
    && "error" in m && m["error"].Object?
    && var error := m["error"].members;
       && "code" in error && error["code"] == Int(-32000) && "data" in error && error["data"].Object?
       && var data := error["data"].members;
          && "kind" in data && data["kind"] == Str("gateway")
          && "exception_type" in data && data["exception_type"] == Str(cls)
  }

  /** An error response carries the code for server errors, the exception's text, and data from which the client
      rebuilds the exception if and only if it is portable. */
  lemma ErrorIsCarried(id: Json, e: Error)
    requires !e.Verification?
    ensures
      var m := ErrorResponse(id, e);
      && "error" in m && m["error"].Object?
      && var error := m["error"].members;
         && "code" in error && error["code"] == Int(-32000) && "message" in error && "data" in error
         && (ReconstructException(error["data"]) == e <==> Portable(e))
         && (e.South? ==> forall text :: e.args == [TextArg(text)] ==> error["message"] == Str(text))
         && (!e.South? ==> error["message"] == Str(e.message))
  {
    ExceptionRoundTrip(e, TRACEBACK);
  }

  /** In an open session ping and close are answered as such, and only an accepted close ends it; any other
      method than execute is refused. Without a session every method but handshake is. */
  lemma OtherRequests(config: Config, session: Option<Session>, line: Line, turn: Turn, verb: string, params: Message)
    requires Requests(line, verb, params)
    ensures
      var h := HandleLine(config, session, line, turn);
      if session.None? then
        verb != "handshake" ==> Complains(h.response, "GatewayProtocolError") && !h.last && h.session.None?
      else
        && h.session == session && (h.last <==> verb == "close")
        && (verb == "ping" ==> "result" in h.response && h.response["result"] == Object(map["ok" := Bool(true)]))
        && (verb == "close" ==> "result" in h.response && h.response["result"] == Object(map["closed" := Bool(true)]))
        && (verb !in {"execute", "ping", "close"} ==> Complains(h.response, "GatewayProtocolError"))
  {
    assert Member(line.body.value.members, "method") == Str(verb);
  }

  /** A line that is no request is refused and has no other effect. */
  lemma NoRequest(config: Config, session: Option<Session>, line: Line, turn: Turn)
    requires forall verb, params :: !Requests(line, verb, params)
    ensures
      var h := HandleLine(config, session, line, turn);
      h.session == session && h.submitted.None? && !h.last && Complains(h.response, "GatewayProtocolError")
  {
    if WithinLimits(line) && DecodeMessage(line).Success? {
      var m := line.body.value.members;
      var verb, params := Member(m, "method"), if "params" in m then m["params"] else Object(map[]);
      if verb.Str? && params.Object? {
        assert Requests(line, verb.s, params.members);
      }
    }
  }

  lemma {:induction false} AllBeatsAreSent(size: Measure, beats: seq<Message>, room: nat)
    requires (forall j :: size(j) <= 1048576) && |beats| <= room
    ensures SendBeats(size, beats, room) == (|beats|, AllSent)
  {
    if beats != [] {
      AllBeatsAreSent(size, beats[..|beats| - 1], room);
    }
  }

  /** While messages are short enough and the client is there, each line is answered, behind its heartbeats, and
      the connection ends with the first close in an open session and with nothing else. */
  lemma ConnectionEndsWithClose(config: Config, size: Measure, c: Connection, line: Line, turn: Turn)
    requires c.open && (forall j :: size(j) <= 1048576) && |turn.sights| < turn.room
    ensures
      var after, h := ServeOne(config, size, c, line, turn), HandleLine(config, c.session, line, turn);
      && after.session == h.session && after.output == c.output + h.beats + [h.response]
      && (after.open <==> !(c.session.Some? && exists params :: Requests(line, "close", params)))
  {
    var h := HandleLine(config, c.session, line, turn);
    ReachesOwner(config, c.session, line, turn);
    AllBeatsAreSent(size, h.beats, turn.room);
    assert h.beats[..|h.beats|] == h.beats;
    ClosesOnRequest(config, c.session, line, turn);
  }

  lemma ClosesOnRequest(config: Config, session: Option<Session>, line: Line, turn: Turn)
    ensures HandleLine(config, session, line, turn).last <==>
      session.Some? && exists params :: Requests(line, "close", params)
  {
    if verb, params :| Requests(line, verb, params) {
      OtherRequests(config, session, line, turn, verb, params);
      if session.None? && verb == "handshake" {
        HandshakeOpensSession(config, line, turn, params);
      }
    } else {
      NoRequest(config, session, line, turn);
    }
  }

  /** The output from cut on answers a line: heartbeats for it, only if it executes a batch, that many of
      them queued and the rest executing, and then one final response. */
  ghost predicate IsBlock(output: seq<Message>, cut: nat, queued: nat, line: Line) {
    && cut < |output|
    && AreBeats(output[cut..|output| - 1], IdOf(line), queued)
    && (!AsksToExecute(line) ==> cut == |output| - 1)
    && IsResponse(output[|output| - 1], IdOf(line))
  }

  /** The output of a connection, request by request. */
  ghost predicate WellShaped(output: seq<Message>, lines: seq<Line>)
    decreases |lines|
  {
    if lines == [] then output == []
    else
      var line, earlier := lines[|lines| - 1], lines[..|lines| - 1];
      exists cut: nat, queued: nat :: IsBlock(output, cut, queued, line) && WellShaped(output[..cut], earlier)
  }

  lemma FewerBeats(beats: seq<Message>, id: Json, queued: nat, sent: nat)
    requires AreBeats(beats, id, queued) && sent <= |beats|
    ensures AreBeats(beats[..sent], id, if sent < queued then sent else queued)
  {
  }

  lemma FinalIsResponse(config: Config, session: Option<Session>, line: Line, turn: Turn, ending: Ending)
    ensures IsResponse(FinalResponse(HandleLine(config, session, line, turn), ending), IdOf(line))
  {
    AnswersEveryLine(config, session, line, turn);
    ErrorsAreResponses(IdOf(line));
    assert Member(HandleLine(config, session, line, turn).response, "id") == IdOf(line);
  }

  lemma HandledIsBlock(config: Config, session: Option<Session>, line: Line, turn: Turn, before: seq<Message>,
                       sent: nat, ending: Ending) returns (queued: nat)
    requires Progressing(turn.sights) && sent <= |HandleLine(config, session, line, turn).beats|
    ensures
      var h := HandleLine(config, session, line, turn);
      IsBlock(before + h.beats[..sent] + [FinalResponse(h, ending)], |before|, queued, line)
  {
    var h := HandleLine(config, session, line, turn);
    var output := before + h.beats[..sent] + [FinalResponse(h, ending)];
    FinalIsResponse(config, session, line, turn, ending);
    ReachesOwner(config, session, line, turn);
    assert output[|before|..|output| - 1] == h.beats[..sent];
    queued := 0;
    if h.submitted.Some? {
      BeatsAreBeats(IdOf(line), turn.sights);
      queued := QueuedCount(turn.sights);
      FewerBeats(h.beats, IdOf(line), queued, sent);
      queued := if sent < queued then sent else queued;
    }
  }

  /** The connection is up until the last line, whose response can be framed and written. */
  predicate StaysUp(config: Config, size: Measure, lines: seq<Line>, turns: seq<Turn>)
    requires |turns| == |lines|
  {
    lines == [] ||
    var n := |lines| - 1;
    var before := Serve(config, size, lines[..n], turns[..n]);
    before.open && Answers(size, HandleLine(config, before.session, lines[n], turns[n]), turns[n].room)
  }

  lemma {:induction false} StaysUpBefore(config: Config, size: Measure, lines: seq<Line>, turns: seq<Turn>)
    requires |turns| == |lines| && lines != [] && Serve(config, size, lines, turns).open
    ensures StaysUp(config, size, lines, turns)
  {
  }

  lemma {:induction false} ShapedIfProgressing(config: Config, size: Measure, lines: seq<Line>, turns: seq<Turn>)
    requires |turns| == |lines| && StaysUp(config, size, lines, turns)
    requires forall i :: 0 <= i < |turns| ==> Progressing(turns[i].sights)
    ensures WellShaped(Serve(config, size, lines, turns).output, lines)
  {
    if lines != [] {
      var n := |lines| - 1;
      var before := Serve(config, size, lines[..n], turns[..n]);
      if n > 0 {
        StaysUpBefore(config, size, lines[..n], turns[..n]);
      }
      ShapedIfProgressing(config, size, lines[..n], turns[..n]);
      var (sent, ending) := SendBeats(size, HandleLine(config, before.session, lines[n], turns[n]).beats, turns[n].room);
      var queued := HandledIsBlock(config, before.session, lines[n], turns[n], before.output, sent, ending);
      var output := Serve(config, size, lines, turns).output;
      assert output[..|before.output|] == before.output;
      assert IsBlock(output, |before.output|, queued, lines[n]) && WellShaped(output[..|before.output|], lines[..n]);
    }
  }

  /** Over every run of the owner and every sequence of request lines on a connection that stays up, the
      output is, request by request, heartbeats that say queued, heartbeats that say executing, and one final
      response. */
  lemma OutputIsWellShaped<S>(config: Config, size: Measure, lines: seq<Line>, turns: seq<Turn>,
                              dev: Device<S>, s: S, steps: seq<OwnerSchedule.Step>)
    requires |turns| == |lines| && StaysUp(config, size, lines, turns)
    requires OwnerSchedule.IsRun(dev, s, steps)
    requires forall i :: 0 <= i < |turns| ==> Watched(dev, s, steps, turns[i].sights)
    ensures WellShaped(Serve(config, size, lines, turns).output, lines)
  {
    forall i | 0 <= i < |turns|
      ensures Progressing(turns[i].sights)
    {
      SightsMoveForward(dev, s, steps, turns[i].sights);
    }
    ShapedIfProgressing(config, size, lines, turns);
  }

  /** Nothing reaches the owner before a handshake has been accepted, and no batch that is empty, too large
      or holds a text the command constructors refuse ever does. */
  lemma {:induction false} OwnerIsShielded(config: Config, size: Measure, lines: seq<Line>, turns: seq<Turn>)
    requires |turns| == |lines|
    ensures
      var c := Serve(config, size, lines, turns);
      && (c.session.None? ==> c.submitted == [])
      && (forall k :: 0 <= k < |c.submitted| ==>
            1 <= |c.submitted[k]| <= MAX_BATCH_COMMANDS && AllValid(c.submitted[k]))
  {
    if lines != [] {
      var n := |lines| - 1;
      var before := Serve(config, size, lines[..n], turns[..n]);
      OwnerIsShielded(config, size, lines[..n], turns[..n]);
      LineIsShielded(config, before.session, lines[n], turns[n], HandleLine(config, before.session, lines[n], turns[n]));
    }
  }

  lemma LineIsShielded(config: Config, session: Option<Session>, line: Line, turn: Turn, h: Handled)
    requires h == HandleLine(config, session, line, turn)
    ensures h.session.None? ==> session.None?
    ensures h.submitted.Some? ==>
      h.session.Some? && 1 <= |h.submitted.value| <= MAX_BATCH_COMMANDS && AllValid(h.submitted.value)
  {
    ReachesOwner(config, session, line, turn);
    SessionStartsWithHandshake(config, session, line, turn);
  }

}
