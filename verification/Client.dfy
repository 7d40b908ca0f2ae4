/** The client side of a gateway session (gateway/client.py). */
module Client {

  import opened Wrappers
  import opened Errors
  import opened Commands
  import opened Devices
  import opened Protocol

  /** What a read of the stream gives. Broken stands for any other OSError or ValueError. */
  datatype Arrival = Got(line: Line) | TimedOut | Ended | Broken(message: string)

  function ConnectionError(message: string): Error {
    Gateway("GatewayConnectionError", message)
  }

  /** The handler around the stream turns OSErrors, and the connection error raised at the end of the
      stream is one of them, into connection errors. */
  function RequestFailed(message: string): Error {
    ConnectionError("Gateway request failed: " + message)
  }

  function RequestMessage(id: int, verb: string, params: Message): Message {
    map["jsonrpc" := Str("2.0"), "id" := Int(id), "method" := Str(verb), "params" := Object(params)]
  }

  /** What is made of a final response. */
  function Conclude(response: Message, id: int): Result<Json, Error> {
    if !EqualsInt(Member(response, "id"), id) then
      Failure(GatewayProtocolError("Gateway response ID did not match the request"))
    else if "error" in response then
      Failure(ReconstructException(if response["error"].Object? then Member(response["error"].members, "data") else Null))
    else if "result" !in response then Failure(GatewayProtocolError("Gateway response had no result or error"))
    else Success(response["result"])
  }

  /** One turn of the reading loop: a verdict, or None after a heartbeat for this request. */
  function Receive(arrival: Arrival, id: int): Option<Result<Json, Error>> {
    match arrival
    case TimedOut => Some(Failure(RequestFailed("timed out")))
    case Ended => Some(Failure(RequestFailed("Gateway closed the connection")))
    case Broken(message) => Some(Failure(RequestFailed(message)))
    case Got(line) =>
      if !WithinLimits(line) then
        Some(Failure(GatewayProtocolError("Gateway response exceeded limits or lacked LF")))
      else
        match DecodeMessage(line)
        case Failure(e) => Some(Failure(e))
        case Success(m) =>
          match ParseHeartbeat(m, id)
          case Failure(e) => Some(Failure(e))
          case Success(Some(_)) => None
          case Success(None) => Some(Conclude(m, id))
  }

  /** The reading loop: heartbeats for this request are skipped, the first other arrival decides. When
      nothing more arrives the read times out. The second part is what is left unread. */
  function Await(arrivals: seq<Arrival>, id: int): (Result<Json, Error>, seq<Arrival>) {
    if arrivals == [] then (Failure(RequestFailed("timed out")), [])
    else
      var verdict := Receive(arrivals[0], id);
      if verdict.Some? then (verdict.value, arrivals[1..]) else Await(arrivals[1..], id)
  }

  /** The outcome of a batch from the result of its request. */
  function OutcomeOfResult(result: Result<Json, Error>, n: nat): Outcome {
    match result
    case Failure(e) => Raised(e)
    case Success(Object(m)) =>
      (match Member(m, "values")
       case List(items) =>
         if |items| != n || exists i :: 0 <= i < |items| && items[i] != Null && !items[i].Str? then
           Raised(GatewayProtocolError("Gateway execute results did not match the batch"))
         else
           Values(seq(|items|, i requires 0 <= i < |items| => if items[i].Str? then Some(items[i].s) else None))
       case _ => Raised(GatewayProtocolError("Gateway execute result was malformed")))
    case _ => Raised(GatewayProtocolError("Gateway execute result was malformed"))
  }

  // ----- what a read of the stream means -----

  /** What a read gave is this JSON-RPC message, in a frame of allowed length. */
  predicate IsMessage(arrival: Arrival, m: Message) {
    && arrival.Got? && arrival.line.length <= 1048577 && arrival.line.terminated
    && arrival.line.body == Some(Object(m)) && "jsonrpc" in m && m["jsonrpc"] == Str("2.0")
  }

  /** A JSON value that Python takes for the id. */
  predicate IsId(j: Json, id: int) {
    j == Int(id) || j == Real(id as real) || (j == Bool(true) && id == 1) || (j == Bool(false) && id == 0)
  }

  /** A heartbeat for the request with this id, saying queued or executing. */
  predicate IsBeat(m: Message, id: int) {
    && "method" in m && m["method"] == Str("heartbeat") && "id" !in m
    && "params" in m && m["params"].Object?
    && var params := m["params"].members;
       && "request_id" in params && IsId(params["request_id"], id)
       && "state" in params && params["state"] in {Str("queued"), Str("executing")}
  }

  /** A response with a result to the request with this id; heartbeats are no responses, and an error counts
      before a result. */
  predicate IsAnswer(m: Message, id: int, result: Json) {
    && ("method" in m ==> m["method"] != Str("heartbeat"))
    && "id" in m && IsId(m["id"], id) && "error" !in m && "result" in m && m["result"] == result
  }

  /** What a silent, closed or broken connection is reported as. */
  function Trouble(arrival: Arrival): string
    requires !arrival.Got?
  {
    "Gateway request failed: " + match arrival
                                 case TimedOut => "timed out"
                                 case Ended => "Gateway closed the connection"
                                 case Broken(message) => message
  }

  lemma BeatIsParsed(m: Message, id: int)
    ensures ParseHeartbeat(m, id) == Success(None) <==> ("method" in m ==> m["method"] != Str("heartbeat"))
    ensures IsBeat(m, id) <==> ParseHeartbeat(m, id).Success? && ParseHeartbeat(m, id).value.Some?
  {
  }

  lemma AnswerIsConcluded(m: Message, id: int, result: Json)
    ensures Conclude(m, id) == Success(result) <==>
      "id" in m && IsId(m["id"], id) && "error" !in m && "result" in m && m["result"] == result
  {
  }

  lemma MessageIsDecoded(arrival: Arrival, m: Message)
    ensures IsMessage(arrival, m) <==>
      arrival.Got? && WithinLimits(arrival.line) && DecodeMessage(arrival.line) == Success(m)
  {
  }

  /** Exactly the heartbeats for the request are skipped. */
  lemma BeatIsSkipped(arrival: Arrival, id: int)
    ensures Receive(arrival, id).None? <==> exists m :: IsMessage(arrival, m) && IsBeat(m, id)
  {
    if m :| IsMessage(arrival, m) && IsBeat(m, id) {
      MessageIsDecoded(arrival, m);
      BeatIsParsed(m, id);
    }
    if Receive(arrival, id).None? {
      var m := DecodeMessage(arrival.line).value;
      MessageIsDecoded(arrival, m);
      BeatIsParsed(m, id);
    }
  }

  /** Exactly the responses to the request that hold a result and no error give a result, that one. */
  lemma AnswerIsRead(arrival: Arrival, id: int, result: Json)
    ensures Receive(arrival, id) == Some(Success(result)) <==> exists m :: IsMessage(arrival, m) && IsAnswer(m, id, result)
  {
    if m :| IsMessage(arrival, m) && IsAnswer(m, id, result) {
      MessageIsDecoded(arrival, m);
      BeatIsParsed(m, id);
      AnswerIsConcluded(m, id, result);
    }
    if Receive(arrival, id) == Some(Success(result)) {
      var m := DecodeMessage(arrival.line).value;
      MessageIsDecoded(arrival, m);
      BeatIsParsed(m, id);
      AnswerIsConcluded(m, id, result);
    }
  }

  /** Trouble with the connection is a connection error. */
  lemma TroubleIsReported(arrival: Arrival, id: int)
    requires !arrival.Got?
    ensures Receive(arrival, id) == Some(Failure(Gateway("GatewayConnectionError", Trouble(arrival))))
  {
  }

  /** Behind any number of heartbeats, the first other arrival decides, and what follows it is left unread. */
  lemma {:induction false} FirstOtherDecides(arrivals: seq<Arrival>, id: int, k: nat)
    requires k < |arrivals|
    requires forall i :: 0 <= i < k ==> Receive(arrivals[i], id).None?
    requires Receive(arrivals[k], id).Some?
    ensures Await(arrivals, id) == (Receive(arrivals[k], id).value, arrivals[k + 1..])
  {
    if k > 0 {
      var rest := arrivals[1..];
      assert forall i :: 0 <= i < k - 1 ==> rest[i] == arrivals[i + 1];
      FirstOtherDecides(rest, id, k - 1);
    }
  }

  /** The item stands for the value: a text, or null where there is none. */
  predicate StandsFor(item: Json, value: Option<string>) {
    item == if value.Some? then Str(value.value) else Null
  }

  /** The values are read exactly off an object that lists a text or null for each command; anything else is a
      protocol error, and an error stays what it is. */
  lemma OutcomeIsRead(result: Result<Json, Error>, n: nat, values: seq<Option<string>>)
    ensures OutcomeOfResult(result, n) == Values(values) <==>
      && result.Success? && result.value.Object? && "values" in result.value.members
      && result.value.members["values"].List?
      && var items := result.value.members["values"].items;
         |items| == n == |values| && forall i :: 0 <= i < n ==> StandsFor(items[i], values[i])
    ensures OutcomeOfResult(result, n).Raised? ==>
      var e := OutcomeOfResult(result, n).error;
      if result.Failure? then e == result.error else e.Gateway? && e.cls == "GatewayProtocolError"
  {
    if result.Success? && result.value.Object? && "values" in result.value.members {
      var listed := result.value.members["values"];
      if listed.List? && |listed.items| == n == |values| {
        ItemsAreRead(listed.items, values);
      }
    }
  }

  lemma ItemsAreRead(items: seq<Json>, values: seq<Option<string>>)
    requires |items| == |values|
    ensures (forall i :: 0 <= i < |items| ==> StandsFor(items[i], values[i])) <==>
      && (forall i :: 0 <= i < |items| ==> items[i] == Null || items[i].Str?)
      && values == seq(|items|, i requires 0 <= i < |items| => if items[i].Str? then Some(items[i].s) else None)
  {
    if forall i :: 0 <= i < |items| ==> StandsFor(items[i], values[i]) {
      assert forall i :: 0 <= i < |items| ==> StandsFor(items[i], values[i]);
    }
  }

  class GatewayExecutor {
    const size: Measure
    const trouble: int -> Option<string>   // what writing the request with an id raises, if anything
    var nextId: int
    var closed: bool
    var sent: seq<Message>       // what has been written to the stream
    var arrivals: seq<Arrival>   // what reads of the stream will give

    constructor (size: Measure, trouble: int -> Option<string>)
      ensures this.size == size && this.trouble == trouble && nextId == 1 && !closed && sent == [] && arrivals == []
    {
      this.size, this.trouble, nextId, closed, sent, arrivals := size, trouble, 1, false, [], [];
    }

    /** _request: every call that is not refused takes an id of its own, larger than all before. */
    method Request(verb: string, params: Message) returns (result: Result<Json, Error>)
      modifies this
      ensures closed == old(closed)
      ensures closed ==> result == Failure(ConnectionError("Gateway executor is closed")) && unchanged(this)
      ensures !closed ==> nextId == old(nextId) + 1
      ensures !closed ==>
        var request := RequestMessage(old(nextId), verb, params);
        var encoded := EncodeMessage(size, request);
        if encoded.Failure? then result == Failure(encoded.error) && sent == old(sent) && arrivals == old(arrivals)
        else if trouble(old(nextId)).Some? then
          result == Failure(RequestFailed(trouble(old(nextId)).value)) && sent == old(sent) && arrivals == old(arrivals)
        else (result, arrivals) == Await(old(arrivals), old(nextId)) && sent == old(sent) + [request]
    {
      if closed {
        return Failure(ConnectionError("Gateway executor is closed"));
      }
      var id := nextId;
      nextId := nextId + 1;
      var request := RequestMessage(id, verb, params);
      var encoded := EncodeMessage(size, request);
      if encoded.Failure? {
        return Failure(encoded.error);
      }
      if trouble(id).Some? {
        return Failure(RequestFailed(trouble(id).value));
      }
      sent := sent + [request];
      while arrivals != []
        invariant Await(arrivals, id) == Await(old(arrivals), id)
        invariant nextId == id + 1 && !closed && sent == old(sent) + [request]
        decreases |arrivals|
      {
        var verdict := Receive(arrivals[0], id);
        arrivals := arrivals[1..];
        if verdict.Some? {
          return verdict.value;
        }
      }
      result := Failure(RequestFailed("timed out"));
    }

    /** execute */
    method Execute(batch: seq<Command>) returns (outcome: Outcome)
      modifies this
      ensures SerializeAll(batch).Failure? ==> outcome == Raised(SerializeAll(batch).error) && unchanged(this)
      ensures SerializeAll(batch).Success? && old(closed) ==>
        outcome == Raised(ConnectionError("Gateway executor is closed")) && unchanged(this)
      ensures SerializeAll(batch).Success? && !old(closed) ==>
        var request := RequestMessage(old(nextId), "execute", map["commands" := List(SerializeAll(batch).value)]);
        var encoded := EncodeMessage(size, request);
        if encoded.Failure? then outcome == Raised(encoded.error)
        else if trouble(old(nextId)).Some? then outcome == Raised(RequestFailed(trouble(old(nextId)).value))
        else outcome == OutcomeOfResult(Await(old(arrivals), old(nextId)).0, |batch|) && sent == old(sent) + [request]
    {
      var payloads := SerializeAll(batch);
      if payloads.Failure? {
        return Raised(payloads.error);
      }
      var result := Request("execute", map["commands" := List(payloads.value)]);
      outcome := OutcomeOfResult(result, |batch|);
    }
  }

}
