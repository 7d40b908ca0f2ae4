/** A client and a server on two FIFO channels: timeouts, heartbeats and late answers. */
module Channel {

  import opened Wrappers
  import opened Errors
  import opened Commands
  import opened Devices
  import opened Protocol
  import opened Server
  import opened ServerTrace
  import opened Client
  import PhysicalOwner

  /** A request as it was sent. */
  datatype Request = Request(id: int, verb: string, params: Message)

  /** An answer of the server: the response it gave to a request line, in a session, given a turn, and given
      how the heartbeats before it ended. */
  datatype Answer = Answer(request: Request, session: Option<Session>, turn: Turn, ending: Ending)

  /** A result that the client's _request returned for the request with an id. */
  datatype Returned = Returned(id: int, result: Json)

  /** requests holds every request ever sent; nextId is the id of the next one made; waiting is the id the
      client is waiting for, if it is; answers are the server's, in order. */
  datatype State = State(
    requests: seq<Request>,
    nextId: int,
    waiting: Option<int>,
    session: Option<Session>,
    toClient: seq<Message>,
    answers: seq<Answer>,
    results: seq<Returned>)

  datatype Step =
    | Send(verb: string, params: Message)          // the client sends a request and waits
    | Waste                                        // it makes one that cannot be encoded or written
    | Beat(sight: PhysicalOwner.Progress)          // the server sends a heartbeat for the request at hand
    | Respond(turn: Turn, ending: Ending)          // the server answers the request at hand
    | Deliver                                      // the client reads one message
    | GiveUp                                       // the client's wait times out or breaks

  function Initial(): State {
    State([], 1, None, None, [], [], [])
  }

  /** Messages arrive as lines within the limits; how long they are does not matter here. */
  function AsLine(m: Message): Line {
    Line(1, true, Some(Object(m)))
  }

  function LineOf(request: Request): Line {
    AsLine(RequestMessage(request.id, request.verb, request.params))
  }

  predicate Enabled(st: State, step: Step) {
    match step
    case Send(_, _) => st.waiting.None?
    case Waste => st.waiting.None?
    case Beat(_) => |st.answers| < |st.requests|
    case Respond(_, _) => |st.answers| < |st.requests|
    case Deliver => st.waiting.Some? && st.toClient != []
    case GiveUp => st.waiting.Some?
  }

  /** What the server makes of a request of the client. */
  function ResponseOf(config: Config, answer: Answer): Message {
    FinalResponse(HandleLine(config, answer.session, LineOf(answer.request), answer.turn), answer.ending)
  }

  /** The state after the client has read a message and made a verdict of it. */
  function AfterVerdict(st: State, verdict: Option<Result<Json, Error>>): State
    requires st.waiting.Some? && st.toClient != []
  {
    var rest := st.(toClient := st.toClient[1..]);
    match verdict
    case None => rest
    case Some(Failure(_)) => rest.(waiting := None)
    case Some(Success(result)) =>
      rest.(waiting := None, results := st.results + [Returned(st.waiting.value, result)])
  }

  function Next(config: Config, st: State, step: Step): State
    requires Enabled(st, step)
  {
    match step
    case Send(verb, params) =>
      st.(requests := st.requests + [Request(st.nextId, verb, params)], nextId := st.nextId + 1, waiting := Some(st.nextId))
    case Waste => st.(nextId := st.nextId + 1)
    case Beat(sight) =>
      st.(toClient := st.toClient + [HeartbeatNotification(Int(st.requests[|st.answers|].id), StateName(sight))])
    case Respond(turn, ending) =>
      var answer := Answer(st.requests[|st.answers|], st.session, turn, ending);
      st.(session := HandleLine(config, st.session, LineOf(answer.request), turn).session,
          toClient := st.toClient + [ResponseOf(config, answer)], answers := st.answers + [answer])
    case Deliver => AfterVerdict(st, Receive(Got(AsLine(st.toClient[0])), st.waiting.value))
    case GiveUp => st.(waiting := None)
  }

  // ----- the invariant -----

  /** Ids strictly increase, though not without gaps; the k-th answer is to the k-th request sent; the client
      waits for the last one. */
  predicate Accounted(st: State) {
    && (forall i, j :: 0 <= i < j < |st.requests| ==> st.requests[i].id < st.requests[j].id)
    && (forall i :: 0 <= i < |st.requests| ==> st.requests[i].id < st.nextId)
    && |st.answers| <= |st.requests|
    && (forall k :: 0 <= k < |st.answers| ==> st.answers[k].request == st.requests[k])
    && (st.waiting.Some? ==> st.requests != [] && st.requests[|st.requests| - 1].id == st.waiting.value)
  }

  ghost predicate IsBeat(m: Message) {
    exists id: int, sight: PhysicalOwner.Progress :: m == HeartbeatNotification(Int(id), StateName(sight))
  }

  predicate IsAnswer(config: Config, answers: seq<Answer>, m: Message, k: nat) {
    k < |answers| && m == ResponseOf(config, answers[k])
  }

  /** The message is a heartbeat or one of the answers. */
  ghost predicate FromServer(config: Config, answers: seq<Answer>, m: Message) {
    IsBeat(m) || exists k: nat :: IsAnswer(config, answers, m, k)
  }

  /** A result is the one the server gave to that very request. */
  predicate AnsweredBy(config: Config, answer: Answer, r: Returned) {
    answer.request.id == r.id && "result" in ResponseOf(config, answer) && ResponseOf(config, answer)["result"] == r.result
  }

  ghost predicate Answered(config: Config, answers: seq<Answer>, r: Returned) {
    exists k: nat :: k < |answers| && AnsweredBy(config, answers[k], r)
  }

  ghost predicate Valid(config: Config, st: State) {
    && Accounted(st)
    && AllFromServer(config, st.answers, st.toClient) && AllAnswered(config, st.answers, st.results)
    && Increasing(st.results, if st.waiting.Some? then st.waiting.value else st.nextId)
  }

  ghost predicate AllFromServer(config: Config, answers: seq<Answer>, messages: seq<Message>) {
    forall i :: 0 <= i < |messages| ==> FromServer(config, answers, messages[i])
  }

  ghost predicate AllAnswered(config: Config, answers: seq<Answer>, results: seq<Returned>) {
    forall i :: 0 <= i < |results| ==> Answered(config, answers, results[i])
  }

  predicate Increasing(results: seq<Returned>, bound: int) {
    && (forall i, j :: 0 <= i < j < |results| ==> results[i].id < results[j].id)
    && (forall i :: 0 <= i < |results| ==> results[i].id < bound)
  }

  lemma RequestLineDecodes(request: Request)
    ensures IdOf(LineOf(request)) == Int(request.id)
  {
    var m := RequestMessage(request.id, request.verb, request.params);
    assert Member(m, "jsonrpc") == Str("2.0") && Member(m, "id") == Int(request.id);
  }

  /** A heartbeat is never taken for a result. */
  lemma BeatGivesNoResult(m: Message, id: int)
    requires IsBeat(m)
    ensures Receive(Got(AsLine(m)), id).None? || Receive(Got(AsLine(m)), id).value.Failure?
  {
    var n: int, sight: PhysicalOwner.Progress :| m == HeartbeatNotification(Int(n), StateName(sight));
    HeartbeatRoundTrip(n, StateName(sight), id);
    assert Member(m, "jsonrpc") == Str("2.0");
  }

  /** An answer is taken for a result only by the request it answers. */
  lemma AnswerGivesOwnResult(config: Config, answer: Answer, id: int)
    requires
      var verdict := Receive(Got(AsLine(ResponseOf(config, answer))), id);
      verdict.Some? && verdict.value.Success?
    ensures AnsweredBy(config, answer, Returned(id, Receive(Got(AsLine(ResponseOf(config, answer))), id).value.value))
  {
    var m := ResponseOf(config, answer);
    RequestLineDecodes(answer.request);
    FinalIsResponse(config, answer.session, LineOf(answer.request), answer.turn, answer.ending);
    assert m["id"] == Int(answer.request.id);
  }

  /** What the client takes for its result is the server's answer to the request it waits for. */
  lemma TakenResultIsAnswered(config: Config, answers: seq<Answer>, m: Message, id: int, verdict: Option<Result<Json, Error>>)
    requires FromServer(config, answers, m)
    requires verdict == Receive(Got(AsLine(m)), id) && verdict.Some? && verdict.value.Success?
    ensures Answered(config, answers, Returned(id, verdict.value.value))
  {
    if IsBeat(m) {
      BeatGivesNoResult(m, id);
    } else {
      var k: nat :| IsAnswer(config, answers, m, k);
      AnswerGivesOwnResult(config, answers[k], id);
    }
  }

  lemma DeliverKeepsValid(config: Config, st: State)
    requires Valid(config, st) && Enabled(st, Deliver)
    ensures Valid(config, Next(config, st, Deliver))
  {
    var verdict := Receive(Got(AsLine(st.toClient[0])), st.waiting.value);
    if verdict.Some? && verdict.value.Success? {
      TakenResultIsAnswered(config, st.answers, st.toClient[0], st.waiting.value, verdict);
    }
    VerdictKeepsValid(config, st, verdict);
  }

  lemma VerdictKeepsValid(config: Config, st: State, verdict: Option<Result<Json, Error>>)
    requires Valid(config, st) && st.waiting.Some? && st.toClient != []
    requires verdict.Some? && verdict.value.Success? ==>
      Answered(config, st.answers, Returned(st.waiting.value, verdict.value.value))
    ensures Valid(config, AfterVerdict(st, verdict))
  {
    assert AllFromServer(config, st.answers, st.toClient[1..]);
    if verdict.Some? && verdict.value.Success? {
      OneMoreResult(config, st.answers, st.results, Returned(st.waiting.value, verdict.value.value));
    }
  }

  lemma OneMoreResult(config: Config, answers: seq<Answer>, results: seq<Returned>, r: Returned)
    requires AllAnswered(config, answers, results) && Answered(config, answers, r) && Increasing(results, r.id)
    ensures AllAnswered(config, answers, results + [r])
    ensures forall bound :: r.id < bound ==> Increasing(results + [r], bound)
  {
  }

  /** What has been answered stays answered, and what is on its way stays an answer. */
  lemma OneMoreAnswer(config: Config, answers: seq<Answer>, answer: Answer)
    ensures forall m :: FromServer(config, answers, m) ==> FromServer(config, answers + [answer], m)
    ensures forall r :: Answered(config, answers, r) ==> Answered(config, answers + [answer], r)
    ensures FromServer(config, answers + [answer], ResponseOf(config, answer))
  {
    var more := answers + [answer];
    assert IsAnswer(config, more, ResponseOf(config, answer), |answers|);
    forall m | FromServer(config, answers, m)
      ensures FromServer(config, more, m)
    {
      if !IsBeat(m) {
        var k: nat :| IsAnswer(config, answers, m, k);
        assert IsAnswer(config, more, m, k);
      }
    }
    forall r | Answered(config, answers, r)
      ensures Answered(config, more, r)
    {
      var k: nat :| k < |answers| && AnsweredBy(config, answers[k], r);
      assert more[k] == answers[k];
    }
  }

  lemma AnswersStay(config: Config, answers: seq<Answer>, answer: Answer, messages: seq<Message>, results: seq<Returned>)
    requires AllFromServer(config, answers, messages) && AllAnswered(config, answers, results)
    ensures AllFromServer(config, answers + [answer], messages + [ResponseOf(config, answer)])
    ensures AllAnswered(config, answers + [answer], results)
  {
    OneMoreAnswer(config, answers, answer);
  }

  lemma RespondKeepsValid(config: Config, st: State, step: Step)
    requires Valid(config, st) && Enabled(st, step) && step.Respond?
    ensures Valid(config, Next(config, st, step))
  {
    AnswersStay(config, st.answers, Answer(st.requests[|st.answers|], st.session, step.turn, step.ending),
                st.toClient, st.results);
  }

  lemma NextKeepsValid(config: Config, st: State, step: Step)
    requires Valid(config, st) && Enabled(st, step)
    ensures Valid(config, Next(config, st, step))
  {
    match step
    case Respond(_, _) => RespondKeepsValid(config, st, step);
    case Deliver => DeliverKeepsValid(config, st);
    case _ =>
  }

  // ----- every run -----

  ghost predicate IsRun(config: Config, steps: seq<Step>)
    decreases |steps|, 0
  {
    steps == [] ||
    (IsRun(config, steps[..|steps| - 1]) && Enabled(After(config, steps[..|steps| - 1]), steps[|steps| - 1]))
  }

  ghost function After(config: Config, steps: seq<Step>): State
    requires IsRun(config, steps)
    decreases |steps|, 1
  {
    if steps == [] then Initial()
    else Next(config, After(config, steps[..|steps| - 1]), steps[|steps| - 1])
  }

  lemma {:induction false} EveryRunIsValid(config: Config, steps: seq<Step>)
    requires IsRun(config, steps)
    ensures Valid(config, After(config, steps))
  {
    if steps != [] {
      EveryRunIsValid(config, steps[..|steps| - 1]);
      NextKeepsValid(config, After(config, steps[..|steps| - 1]), steps[|steps| - 1]);
    }
  }

  /** The k-th answer is to the k-th request sent, and has the result and the id of that request. */
  predicate IsOwnAnswer(config: Config, st: State, r: Returned, k: nat) {
    && k < |st.answers| <= |st.requests| && st.answers[k].request == st.requests[k]
    && AnsweredBy(config, st.answers[k], r)
  }

  /** Over every run of requests, heartbeats and timeouts, however late the answers to requests given up
      arrive: a result the client returns for a request is the one the server computed from that very
      request, and no request ever returns twice. */
  lemma NoStaleAnswer(config: Config, steps: seq<Step>, i: nat)
    requires IsRun(config, steps) && i < |After(config, steps).results|
    ensures
      var st := After(config, steps);
      exists k: nat :: IsOwnAnswer(config, st, st.results[i], k)
    ensures forall j :: 0 <= j < i ==> After(config, steps).results[j].id < After(config, steps).results[i].id
  {
    EveryRunIsValid(config, steps);
    var st := After(config, steps);
    assert Answered(config, st.answers, st.results[i]);
    var k: nat :| k < |st.answers| && AnsweredBy(config, st.answers[k], st.results[i]);
    assert IsOwnAnswer(config, st, st.results[i], k);
  }

}
