/** Replies meet their queries: the executor over the socket transport, down to the bytes received. */
module Pairing {

  import opened Wrappers
  import opened Errors
  import opened Commands
  import opened Devices
  import opened Framing

  /** The transport's side of the connection and how many lines the instrument has been sent. */
  datatype Stream = Stream(buffer: seq<byte>, incoming: seq<Event>, sent: nat)

  /** What the instrument puts on the stream, in which pieces, after the n-th line it is sent. */
  type Instrument = (nat, string) -> seq<Event>

  function FaultOf(failure: ReadFailure): Fault {
    match failure
    case Overflow => Known("SPD3000ProtocolError", [TextArg("Instrument response exceeded the configured limit")])
    case TimedOut(_) => Known("SPD3000TimeoutError", [TextArg("Timed out reading from the instrument")])
    case Lost(message) => Known("SPD3000ConnectionError", [TextArg("Socket read failed: " + message)])
    case Disconnected =>
      Known("SPD3000ConnectionError", [TextArg("Instrument closed the socket before LF termination")])
    case Closed => Known("SPD3000ConnectionError", [TextArg("Socket transport is closed")])
  }

  function SocketDevice(speak: Instrument, limit: nat): Device<Stream> {
    Device(
      (st: Stream, line: string) => (st.(incoming := st.incoming + speak(st.sent, line), sent := st.sent + 1), None),
      (st: Stream) =>
        var r := ReadLoop(st.buffer, st.incoming, limit);
        (st.(buffer := r.buffer, incoming := r.incoming),
         match r.result case Success(data) => Bytes(data) case Failure(failure) => NotReceived(FaultOf(failure))))
  }

  predicate AllData(incoming: seq<Event>) {
    forall i :: 0 <= i < |incoming| ==> incoming[i].Chunk? && incoming[i].data != []
  }

  /** The bytes of the reply to the command sent after n others. */
  function ReplyTo(speak: Instrument, n: nat, command: Command): seq<byte> {
    Ready(speak(n, command.text + "\n"))
  }

  /** The instrument sends one LF-terminated ASCII line per query, in any pieces, and nothing per write. */
  ghost predicate WellBehaved(speak: Instrument, limit: nat, n: nat, commands: seq<Command>) {
    forall i :: 0 <= i < |commands| ==> RepliesWell(speak, limit, n + i, commands[i])
  }

  predicate RepliesWell(speak: Instrument, limit: nat, n: nat, command: Command) {
    var events := speak(n, command.text + "\n");
    var data := Ready(events);
    if command.Write? then events == []
    else AllData(events) && data != [] && FirstLf(data) == |data| - 1 && |data| <= limit && Decode(data).Success?
  }

  lemma DrainedMeansEmpty(incoming: seq<Event>)
    requires AllData(incoming) && Ready(incoming) == []
    ensures incoming == []
  {
  }

  lemma RecvKeepsData(incoming: seq<Event>, n: nat)
    requires n > 0 && AllData(incoming)
    ensures AllData(Recv(incoming, n).1)
  {
  }

  lemma {:induction false} ReadKeepsData(buffer: seq<byte>, incoming: seq<Event>, limit: nat)
    requires AllData(incoming)
    ensures AllData(ReadLoop(buffer, incoming, limit).incoming)
    decreases limit - |buffer|
  {
    if FirstLf(buffer) == |buffer| && |buffer| < limit {
      var n := Least(4096, limit - |buffer|);
      RecvKeepsData(incoming, n);
      var (event, rest) := Recv(incoming, n);
      if event.Chunk? && event.data != [] {
        ReadKeepsData(buffer + event.data, rest, limit);
      }
    }
  }

  /** One line on an otherwise empty stream is read whole, whatever its pieces, and leaves nothing behind. */
  lemma LineIsReadWhole(events: seq<Event>, limit: nat)
    requires AllData(events) && Ready(events) != [] && FirstLf(Ready(events)) == |Ready(events)| - 1
    requires |Ready(events)| <= limit
    ensures ReadLoop([], events, limit) == Reading(Success(Ready(events)), [], [])
  {
    assert [] + Ready(events) == Ready(events);
    ReadIsDetermined([], events, limit);
    ReadKeepsData([], events, limit);
    NothingLeft(Ready(events), Obstacle(events), limit, ReadLoop([], events, limit));
  }

  lemma NothingLeft(data: seq<byte>, obstacle: Event, limit: nat, r: Reading)
    requires Determined(data, obstacle, limit, r) && AllData(r.incoming)
    requires data != [] && FirstLf(data) == |data| - 1 && |data| <= limit
    ensures r == Reading(Success(data), [], [])
  {
    assert data[..|data|] == data && data[|data|..] == [];
    assert r.buffer + Ready(r.incoming) == [];
    DrainedMeansEmpty(r.incoming);
  }

  /** The value of the command sent after n others: its own reply, decoded, or nothing for a write. */
  function ValueFor(speak: Instrument, n: nat, command: Command): Option<string> {
    var decoded := Decode(ReplyTo(speak, n, command));
    if command.Write? || decoded.Failure? then None else Some(decoded.value)
  }

  /** One command on a clean stream. */
  lemma ExchangeOnCleanStream(speak: Instrument, limit: nat, n: nat, command: Command)
    requires RepliesWell(speak, limit, n, command)
    ensures Exchange(SocketDevice(speak, limit), Stream([], [], n), command)
         == (Stream([], [], n + 1), Success(ValueFor(speak, n, command)))
  {
    var events := speak(n, command.text + "\n");
    assert [] + events == events;
    if command.Query? {
      LineIsReadWhole(events, limit);
    }
  }

  /** A query whose reply never begins fails with a timeout, one whose reply stops at an obstacle before its LF
      with what that obstacle stands for; a reply beyond the limit is a protocol error. */
  lemma UnansweredQuery(speak: Instrument, limit: nat, n: nat, command: Command)
    requires command.Query? && limit > 0 && FirstLf(ReplyTo(speak, n, command)) == |ReplyTo(speak, n, command)|
    ensures
      var (after, result) := Exchange(SocketDevice(speak, limit), Stream([], [], n), command);
      var events := speak(n, command.text + "\n");
      && result.Failure? && result.error.Known? && after.sent == n + 1
      && result.error.cls == (if |ReplyTo(speak, n, command)| >= limit then "SPD3000ProtocolError"
                              else if Obstacle(events).Stall? then "SPD3000TimeoutError"
                              else "SPD3000ConnectionError")
  {
    var events := speak(n, command.text + "\n");
    assert [] + events == events;
    UnansweredRead(events, limit, ReadLoop([], events, limit).result);
  }

  lemma UnansweredRead(events: seq<Event>, limit: nat, result: Result<seq<byte>, ReadFailure>)
    requires FirstLf(Ready(events)) == |Ready(events)| && result == ReadLoop([], events, limit).result
    ensures result.Failure? && FaultOf(result.error).Known?
    ensures FaultOf(result.error).cls == (if |Ready(events)| >= limit then "SPD3000ProtocolError"
                                          else if Obstacle(events).Stall? then "SPD3000TimeoutError"
                                          else "SPD3000ConnectionError")
  {
    assert [] + Ready(events) == Ready(events);
    ReadIsDetermined([], events, limit);
  }

  /** The i-th command takes the i-th state to the next one and yields the i-th value. */
  ghost predicate Steps<S>(dev: Device<S>, commands: seq<Command>, states: seq<S>, values: seq<Option<string>>) {
    && |states| == |commands| + 1 && |values| == |commands|
    && forall i :: 0 <= i < |commands| ==> Exchange(dev, states[i], commands[i]) == (states[i + 1], Success(values[i]))
  }

  /** A run goes through all the states and collects all the values. */
  lemma {:induction false} RunThroughStates<S>(dev: Device<S>, commands: seq<Command>, states: seq<S>,
                                               values: seq<Option<string>>)
    requires Steps(dev, commands, states, values)
    ensures RunCommands(dev, states[0], commands) == Run(states[|commands|], values, None)
  {
    if commands != [] {
      var k := |commands| - 1;
      RunThroughStates(dev, commands[..k], states[..k + 1], values[..k]);
      assert values[..k] + [values[k]] == values;
    }
  }

  /** The values of all the commands, the first of them sent after n others. */
  function ValuesFor(speak: Instrument, n: nat, commands: seq<Command>): seq<Option<string>> {
    seq(|commands|, i requires 0 <= i < |commands| => ValueFor(speak, n + i, commands[i]))
  }

  /** For every batch and every way the replies are cut into pieces: no command faults, the value of each
      query is the decoded reply to that very query, that of each write is nothing, and the stream is left
      clean for the next batch. */
  lemma RepliesMeetTheirQueries(speak: Instrument, limit: nat, n: nat, commands: seq<Command>)
    requires WellBehaved(speak, limit, n, commands)
    ensures RunCommands(SocketDevice(speak, limit), Stream([], [], n), commands)
         == Run(Stream([], [], n + |commands|), ValuesFor(speak, n, commands), None)
  {
    StepsOfBatch(speak, limit, n, commands);
    RunOnCleanStream(SocketDevice(speak, limit), n, commands, ValuesFor(speak, n, commands));
  }

  lemma RunOnCleanStream(dev: Device<Stream>, n: nat, commands: seq<Command>, values: seq<Option<string>>)
    requires Steps(dev, commands, CleanStreams(n, |commands|), values)
    ensures RunCommands(dev, Stream([], [], n), commands) == Run(Stream([], [], n + |commands|), values, None)
  {
    RunThroughStates(dev, commands, CleanStreams(n, |commands|), values);
  }

  /** The stream after n lines, n + 1 lines and so on, nothing being left on it. */
  function CleanStreams(n: nat, count: nat): seq<Stream> {
    seq(count + 1, i requires 0 <= i <= count => Stream([], [], n + i))
  }

  lemma StepsOfBatch(speak: Instrument, limit: nat, n: nat, commands: seq<Command>)
    requires WellBehaved(speak, limit, n, commands)
    ensures Steps(SocketDevice(speak, limit), commands, CleanStreams(n, |commands|), ValuesFor(speak, n, commands))
  {
    forall i | 0 <= i < |commands|
      ensures Exchange(SocketDevice(speak, limit), CleanStreams(n, |commands|)[i], commands[i])
           == (CleanStreams(n, |commands|)[i + 1], Success(ValuesFor(speak, n, commands)[i]))
    {
      ExchangeInBatch(speak, limit, n, commands, i);
    }
  }

  lemma ExchangeInBatch(speak: Instrument, limit: nat, n: nat, commands: seq<Command>, i: nat)
    requires WellBehaved(speak, limit, n, commands) && i < |commands|
    ensures Exchange(SocketDevice(speak, limit), Stream([], [], n + i), commands[i])
         == (Stream([], [], n + i + 1), Success(ValuesFor(speak, n, commands)[i]))
  {
    assert RepliesWell(speak, limit, n + i, commands[i]);
    ExchangeOnCleanStream(speak, limit, n + i, commands[i]);
  }

}
