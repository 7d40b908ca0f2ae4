/** A transport with the instrument behind it, and what one batch does to it (execution.py). */
module Devices {

  import opened Wrappers
  import opened Errors
  import opened Commands

  newtype byte = b: int | 0 <= b < 256

  /** What a transport call can raise. Other is any exception the executor does not translate. */
  datatype Fault =
    | Known(cls: string, args: seq<Arg>)
    | OsTimeout(message: string)
    | OsFailure(message: string)
    | Other(cls: string, message: string)

  datatype Received = Bytes(data: seq<byte>) | NotReceived(fault: Fault)

  /** Any deterministic transport and instrument over states of type S. A write takes the line sent. */
  datatype Device<!S> = Device(write: (S, string) -> (S, Option<Fault>), read: S -> (S, Received))

  /** Strip trailing CR and LF characters. */
  function StripEnd(s: string): string {
    if s != [] && (s[|s| - 1] == '\r' || s[|s| - 1] == '\n') then StripEnd(s[..|s| - 1]) else s
  }

  function Decode(data: seq<byte>): Result<string, Fault> {
    if forall i :: 0 <= i < |data| ==> data[i] < 128 then
      Success(StripEnd(seq(|data|, i requires 0 <= i < |data| => data[i] as char)))
    else
      Failure(Known("SPD3000ProtocolError", [TextArg("Instrument response was not ASCII")]))
  }

  /** A reply is decoded if and only if it is ASCII, as its characters without the line ends behind them. */
  lemma DecodedText(data: seq<byte>)
    ensures Decode(data).Success? <==> forall i :: 0 <= i < |data| ==> data[i] as int <= 127
    ensures Decode(data).Success? ==>
      var text := Decode(data).value;
      && |text| <= |data|
      && (forall i :: 0 <= i < |text| ==> text[i] as int == data[i] as int)
      && (forall i :: |text| <= i < |data| ==> data[i] == 10 || data[i] == 13)
      && (text != [] ==> data[|text| - 1] != 10 && data[|text| - 1] != 13)
    ensures Decode(data).Failure? ==>
      Decode(data) == Failure(Known("SPD3000ProtocolError", [TextArg("Instrument response was not ASCII")]))
  {
    if Decode(data).Success? {
      var s := seq(|data|, i requires 0 <= i < |data| => data[i] as char);
      StrippedEnd(s);
      assert forall i :: 0 <= i < |data| ==> s[i] == data[i] as char;
    }
  }

  lemma {:induction false} StrippedEnd(s: string)
    ensures
      var text := StripEnd(s);
      && |text| <= |s| && text == s[..|text|]
      && (forall i :: |text| <= i < |s| ==> s[i] == '\n' || s[i] == '\r')
      && (text != [] ==> text[|text| - 1] != '\n' && text[|text| - 1] != '\r')
  {
    if s != [] && (s[|s| - 1] == '\r' || s[|s| - 1] == '\n') {
      StrippedEnd(s[..|s| - 1]);
    }
  }

  function Kind(command: Command): string {
    if command.Query? then "query" else "write"
  }

  /** The exception that leaves the executor for a fault at a command: translated and annotated. */
  function RaisedFor(fault: Fault, index: nat, command: Command): Error {
    var at := Position(Some(index), Some(Kind(command)), Some(command.text));
    match fault
    case Known(cls, args) => South(cls, args, at)
    case OsTimeout(message) => South("SPD3000TimeoutError", [TextArg(message)], at)
    case OsFailure(message) => South("SPD3000ConnectionError", [TextArg(message)], at)
    case Other(cls, message) => Foreign(cls, message)
  }

  /** One command on the wire: the new state and its value, or the fault that stopped it. */
  function Exchange<S>(dev: Device<S>, s: S, command: Command): (S, Result<Option<string>, Fault>) {
    var (s1, refused) := dev.write(s, command.text + "\n");
    match refused
    case Some(fault) => (s1, Failure(fault))
    case None =>
      if command.Write? then (s1, Success(None))
      else
        var (s2, received) := dev.read(s1);
        match received
        case NotReceived(fault) => (s2, Failure(fault))
        case Bytes(data) =>
          match Decode(data)
          case Success(text) => (s2, Success(Some(text)))
          case Failure(fault) => (s2, Failure(fault))
  }

  /** What running a list of commands leaves: the state, the values collected, the fault that ended it. */
  datatype Run<S> = Run(world: S, values: seq<Option<string>>, fault: Option<Fault>)

  function RunCommands<S>(dev: Device<S>, s: S, commands: seq<Command>): (r: Run<S>)
    ensures r.fault.None? ==> |r.values| == |commands|
    ensures r.fault.Some? ==> |r.values| < |commands|
    ensures forall i :: 0 <= i < |r.values| ==> r.values[i].Some? == commands[i].Query?
  {
    if commands == [] then Run(s, [], None)
    else
      var n := |commands| - 1;
      var earlier := RunCommands(dev, s, commands[..n]);
      if earlier.fault.Some? then earlier
      else
        var (world, result) := Exchange(dev, earlier.world, commands[n]);
        match result
        case Failure(fault) => Run(world, earlier.values, Some(fault))
        case Success(value) => Run(world, earlier.values + [value], None)
  }

  /** What an executor hands back for a batch. */
  datatype Outcome = Values(values: seq<Option<string>>) | Raised(error: Error)

  /** What a closed executor raises: an error without a position. */
  const EXECUTOR_CLOSED := SouthError("SPD3000ConnectionError", "Executor is closed")

  /** The outcome of a run: the failing command is the one after the values collected. */
  function OutcomeOf<S>(r: Run<S>, commands: seq<Command>): Outcome
    requires r.fault.Some? ==> |r.values| < |commands|
  {
    if r.fault.None? then Values(r.values)
    else Raised(RaisedFor(r.fault.value, |r.values|, commands[|r.values|]))
  }

  /** What a faulting run raises: the fault's own class with the position, kind and text of the command that
      faulted; what the executor does not know goes through without a position. */
  lemma FaultIsPlaced<S>(r: Run<S>, commands: seq<Command>)
    requires r.fault.Some? && |r.values| < |commands|
    ensures
      var n, fault := |r.values|, r.fault.value;
      var outcome := OutcomeOf(r, commands);
      if fault.Other? then outcome == Raised(Foreign(fault.cls, fault.message))
      else
        && outcome.Raised? && outcome.error.South?
        && outcome.error.at.index == Some(n) && outcome.error.at.command == Some(commands[n].text)
        && outcome.error.at.kind == Some(if commands[n].Write? then "write" else "query")
        && outcome.error.cls == (if fault.OsTimeout? then "SPD3000TimeoutError"
                                 else if fault.OsFailure? then "SPD3000ConnectionError" else fault.cls)
        && outcome.error.args == (if fault.Known? then fault.args else [TextArg(fault.message)])
  {
  }

  /** Running one list after another is running both together, up to the first fault. */
  lemma {:induction false} RunOfAppend<S>(dev: Device<S>, s: S, a: seq<Command>, b: seq<Command>)
    ensures
      var first := RunCommands(dev, s, a);
      var second := RunCommands(dev, first.world, b);
      RunCommands(dev, s, a + b) ==
      if first.fault.Some? then first else second.(values := first.values + second.values)
  {
    var first := RunCommands(dev, s, a);
    if b == [] {
      assert a + b == a;
      assert first.values + [] == first.values;
    } else {
      var n := |b| - 1;
      assert (a + b)[..|a + b| - 1] == a + b[..n];
      RunOfAppend(dev, s, a, b[..n]);
      var middle := RunCommands(dev, first.world, b[..n]);
      if first.fault.None? && middle.fault.None? {
        var (_, result) := Exchange(dev, middle.world, b[n]);
        if result.Success? {
          assert (first.values + middle.values) + [result.value] == first.values + (middle.values + [result.value]);
        }
      }
    }
  }

}
