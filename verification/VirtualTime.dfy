/** What a direct connection puts on the wire, and when, as a function of the device and the clock
    (execution.py, DirectExecutor). */
module VirtualTime {

  import opened Wrappers
  import opened Errors
  import opened Commands
  import opened Devices

  /** What happened on the wire and when. gap is the command interval in force. */
  datatype Event =
    | Sent(line: string, start: int, end: int, accepted: bool, gap: nat)
    | Polled(start: int, gap: nat)

  function Later(a: int, b: int): int {
    if a < b then b else a
  }

  /** From the end of any write attempt, accepted or refused, to the start of any later one there is at
      least the larger of the two intervals they were made under. */
  ghost predicate WritesSpaced(trace: seq<Event>) {
    forall i, j :: 0 <= i < j < |trace| && trace[i].Sent? && trace[j].Sent? ==>
      trace[j].start >= trace[i].end + Later(trace[i].gap, trace[j].gap)
  }

  /** From the end of any accepted write to the start of any later attempt there is at least the interval
      the later one was made under. */
  ghost predicate AcceptedSpaced(trace: seq<Event>) {
    forall i, j :: 0 <= i < j < |trace| && trace[i].Sent? && trace[i].accepted && trace[j].Sent? ==>
      trace[j].start >= trace[i].end + trace[j].gap
  }

  /** Every read follows the accepted write of its query, and starts at least the interval after it ended. */
  ghost predicate ReadsSpaced(trace: seq<Event>) {
    forall k :: 0 <= k < |trace| && trace[k].Polled? ==>
      k > 0 && trace[k - 1].Sent? && trace[k - 1].accepted && trace[k].start >= trace[k - 1].end + trace[k].gap
  }

  // ----- the executor on a clock -----

  /** How much time passes, beyond what was asked for, at the n-th use of the clock. */
  type Drift = nat -> nat

  /** The instrument, the clock and how often it was used, the executor's write time, the wire so far. */
  datatype Timed<S> = Timed(world: S, now: int, uses: nat, lastWriteAt: Option<int>, trace: seq<Event>)

  function Passed<S>(drift: Drift, t: Timed<S>): Timed<S> {
    t.(now := t.now + drift(t.uses), uses := t.uses + 1)
  }

  function Slept<S>(drift: Drift, t: Timed<S>, duration: int): Timed<S> {
    t.(now := t.now + drift(t.uses) + Later(0, duration), uses := t.uses + 1)
  }

  /** The wait before a write. */
  function Waited<S>(drift: Drift, interval: nat, t: Timed<S>): Timed<S> {
    if t.lastWriteAt.None? then t
    else
      var asked := Passed(drift, t);
      var remaining := interval - (asked.now - t.lastWriteAt.value);
      if remaining > 0 then Slept(drift, asked, remaining) else asked
  }

  function Written<S>(dev: Device<S>, drift: Drift, interval: nat, t: Timed<S>, line: string): (Timed<S>, Option<Fault>) {
    var (world, refused) := dev.write(t.world, line);
    var after := Passed(drift, t);
    (after.(world := world, trace := t.trace + [Sent(line, t.now, after.now, refused.None?, interval)]), refused)
  }

  function Stamped<S>(drift: Drift, t: Timed<S>): Timed<S> {
    var read := Passed(drift, t);
    read.(lastWriteAt := Some(read.now))
  }

  function Polling<S>(dev: Device<S>, drift: Drift, interval: nat, t: Timed<S>): (Timed<S>, Received) {
    var (world, received) := dev.read(t.world);
    (Passed(drift, t).(world := world, trace := t.trace + [Polled(t.now, interval)]), received)
  }

  /** One command. */
  function Exchanged<S>(dev: Device<S>, drift: Drift, interval: nat, t: Timed<S>, command: Command)
    : (Timed<S>, Result<Option<string>, Fault>)
  {
    var (written, refused) := Written(dev, drift, interval, Waited(drift, interval, t), command.text + "\n");
    if refused.Some? then (written, Failure(refused.value))
    else
      var stamped := Stamped(drift, written);
      if command.Write? then (stamped, Success(None))
      else
        var (polled, received) := Polling(dev, drift, interval, Slept(drift, stamped, interval));
        match received
        case NotReceived(fault) => (polled, Failure(fault))
        case Bytes(data) =>
          var decoded := Decode(data);
          (polled, if decoded.Success? then Success(Some(decoded.value)) else Failure(decoded.error))
  }

  datatype TimedRun<S> = TimedRun(time: Timed<S>, values: seq<Option<string>>, fault: Option<Fault>)

  /** A batch. */
  function TimedCommands<S>(dev: Device<S>, drift: Drift, interval: nat, t: Timed<S>, commands: seq<Command>): (r: TimedRun<S>)
    ensures r.fault.None? ==> |r.values| == |commands|
    ensures r.fault.Some? ==> |r.values| < |commands|
  {
    if commands == [] then TimedRun(t, [], None)
    else
      var earlier := TimedCommands(dev, drift, interval, t, commands[..|commands| - 1]);
      if earlier.fault.Some? then earlier
      else
        var (time, result) := Exchanged(dev, drift, interval, earlier.time, commands[|commands| - 1]);
        match result
        case Failure(fault) => TimedRun(time, earlier.values, Some(fault))
        case Success(value) => TimedRun(time, earlier.values + [value], None)
  }

  function Untimed<S>(run: TimedRun<S>): Run<S> {
    Run(run.time.world, run.values, run.fault)
  }

  /** One batch after the other on the same connection. */
  function TimedBatches<S>(dev: Device<S>, drift: Drift, interval: nat, t: Timed<S>, batches: seq<seq<Command>>): Timed<S> {
    if batches == [] then t
    else
      TimedCommands(dev, drift, interval,
                    TimedBatches(dev, drift, interval, t, batches[..|batches| - 1]), batches[|batches| - 1]).time
  }

  /** A new connection. */
  function Fresh<S>(world: S, now: int): Timed<S> {
    Timed(world, now, 0, None, [])
  }

  /** The clock does not change what a batch does. */
  lemma {:induction false} TimeDoesNotMatter<S>(dev: Device<S>, drift: Drift, interval: nat, t: Timed<S>, commands: seq<Command>)
    ensures
      var run := TimedCommands(dev, drift, interval, t, commands);
      RunCommands(dev, t.world, commands) == Untimed(run)
  {
    if commands != [] {
      var earlier := TimedCommands(dev, drift, interval, t, commands[..|commands| - 1]);
      TimeDoesNotMatter(dev, drift, interval, t, commands[..|commands| - 1]);
      ExchangeIsTimeless(dev, drift, interval, earlier.time, commands[|commands| - 1]);
    }
  }

  lemma ExchangeIsTimeless<S>(dev: Device<S>, drift: Drift, interval: nat, t: Timed<S>, command: Command)
    ensures
      var (after, result) := Exchanged(dev, drift, interval, t, command);
      Exchange(dev, t.world, command) == (after.world, result)
  {
  }

  /** One more command of a batch. */
  lemma TimedGoesOn<S>(dev: Device<S>, drift: Drift, interval: nat, t: Timed<S>, commands: seq<Command>, i: nat,
                       before: Timed<S>, values: seq<Option<string>>)
    requires i < |commands| && TimedCommands(dev, drift, interval, t, commands[..i]) == TimedRun(before, values, None)
    ensures
      var (time, result) := Exchanged(dev, drift, interval, before, commands[i]);
      TimedCommands(dev, drift, interval, t, commands[..i + 1])
      == if result.Success? then TimedRun(time, values + [result.value], None) else TimedRun(time, values, Some(result.error))
  {
    assert commands[..i + 1][..i] == commands[..i];
  }

  /** What comes after a fault is never run. */
  lemma {:induction false} TimedEndsAtFault<S>(dev: Device<S>, drift: Drift, interval: nat, t: Timed<S>,
                                               commands: seq<Command>, k: nat)
    requires k <= |commands| && TimedCommands(dev, drift, interval, t, commands[..k]).fault.Some?
    ensures TimedCommands(dev, drift, interval, t, commands) == TimedCommands(dev, drift, interval, t, commands[..k])
    decreases |commands|
  {
    if k == |commands| {
      assert commands[..k] == commands;
    } else {
      assert commands[..|commands| - 1][..k] == commands[..k];
      TimedEndsAtFault(dev, drift, interval, t, commands[..|commands| - 1], k);
    }
  }

  /** A command that faults ends the batch. */
  lemma TimedFails<S>(dev: Device<S>, drift: Drift, interval: nat, t: Timed<S>, commands: seq<Command>, i: nat,
                      before: Timed<S>, values: seq<Option<string>>)
    requires i < |commands| && TimedCommands(dev, drift, interval, t, commands[..i]) == TimedRun(before, values, None)
    requires Exchanged(dev, drift, interval, before, commands[i]).1.Failure?
    ensures
      var (time, result) := Exchanged(dev, drift, interval, before, commands[i]);
      TimedCommands(dev, drift, interval, t, commands) == TimedRun(time, values, Some(result.error))
  {
    TimedGoesOn(dev, drift, interval, t, commands, i, before, values);
    TimedEndsAtFault(dev, drift, interval, t, commands, i + 1);
  }

  // ----- what every clock keeps -----

  /** Nothing on the wire is ahead of the clock, and no accepted write is ahead of the write time; accepted
      writes keep every later attempt at its interval. */
  ghost predicate TimeValid<S>(t: Timed<S>) {
    && (t.lastWriteAt.Some? ==> t.lastWriteAt.value <= t.now)
    && (forall i :: 0 <= i < |t.trace| && t.trace[i].Sent? ==> t.trace[i].end <= t.now)
    && (forall i :: 0 <= i < |t.trace| && t.trace[i].Sent? && t.trace[i].accepted ==>
          t.lastWriteAt.Some? && t.trace[i].end <= t.lastWriteAt.value)
    && AcceptedSpaced(t.trace) && InOrder(t.trace)
  }

  /** No attempt starts before an earlier one has ended. */
  ghost predicate InOrder(trace: seq<Event>) {
    forall i, j :: 0 <= i < j < |trace| && trace[i].Sent? && trace[j].Sent? ==> trace[i].end <= trace[j].start
  }

  lemma WaitedKeepsTime<S>(drift: Drift, interval: nat, t: Timed<S>)
    requires TimeValid(t)
    ensures
      var w := Waited(drift, interval, t);
      && TimeValid(w) && w == t.(now := w.now, uses := w.uses) && w.now >= t.now
      && (t.lastWriteAt.Some? ==> w.now >= t.lastWriteAt.value + interval)
  {
  }

  /** An attempt that starts the interval after the write time, and what it does to the write time. */
  lemma AttemptKeepsTime<S>(before: Timed<S>, after: Timed<S>, e: Event)
    requires TimeValid(before) && e.Sent? && after.trace == before.trace + [e]
    requires before.lastWriteAt.Some? ==> e.start >= before.lastWriteAt.value + e.gap
    requires before.now <= e.start <= e.end <= after.now
    requires if e.accepted then after.lastWriteAt.Some? && e.end <= after.lastWriteAt.value <= after.now
             else after.lastWriteAt == before.lastWriteAt
    requires before.lastWriteAt.Some? ==> after.lastWriteAt.Some? && before.lastWriteAt.value <= after.lastWriteAt.value
    ensures TimeValid(after)
  {
    forall i, j | 0 <= i < j < |after.trace| && after.trace[i].Sent? && after.trace[i].accepted && after.trace[j].Sent?
      ensures after.trace[j].start >= after.trace[i].end + after.trace[j].gap
    {
      assert before.trace[i] == after.trace[i];
    }
  }

  lemma PollKeepsTime<S>(before: Timed<S>, after: Timed<S>, e: Event)
    requires TimeValid(before) && e.Polled? && after.trace == before.trace + [e]
    requires before.now <= after.now && after.lastWriteAt == before.lastWriteAt
    ensures TimeValid(after)
  {
  }

  lemma ExchangeKeepsTime<S>(dev: Device<S>, drift: Drift, interval: nat, t: Timed<S>, command: Command)
    requires TimeValid(t)
    ensures TimeValid(Exchanged(dev, drift, interval, t, command).0)
  {
    var waited := Waited(drift, interval, t);
    WaitedKeepsTime(drift, interval, t);
    var (written, refused) := Written(dev, drift, interval, waited, command.text + "\n");
    var e := written.trace[|t.trace|];
    if refused.Some? {
      AttemptKeepsTime(waited, written, e);
    } else {
      var stamped := Stamped(drift, written);
      AttemptKeepsTime(waited, stamped, e);
      if command.Query? {
        var slept := Slept(drift, stamped, interval);
        var polled := Polling(dev, drift, interval, slept).0;
        PollKeepsTime(slept, polled, Polled(slept.now, interval));
      }
    }
  }

  lemma {:induction false} BatchKeepsTime<S>(dev: Device<S>, drift: Drift, interval: nat, t: Timed<S>, commands: seq<Command>)
    requires TimeValid(t)
    ensures TimeValid(TimedCommands(dev, drift, interval, t, commands).time)
  {
    if commands != [] {
      var earlier := TimedCommands(dev, drift, interval, t, commands[..|commands| - 1]);
      BatchKeepsTime(dev, drift, interval, t, commands[..|commands| - 1]);
      if earlier.fault.None? {
        ExchangeKeepsTime(dev, drift, interval, earlier.time, commands[|commands| - 1]);
      }
    }
  }

  /** Over any batches on one connection, under every clock and with every fault: from the end of an
      accepted write to the start of any later attempt there is at least the interval. */
  lemma {:induction false} AcceptedWritesKeepDistance<S>(dev: Device<S>, drift: Drift, interval: nat, world: S, now: int,
                                                         batches: seq<seq<Command>>)
    ensures
      var t := TimedBatches(dev, drift, interval, Fresh(world, now), batches);
      TimeValid(t) && AcceptedSpaced(t.trace)
  {
    if batches != [] {
      AcceptedWritesKeepDistance(dev, drift, interval, world, now, batches[..|batches| - 1]);
      BatchKeepsTime(dev, drift, interval,
                     TimedBatches(dev, drift, interval, Fresh(world, now), batches[..|batches| - 1]), batches[|batches| - 1]);
    }
  }

  // ----- the shape of the wire does not depend on the clock -----

  datatype Mark = Accepted | Refused | Read

  function MarkOf(e: Event): Mark {
    match e
    case Sent(_, _, _, accepted, _) => if accepted then Accepted else Refused
    case Polled(_, _) => Read
  }

  function Shape(trace: seq<Event>): seq<Mark> {
    seq(|trace|, i requires 0 <= i < |trace| => MarkOf(trace[i]))
  }

  /** What one command leaves on the wire. */
  function MarksOf<S>(dev: Device<S>, s: S, command: Command): seq<Mark> {
    if dev.write(s, command.text + "\n").1.Some? then [Refused]
    else if command.Write? then [Accepted] else [Accepted, Read]
  }

  function BatchMarks<S>(dev: Device<S>, s: S, commands: seq<Command>): seq<Mark> {
    if commands == [] then []
    else
      var prefix, last := commands[..|commands| - 1], commands[|commands| - 1];
      var earlier := RunCommands(dev, s, prefix);
      BatchMarks(dev, s, prefix) + (if earlier.fault.Some? then [] else MarksOf(dev, earlier.world, last))
  }

  /** What batches run one after the other leave on the wire, and the state they lead to. */
  function AllMarks<S>(dev: Device<S>, s: S, batches: seq<seq<Command>>): (S, seq<Mark>) {
    if batches == [] then (s, [])
    else
      var (before, marks) := AllMarks(dev, s, batches[..|batches| - 1]);
      var batch := batches[|batches| - 1];
      (RunCommands(dev, before, batch).world, marks + BatchMarks(dev, before, batch))
  }

  lemma ExchangeMarks<S>(dev: Device<S>, drift: Drift, interval: nat, t: Timed<S>, command: Command)
    ensures Shape(Exchanged(dev, drift, interval, t, command).0.trace)
         == Shape(t.trace) + MarksOf(dev, t.world, command)
  {
  }

  lemma {:induction false} BatchHasMarks<S>(dev: Device<S>, drift: Drift, interval: nat, t: Timed<S>, commands: seq<Command>)
    ensures Shape(TimedCommands(dev, drift, interval, t, commands).time.trace)
         == Shape(t.trace) + BatchMarks(dev, t.world, commands)
  {
    if commands != [] {
      var prefix := commands[..|commands| - 1];
      var earlier := TimedCommands(dev, drift, interval, t, prefix);
      BatchHasMarks(dev, drift, interval, t, prefix);
      TimeDoesNotMatter(dev, drift, interval, t, prefix);
      ExchangeMarks(dev, drift, interval, earlier.time, commands[|commands| - 1]);
    }
  }

  lemma {:induction false} ShapeIsTimeless<S>(dev: Device<S>, drift: Drift, interval: nat, s: S, now: int, batches: seq<seq<Command>>)
    ensures
      var t := TimedBatches(dev, drift, interval, Fresh(s, now), batches);
      (t.world, Shape(t.trace)) == AllMarks(dev, s, batches)
  {
    if batches != [] {
      var prefix, batch := batches[..|batches| - 1], batches[|batches| - 1];
      var before := TimedBatches(dev, drift, interval, Fresh(s, now), prefix);
      ShapeIsTimeless(dev, drift, interval, s, now, prefix);
      TimeDoesNotMatter(dev, drift, interval, before, batch);
      BatchHasMarks(dev, drift, interval, before, batch);
    } else {
      assert Shape([]) == [];
    }
  }

  // ----- refused writes -----

  /** A refused attempt with another one after it. */
  predicate RefusalFollowed(marks: seq<Mark>) {
    exists k :: 0 <= k < |marks| - 1 && marks[k] == Refused
  }

  ghost predicate GapsAre(trace: seq<Event>, interval: nat) {
    forall k :: 0 <= k < |trace| ==> trace[k].gap == interval
  }

  lemma ExchangeGaps<S>(dev: Device<S>, drift: Drift, interval: nat, t: Timed<S>, command: Command)
    requires GapsAre(t.trace, interval)
    ensures GapsAre(Exchanged(dev, drift, interval, t, command).0.trace, interval)
  {
  }

  lemma {:induction false} BatchGaps<S>(dev: Device<S>, drift: Drift, interval: nat, t: Timed<S>, commands: seq<Command>)
    requires GapsAre(t.trace, interval)
    ensures GapsAre(TimedCommands(dev, drift, interval, t, commands).time.trace, interval)
  {
    if commands != [] {
      var prefix := commands[..|commands| - 1];
      BatchGaps(dev, drift, interval, t, prefix);
      ExchangeGaps(dev, drift, interval, TimedCommands(dev, drift, interval, t, prefix).time, commands[|commands| - 1]);
    }
  }

  lemma {:induction false} AllGaps<S>(dev: Device<S>, drift: Drift, interval: nat, s: S, now: int, batches: seq<seq<Command>>)
    ensures GapsAre(TimedBatches(dev, drift, interval, Fresh(s, now), batches).trace, interval)
  {
    if batches != [] {
      var prefix := batches[..|batches| - 1];
      AllGaps(dev, drift, interval, s, now, prefix);
      BatchGaps(dev, drift, interval, TimedBatches(dev, drift, interval, Fresh(s, now), prefix), batches[|batches| - 1]);
    }
  }

  /** Under any clock, a wire on which no refused attempt is followed by another is spaced. */
  lemma SpacedUnlessRefused<S>(dev: Device<S>, drift: Drift, interval: nat, s: S, now: int, batches: seq<seq<Command>>)
    requires interval == 0 || !RefusalFollowed(AllMarks(dev, s, batches).1)
    ensures WritesSpaced(TimedBatches(dev, drift, interval, Fresh(s, now), batches).trace)
  {
    AcceptedWritesKeepDistance(dev, drift, interval, s, now, batches);
    AllGaps(dev, drift, interval, s, now, batches);
    ShapeIsTimeless(dev, drift, interval, s, now, batches);
    var trace := TimedBatches(dev, drift, interval, Fresh(s, now), batches).trace;
    var marks := AllMarks(dev, s, batches).1;
    forall i, j | 0 <= i < j < |trace| && trace[i].Sent? && trace[j].Sent?
      ensures trace[j].start >= trace[i].end + Later(trace[i].gap, trace[j].gap)
    {
      assert marks[i] == MarkOf(trace[i]);
    }
  }

  // ----- on a clock that never runs over -----

  function NoDrift(): Drift {
    n => 0
  }

  /** After a refused attempt nothing has moved on, and the write time is long enough ago not to hold the
      next attempt up; whatever has followed a refused attempt has followed it at once. */
  ghost predicate AtOnce<S>(t: Timed<S>, interval: nat) {
    && (forall k :: 0 <= k < |t.trace| - 1 && MarkOf(t.trace[k]) == Refused ==>
          FollowsAtOnce(t.trace[k], t.trace[k + 1]))
    && (t.trace != [] && MarkOf(t.trace[|t.trace| - 1]) == Refused ==>
          && t.now == t.trace[|t.trace| - 1].end
          && (t.lastWriteAt.Some? ==> t.now >= t.lastWriteAt.value + interval))
  }

  predicate FollowsAtOnce(e: Event, next: Event) {
    e.Sent? && next.Sent? && next.start == e.end
  }

  lemma OneMoreAtOnce<S>(before: Timed<S>, after: Timed<S>, e: Event, interval: nat)
    requires AtOnce(before, interval) && after.trace == before.trace + [e]
    requires before.trace != [] && MarkOf(before.trace[|before.trace| - 1]) == Refused ==>
      FollowsAtOnce(before.trace[|before.trace| - 1], e)
    requires MarkOf(e) == Refused ==>
      after.now == e.end && (after.lastWriteAt.Some? ==> after.now >= after.lastWriteAt.value + interval)
    ensures AtOnce(after, interval)
  {
    var n := |before.trace|;
    forall k | 0 <= k < |after.trace| - 1 && MarkOf(after.trace[k]) == Refused
      ensures FollowsAtOnce(after.trace[k], after.trace[k + 1])
    {
      assert after.trace[k] == before.trace[k];
      if k < n - 1 {
        assert after.trace[k + 1] == before.trace[k + 1];
      }
    }
  }

  lemma WaitsNoLonger<S>(interval: nat, t: Timed<S>)
    requires t.lastWriteAt.Some? ==> t.now >= t.lastWriteAt.value + interval
    ensures Waited(NoDrift(), interval, t).now == t.now
  {
  }

  lemma ExchangeAtOnce<S>(dev: Device<S>, interval: nat, t: Timed<S>, command: Command)
    requires TimeValid(t) && AtOnce(t, interval)
    ensures AtOnce(Exchanged(dev, NoDrift(), interval, t, command).0, interval)
  {
    var drift := NoDrift();
    var waited := Waited(drift, interval, t);
    WaitedKeepsTime(drift, interval, t);
    if t.trace != [] && MarkOf(t.trace[|t.trace| - 1]) == Refused {
      WaitsNoLonger(interval, t);
    }
    var (written, refused) := Written(dev, drift, interval, waited, command.text + "\n");
    var e := written.trace[|t.trace|];
    OneMoreAtOnce(t, written, e, interval);
    if refused.None? && command.Query? {
      var slept := Slept(drift, Stamped(drift, written), interval);
      OneMoreAtOnce(written, Polling(dev, drift, interval, slept).0, Polled(slept.now, interval), interval);
    }
  }

  lemma {:induction false} BatchAtOnce<S>(dev: Device<S>, interval: nat, t: Timed<S>, commands: seq<Command>)
    requires TimeValid(t) && AtOnce(t, interval)
    ensures AtOnce(TimedCommands(dev, NoDrift(), interval, t, commands).time, interval)
  {
    if commands != [] {
      var prefix := commands[..|commands| - 1];
      var earlier := TimedCommands(dev, NoDrift(), interval, t, prefix);
      BatchAtOnce(dev, interval, t, prefix);
      BatchKeepsTime(dev, NoDrift(), interval, t, prefix);
      if earlier.fault.None? {
        ExchangeAtOnce(dev, interval, earlier.time, commands[|commands| - 1]);
      }
    }
  }

  lemma {:induction false} AllAtOnce<S>(dev: Device<S>, interval: nat, s: S, now: int, batches: seq<seq<Command>>)
    ensures AtOnce(TimedBatches(dev, NoDrift(), interval, Fresh(s, now), batches), interval)
  {
    if batches != [] {
      var prefix := batches[..|batches| - 1];
      AllAtOnce(dev, interval, s, now, prefix);
      AcceptedWritesKeepDistance(dev, NoDrift(), interval, s, now, prefix);
      BatchAtOnce(dev, interval, TimedBatches(dev, NoDrift(), interval, Fresh(s, now), prefix), batches[|batches| - 1]);
    }
  }

  /** On that clock an attempt after a refused one starts too early. */
  lemma RefusalBreaksSpacing<S>(dev: Device<S>, interval: nat, s: S, now: int, batches: seq<seq<Command>>)
    requires interval > 0 && RefusalFollowed(AllMarks(dev, s, batches).1)
    ensures !WritesSpaced(TimedBatches(dev, NoDrift(), interval, Fresh(s, now), batches).trace)
  {
    AllAtOnce(dev, interval, s, now, batches);
    AllGaps(dev, NoDrift(), interval, s, now, batches);
    ShapeIsTimeless(dev, NoDrift(), interval, s, now, batches);
    var trace := TimedBatches(dev, NoDrift(), interval, Fresh(s, now), batches).trace;
    var marks := AllMarks(dev, s, batches).1;
    var k :| 0 <= k < |marks| - 1 && marks[k] == Refused;
    assert marks[k] == MarkOf(trace[k]);
    assert FollowsAtOnce(trace[k], trace[k + 1]);
    assert trace[k + 1].start < trace[k].end + Later(trace[k].gap, trace[k + 1].gap);
  }

  /** On a direct connection the write attempts, accepted or refused, are the interval apart under every
      clock exactly when no refused attempt is followed by another one. */
  lemma DirectConnectionIsSpaced<S>(dev: Device<S>, interval: nat, s: S, now: int, batches: seq<seq<Command>>)
    ensures (forall drift: Drift :: WritesSpaced(TimedBatches(dev, drift, interval, Fresh(s, now), batches).trace))
      <==> interval == 0 || !RefusalFollowed(AllMarks(dev, s, batches).1)
  {
    if interval == 0 || !RefusalFollowed(AllMarks(dev, s, batches).1) {
      forall drift: Drift
        ensures WritesSpaced(TimedBatches(dev, drift, interval, Fresh(s, now), batches).trace)
      {
        SpacedUnlessRefused(dev, drift, interval, s, now, batches);
      }
    } else {
      RefusalBreaksSpacing(dev, interval, s, now, batches);
      var drift := NoDrift();
      assert !WritesSpaced(TimedBatches(dev, drift, interval, Fresh(s, now), batches).trace);
    }
  }

  /** An instrument that refuses its first write. */
  function RefusesFirstWrite(): Device<nat> {
    Device((s, line) => (s + 1, if s == 0 then Some(OsFailure("busy")) else None), s => (s, Bytes([])))
  }

  /** Two batches of one write each, an interval of 100 ticks and an exact clock: the second attempt starts
      when the first has just been refused. */
  lemma SecondAttemptIsTooEarly()
    ensures
      var trace := TimedBatches(RefusesFirstWrite(), NoDrift(), 100, Fresh(0, 0), [[Write("A")], [Write("B")]]).trace;
      && trace == [Sent("A\n", 0, 0, false, 100), Sent("B\n", 0, 0, true, 100)]
      && !WritesSpaced(trace)
  {
    var dev, drift, start := RefusesFirstWrite(), NoDrift(), Fresh(0, 0);
    var batches := [[Write("A")], [Write("B")]];
    assert batches[..1] == [[Write("A")]] && batches[..1][..0] == [];
    assert "A" + "\n" == "A\n" && "B" + "\n" == "B\n";
    var first := Timed(1, 0, 1, None, [Sent("A\n", 0, 0, false, 100)]);
    assert Exchanged(dev, drift, 100, start, Write("A")).0 == first;
    SingleCommand(dev, drift, 100, start, Write("A"));
    assert TimedBatches(dev, drift, 100, start, []) == start;
    assert TimedBatches(dev, drift, 100, start, batches[..1]) == first;
    assert Exchanged(dev, drift, 100, first, Write("B")).0.trace == first.trace + [Sent("B\n", 0, 0, true, 100)];
    SingleCommand(dev, drift, 100, first, Write("B"));
    var trace := TimedBatches(dev, drift, 100, start, batches).trace;
    assert trace == [Sent("A\n", 0, 0, false, 100), Sent("B\n", 0, 0, true, 100)];
    assert trace[1].start < trace[0].end + Later(trace[0].gap, trace[1].gap);
  }

  lemma SingleCommand<S>(dev: Device<S>, drift: Drift, interval: nat, t: Timed<S>, command: Command)
    ensures TimedCommands(dev, drift, interval, t, [command]).time == Exchanged(dev, drift, interval, t, command).0
  {
    assert [command][..0] == [];
    assert TimedCommands(dev, drift, interval, t, []) == TimedRun(t, [], None);
  }

}
