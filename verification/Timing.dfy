/** The direct executor and the gateway's physical owner on a virtual clock (execution.py, gateway/server.py). */
module Timing {

  import opened Wrappers
  import opened Errors
  import opened Commands
  import opened Devices
  import opened VirtualTime

  /** Time only moves forward, by an arbitrary amount at every call; a sleep takes at least what it is
      asked for. drift gives the amounts. */
  class Clock {
    const drift: Drift
    var now: int
    var uses: nat

    constructor (drift: Drift, now: int)
      ensures this.drift == drift && this.now == now && uses == 0
    {
      this.drift, this.now, this.uses := drift, now, 0;
    }

    /** Some time passes. */
    method Pass()
      modifies this
      ensures now == old(now) + drift(old(uses)) && uses == old(uses) + 1
    {
      now, uses := now + drift(uses), uses + 1;
    }

    method Sleep(duration: int)
      modifies this
      ensures now == old(now) + drift(old(uses)) + Later(0, duration) && uses == old(uses) + 1
    {
      now, uses := now + drift(uses) + (if duration > 0 then duration else 0), uses + 1;
    }
  }

  /** The lines written, in order. */
  ghost function Lines(trace: seq<Event>): seq<string> {
    if trace == [] then []
    else
      var last := trace[|trace| - 1];
      Lines(trace[..|trace| - 1]) + (if last.Sent? then [last.line] else [])
  }

  function LinesOf(commands: seq<Command>): seq<string> {
    seq(|commands|, i requires 0 <= i < |commands| => commands[i].text + "\n")
  }

  /** How many commands of a run were put on the wire: all, or those up to and including the failing one. */
  function Attempted<S>(r: Run<S>): nat {
    |r.values| + if r.fault.Some? then 1 else 0
  }

  lemma LinesSnoc(trace: seq<Event>, e: Event)
    ensures Lines(trace + [e]) == Lines(trace) + (if e.Sent? then [e.line] else [])
  {
    assert (trace + [e])[..|trace|] == trace;
  }

  /** A transport with its instrument, on a clock. */
  class Link<S> {
    const dev: Device<S>
    const clock: Clock
    var state: S
    var closed: bool
    ghost var trace: seq<Event>

    constructor (dev: Device<S>, clock: Clock, state: S)
      ensures this.dev == dev && this.clock == clock && this.state == state && !closed && trace == []
    {
      this.dev, this.clock, this.state, this.closed, this.trace := dev, clock, state, false, [];
    }

    method Write(line: string, ghost gap: nat) returns (refused: Option<Fault>)
      modifies this`state, this`trace, clock
      ensures (state, refused) == dev.write(old(state), line)
      ensures clock.now == old(clock.now) + clock.drift(old(clock.uses)) && clock.uses == old(clock.uses) + 1
      ensures trace == old(trace) + [Sent(line, old(clock.now), clock.now, refused.None?, gap)]
    {
      var (after, r) := dev.write(state, line);
      state, refused := after, r;
      clock.Pass();
      trace := trace + [Sent(line, old(clock.now), clock.now, refused.None?, gap)];
    }

    method Read(ghost gap: nat) returns (received: Received)
      modifies this`state, this`trace, clock
      ensures (state, received) == dev.read(old(state))
      ensures clock.now == old(clock.now) + clock.drift(old(clock.uses)) && clock.uses == old(clock.uses) + 1
      ensures trace == old(trace) + [Polled(old(clock.now), gap)]
    {
      var (after, r) := dev.read(state);
      state, received := after, r;
      clock.Pass();
      trace := trace + [Polled(old(clock.now), gap)];
    }
  }

  class DirectExecutor<S> {
    const link: Link<S>
    const clock: Clock
    var interval: nat
    var lastWriteAt: Option<int>
    var closed: bool

    /** The instrument, the clock, the write time and the wire so far. */
    ghost function Time(): Timed<S>
      reads this, link, clock
    {
      Timed(link.state, clock.now, clock.uses, lastWriteAt, link.trace)
    }

    /** Nothing on the wire is ahead of the clock, accepted writes end by the write time, and every later
        attempt has kept its interval from them. */
    ghost predicate Valid()
      reads this, link, clock
    {
      link.clock == clock && TimeValid(Time())
    }

    constructor (link: Link<S>, interval: nat)
      requires link.trace == []
      ensures Valid() && this.link == link && this.clock == link.clock && this.interval == interval
      ensures lastWriteAt.None? && !closed && Time() == Timed(link.state, link.clock.now, link.clock.uses, None, [])
    {
      this.link, this.clock, this.interval := link, link.clock, interval;
      lastWriteAt, closed := None, false;
    }

    /** Wait until the interval since the last accepted write is over. */
    method WaitBeforeWrite()
      requires Valid()
      modifies clock
      ensures Valid() && Time() == Waited(clock.drift, interval, old(Time()))
      ensures clock.now >= old(clock.now)
      ensures lastWriteAt.Some? ==> clock.now >= lastWriteAt.value + interval
    {
      WaitedKeepsTime(clock.drift, interval, Time());
      if lastWriteAt.None? {
        return;
      }
      clock.Pass();
      var remaining := interval - (clock.now - lastWriteAt.value);
      if remaining > 0 {
        clock.Sleep(remaining);
      }
    }

    /** The attempt to write one line. */
    method PutOnWire(line: string) returns (refused: Option<Fault>)
      requires Valid()
      modifies link`state, link`trace, clock
      ensures (Time(), refused) == Written(link.dev, clock.drift, interval, Waited(clock.drift, interval, old(Time())), line)
    {
      WaitBeforeWrite();
      refused := link.Write(line, interval);
    }

    /** Note the time of an accepted write. */
    method NoteWrite()
      requires link.clock == clock
      modifies this`lastWriteAt, clock
      ensures Time() == Stamped(clock.drift, old(Time()))
    {
      clock.Pass();
      lastWriteAt := Some(clock.now);
    }

    /** Wait out the interval after a query, then read. */
    method AwaitReply() returns (received: Received)
      requires link.clock == clock
      modifies link`state, link`trace, clock
      ensures (Time(), received)
           == Polling(link.dev, clock.drift, interval, Slept(clock.drift, old(Time()), interval))
    {
      clock.Sleep(interval);
      received := link.Read(interval);
    }

    /** Write one command and, for a query, read its response after the interval. */
    method ExecuteOne(command: Command) returns (result: Result<Option<string>, Fault>)
      requires Valid()
      modifies this`lastWriteAt, link`state, link`trace, clock
      ensures Valid() && (Time(), result) == Exchanged(link.dev, clock.drift, interval, old(Time()), command)
    {
      ExchangeKeepsTime(link.dev, clock.drift, interval, Time(), command);
      var refused := PutOnWire(command.text + "\n");
      if refused.Some? {
        return Failure(refused.value);
      }
      NoteWrite();
      if command.Write? {
        return Success(None);
      }
      var received := AwaitReply();
      match received {
        case NotReceived(fault) => result := Failure(fault);
        case Bytes(data) =>
          var decoded := Decode(data);
          if decoded.Failure? {
            return Failure(decoded.error);
          }
          result := Success(Some(decoded.value));
      }
    }

    /** execute: the outcome is that of the run of the commands on the device; what is put on the wire is
        the batch up to the failing command, spaced by the interval; when, and what it leaves for the next
        batch to wait for, is as in VirtualTime. */
    method Execute(commands: seq<Command>) returns (outcome: Outcome)
      requires Valid()
      modifies this`lastWriteAt, link`state, link`trace, clock
      ensures Valid() && clock.now >= old(clock.now)
      ensures closed ==> outcome == Raised(EXECUTOR_CLOSED) && Time() == old(Time())
      ensures !closed ==>
        Time() == TimedCommands(link.dev, clock.drift, interval, old(Time()), commands).time
      ensures !closed ==>
        var run := RunCommands(link.dev, old(link.state), commands);
        && outcome == OutcomeOf(run, commands) && link.state == run.world
        && old(link.trace) <= link.trace
        && Lines(link.trace[|old(link.trace)|..]) == LinesOf(commands[..Attempted(run)])
      ensures BatchSpaced(link.trace, |old(link.trace)|, interval, old(clock.now))
      ensures old(lastWriteAt).Some? ==>
        WritesFrom(link.trace, |old(link.trace)|, old(lastWriteAt).value + interval)
    {
      if closed {
        return Raised(EXECUTOR_CLOSED);
      }
      ghost var start := Time();
      BatchOnWire(link.dev, clock.drift, interval, start, commands);
      TimeDoesNotMatter(link.dev, clock.drift, interval, start, commands);
      outcome := ExecuteInOrder(commands);
    }

    /** The loop of execute. */
    method ExecuteInOrder(commands: seq<Command>) returns (outcome: Outcome)
      requires Valid()
      modifies this`lastWriteAt, link`state, link`trace, clock
      ensures
        var run := TimedCommands(link.dev, clock.drift, interval, old(Time()), commands);
        && Valid() && Time() == run.time && outcome == OutcomeOf(Untimed(run), commands)
    {
      var values: seq<Option<string>> := [];
      ghost var start := Time();
      assert commands[..0] == [];
      for i := 0 to |commands|
        invariant Valid()
        invariant TimedCommands(link.dev, clock.drift, interval, start, commands[..i]) == TimedRun(Time(), values, None)
      {
        ghost var before := Time();
        var result := ExecuteOne(commands[i]);
        TimedGoesOn(link.dev, clock.drift, interval, start, commands, i, before, values);
        if result.Failure? {
          TimedFails(link.dev, clock.drift, interval, start, commands, i, before, values);
          return Raised(RaisedFor(result.error, i, commands[i]));
        }
        values := values + [result.value];
      }
      assert commands[..|commands|] == commands;
      return Values(values);
    }

    /** close */
    method Close()
      modifies this`closed, link`closed
      ensures closed && (old(closed) ==> link.closed == old(link.closed)) && (!old(closed) ==> link.closed)
    {
      if !closed {
        link.closed := true;
        closed := true;
      }
    }
  }

  /** The part of a trace from n on belongs to one batch: nothing in it starts before `begin`, its write
      attempts are the interval apart, and so are its reads from their writes. */
  ghost predicate BatchSpaced(trace: seq<Event>, n: nat, interval: nat, begin: int) {
    && n <= |trace|
    && (forall k :: n <= k < |trace| ==> trace[k].gap == interval && trace[k].start >= begin)
    && (forall i, j :: n <= i < j < |trace| && trace[i].Sent? && trace[j].Sent? ==>
          trace[j].start >= trace[i].end + interval)
    && (forall k :: n <= k < |trace| && trace[k].Polled? ==>
          k > n && trace[k - 1].Sent? && trace[k - 1].accepted && trace[k].start >= trace[k - 1].end + interval)
  }

  ghost predicate WritesFrom(trace: seq<Event>, n: nat, t: int) {
    forall k :: n <= k < |trace| && trace[k].Sent? ==> trace[k].start >= t
  }

  ghost predicate WritesUntil(trace: seq<Event>, n: nat, t: int) {
    forall k :: n <= k < |trace| && trace[k].Sent? ==> trace[k].end <= t
  }

  /** A command on the wire: a write attempt and, at most, the read of its response. */
  ghost predicate OneExchange(before: seq<Event>, after: seq<Event>, command: Command, interval: nat, begin: int) {
    var m := |before|;
    && before < after && |after| <= m + 2
    && after[m].Sent? && after[m].line == command.text + "\n" && after[m].gap == interval && begin <= after[m].start
    && after[m].start <= after[m].end
    && (|after| == m + 2 ==>
          && after[m].accepted && after[m + 1].Polled? && after[m + 1].gap == interval
          && after[m + 1].start >= after[m].end + interval)
  }

  /** Where a batch stands that started at t: i commands done, every attempt the interval apart. */
  ghost predicate Underway<S>(t: Timed<S>, u: Timed<S>, commands: seq<Command>, i: nat, interval: nat) {
    var n := |t.trace|;
    && TimeValid(u) && t.now <= u.now && i <= |commands| && t.trace <= u.trace
    && Lines(u.trace[n..]) == LinesOf(commands[..i])
    && BatchSpaced(u.trace, n, interval, t.now)
    && (t.lastWriteAt.Some? ==>
          && WritesFrom(u.trace, n, t.lastWriteAt.value + interval)
          && u.lastWriteAt.Some? && t.lastWriteAt.value <= u.lastWriteAt.value)
    && (u.lastWriteAt.Some? ==> WritesUntil(u.trace, n, u.lastWriteAt.value))
    && (u.lastWriteAt.None? ==> |u.trace| == n)
  }

  /** What one more command leaves, whether it goes through or not. */
  ghost predicate Attempt<S>(t: Timed<S>, u: Timed<S>, commands: seq<Command>, i: nat, interval: nat) {
    var n := |t.trace|;
    && t.now <= u.now && i <= |commands| && t.trace <= u.trace
    && Lines(u.trace[n..]) == LinesOf(commands[..i])
    && BatchSpaced(u.trace, n, interval, t.now)
    && (t.lastWriteAt.Some? ==> WritesFrom(u.trace, n, t.lastWriteAt.value + interval))
  }

  lemma ExchangeOnWire<S>(dev: Device<S>, drift: Drift, interval: nat, u: Timed<S>, command: Command)
    requires TimeValid(u)
    ensures
      var (after, result) := Exchanged(dev, drift, interval, u, command);
      var m := |u.trace|;
      && after.now >= u.now && OneExchange(u.trace, after.trace, command, interval, u.now)
      && (u.lastWriteAt.Some? ==> after.lastWriteAt.Some? && u.lastWriteAt.value <= after.lastWriteAt.value)
      && (u.lastWriteAt.Some? ==> after.trace[m].start >= u.lastWriteAt.value + interval)
      && (result.Success? ==> after.lastWriteAt.Some? && after.trace[m].end <= after.lastWriteAt.value)
  {
    WaitedKeepsTime(drift, interval, u);
  }

  lemma OneMoreOnWire<S>(dev: Device<S>, drift: Drift, interval: nat, t: Timed<S>, u: Timed<S>, commands: seq<Command>, i: nat)
    requires i < |commands| && Underway(t, u, commands, i, interval)
    ensures
      var (after, result) := Exchanged(dev, drift, interval, u, commands[i]);
      && Attempt(t, after, commands, i + 1, interval)
      && (result.Success? ==> Underway(t, after, commands, i + 1, interval))
  {
    var n := |t.trace|;
    var after := Exchanged(dev, drift, interval, u, commands[i]).0;
    ExchangeOnWire(dev, drift, interval, u, commands[i]);
    ExchangeKeepsTime(dev, drift, interval, u, commands[i]);
    LinesOfStep(u.trace, after.trace, n, commands, i, interval, u.now);
    BatchSpacedStep(u.trace, after.trace, n, commands[i], interval, t.now, u.lastWriteAt);
    WritesStep(u.trace, after.trace, n, commands[i], interval, u.now);
  }

  lemma OnWireOfPrefix<S>(t: Timed<S>, u: Timed<S>, commands: seq<Command>, k: nat, i: nat, interval: nat)
    requires i <= k <= |commands|
    ensures Attempt(t, u, commands[..k], i, interval) ==> Attempt(t, u, commands, i, interval)
    ensures Underway(t, u, commands[..k], i, interval) ==> Underway(t, u, commands, i, interval)
  {
    assert commands[..k][..i] == commands[..i];
  }

  /** A batch on the wire: its commands up to the failing one, spaced by the interval, and kept away from the
      write time it started from. */
  lemma {:induction false} BatchOnWire<S>(dev: Device<S>, drift: Drift, interval: nat, t: Timed<S>, commands: seq<Command>)
    requires TimeValid(t)
    ensures
      var run := TimedCommands(dev, drift, interval, t, commands);
      var n := |run.values| + if run.fault.Some? then 1 else 0;
      && Attempt(t, run.time, commands, n, interval)
      && (run.fault.None? ==> n == |commands| && Underway(t, run.time, commands, n, interval))
  {
    if commands == [] {
      assert t.trace[|t.trace|..] == [];
    } else {
      var k := |commands| - 1;
      var earlier := TimedCommands(dev, drift, interval, t, commands[..k]);
      BatchOnWire(dev, drift, interval, t, commands[..k]);
      OnWireOfPrefix(t, earlier.time, commands, k, |earlier.values| + if earlier.fault.Some? then 1 else 0, interval);
      if earlier.fault.None? {
        OneMoreOnWire(dev, drift, interval, t, earlier.time, commands, k);
      }
    }
  }

  lemma LinesOfStep(before: seq<Event>, after: seq<Event>, n: nat, commands: seq<Command>, i: nat,
                    interval: nat, begin: int)
    requires n <= |before| && i < |commands| && OneExchange(before, after, commands[i], interval, begin)
    requires Lines(before[n..]) == LinesOf(commands[..i])
    ensures Lines(after[n..]) == LinesOf(commands[..i + 1])
  {
    var m := |before|;
    LinesSnoc(before[n..], after[m]);
    assert after[n..m + 1] == before[n..] + [after[m]];
    if |after| == m + 2 {
      LinesSnoc(after[n..m + 1], after[m + 1]);
      assert after[n..] == after[n..m + 1] + [after[m + 1]];
    } else {
      assert after[n..] == after[n..m + 1];
    }
  }

  lemma BatchSpacedStep(before: seq<Event>, after: seq<Event>, n: nat, command: Command, interval: nat,
                        begin: int, last: Option<int>)
    requires BatchSpaced(before, n, interval, begin) && OneExchange(before, after, command, interval, begin)
    requires last.Some? ==> WritesUntil(before, n, last.value) && after[|before|].start >= last.value + interval
    requires last.None? ==> |before| == n
    ensures BatchSpaced(after, n, interval, begin)
  {
    assert forall k :: 0 <= k < |before| ==> after[k] == before[k];
  }

  lemma WritesStep(before: seq<Event>, after: seq<Event>, n: nat, command: Command, interval: nat, begin: int)
    requires n <= |before| && OneExchange(before, after, command, interval, begin)
    ensures forall t :: WritesFrom(before, n, t) && t <= after[|before|].start ==> WritesFrom(after, n, t)
    ensures forall t :: WritesUntil(before, n, t) && after[|before|].end <= t ==> WritesUntil(after, n, t)
    ensures forall t, u :: WritesUntil(before, n, t) && t <= u ==> WritesUntil(before, n, u)
  {
    assert forall k :: 0 <= k < |before| ==> after[k] == before[k];
  }

  /** What comes after a fault is never run. */
  lemma {:induction false} RunEndsAtFault<S>(dev: Device<S>, s: S, commands: seq<Command>, k: nat)
    requires k <= |commands| && RunCommands(dev, s, commands[..k]).fault.Some?
    ensures RunCommands(dev, s, commands) == RunCommands(dev, s, commands[..k])
    decreases |commands|
  {
    if k == |commands| {
      assert commands[..k] == commands;
    } else {
      assert commands[..|commands| - 1][..k] == commands[..k];
      RunEndsAtFault(dev, s, commands[..|commands| - 1], k);
    }
  }

}
